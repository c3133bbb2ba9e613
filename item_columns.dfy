/**
 * The values of the custom item-tree columns: each column reads one line of
 * an item's `extra` field. The eight text columns (Objective, Overview,
 * MainPoints, Implications, DataPoints, Relationships, Summary, Steps) share
 * one provider; the Answer column has its own. `extra` is the value
 * `item.getField('extra')` returns, `None` standing for `undefined`/`null`.
 */
module ItemColumns {
  import opened Wrappers
  import opened JsString

  /** `lines.find(line => line.startsWith(prefix))`, as an index: the first such line, or -1. */
  function FirstLineWith(lines: seq<string>, prefix: string): (i: int)
    ensures -1 <= i < |lines|
    ensures 0 <= i ==> StartsWith(lines[i], prefix)
    ensures forall j :: 0 <= j < |lines| && (i < 0 || j < i) ==> !StartsWith(lines[j], prefix)
  {
    if lines == [] then -1
    else if StartsWith(lines[0], prefix) then 0
    else
      var i := FirstLineWith(lines[1..], prefix);
      if i < 0 then -1 else i + 1
  }

  /** The lines of `extra`, an absent value counting as "" (`extra || ''`). */
  function Lines(extra: Option<string>): seq<string> {
    Split(extra.GetOr(""), "\n")
  }

  /**
   * `createDataProvider(fieldName)` on an item: the rest of the first line
   * of `extra` that starts with `fieldName:`, trimmed; "" when no line does.
   */
  function FieldValue(fieldName: string, extra: Option<string>): (r: string)
    ensures r != "" ==> !IsJsSpace(r[0]) && !IsJsSpace(r[|r| - 1])
    ensures r != "" ==> exists i :: 0 <= i < |Lines(extra)| && StartsWith(Lines(extra)[i], fieldName + ":")
  {
    var lines := Lines(extra);
    var p := fieldName + ":";
    var i := FirstLineWith(lines, p);
    if i < 0 then "" else Trim(lines[i][|p|..])
  }

  /**
   * The Answer column: the second `": "`-separated piece of the first line
   * starting with `Answer:`, untrimmed; "" when there is no such line or
   * piece. `None` when `extra` is absent, where `split` throws (this
   * provider has no `|| ''` fallback).
   */
  function AnswerValue(extra: Option<string>): (r: Option<string>)
    ensures r.None? <==> extra.None?
    ensures r.Some? && r.value != "" ==> Free(r.value, ": ")
    ensures extra.Some? && FirstLineWith(Lines(extra), "Answer:") < 0 ==> r == Some("")
    ensures extra.Some? && 0 <= FirstLineWith(Lines(extra), "Answer:") ==>
      var line := Lines(extra)[FirstLineWith(Lines(extra), "Answer:")];
      var a := IndexOfFrom(line, ": ", 0);
      r == Some(if a < 0 then "" else
        var b := IndexOfFrom(line, ": ", a + 2);
        line[a + 2..if b < 0 then |line| else b])
  {
    if extra.None? then None
    else
      var lines := Lines(extra);
      var i := FirstLineWith(lines, "Answer:");
      if i < 0 then Some("")
      else
        var pieces := Split(lines[i], ": ");
        SplitSecond(lines[i], ": ");
        Some(if |pieces| >= 2 then pieces[1] else "")
  }

  // ---------------------------------------------------------------------
  // Properties

  /** An absent or empty `extra` shows "" in every text column. */
  lemma {:induction false} EmptyExtraShowsNothing(fieldName: string)
    ensures FieldValue(fieldName, None) == ""
    ensures FieldValue(fieldName, Some("")) == ""
  {
    assert Split("", "\n") == [""] by { SplitFree("", "\n"); }
    assert !StartsWith("", fieldName + ":");
  }

  /** The first line of `extra` wins when it starts with the field's prefix, whatever follows it. */
  lemma {:induction false} FirstMatchingLineWins(fieldName: string, line: string, rest: string)
    requires '\n' !in line && StartsWith(line, fieldName + ":")
    ensures FieldValue(fieldName, Some(line + "\n" + rest)) == Trim(line[|fieldName| + 1..])
  {
    SplitCons(line, '\n', rest);
  }

  /** A first line without the field's prefix is skipped: the value is that of the remaining lines. */
  lemma {:induction false} OtherLineSkipped(fieldName: string, line: string, rest: string)
    requires '\n' !in line && !StartsWith(line, fieldName + ":")
    ensures FieldValue(fieldName, Some(line + "\n" + rest)) == FieldValue(fieldName, Some(rest))
  {
    SplitCons(line, '\n', rest);
    var lines := Split(line + "\n" + rest, "\n");
    assert lines[1..] == Split(rest, "\n");
  }

  /**
   * A line written as `field: value` is read back as the value, trimmed
   * (the space after the colon included).
   */
  lemma {:induction false} WrittenFieldReadBack(fieldName: string, value: string)
    requires '\n' !in fieldName && '\n' !in value
    ensures FieldValue(fieldName, Some(fieldName + ": " + value)) == Trim(value)
  {
    var p := fieldName + ":";
    var after := [' '] + value;
    var line := p + after;
    assert fieldName + ": " + value == line;
    assert line[..|p|] == p && line[|p|..] == after;
    assert '\n' !in line;
    SingleMatchingLine(fieldName, line);
    TrimLeadingSpace(value);
  }

  /** One leading space does not change the trim. */
  lemma {:induction false} TrimLeadingSpace(s: string)
    ensures Trim([' '] + s) == Trim(s)
  {
    var t := [' '] + s;
    assert t[1..] == s;
    assert LeadingSpace(t) == 1 + LeadingSpace(s);
    assert t[LeadingSpace(t)..] == s[LeadingSpace(s)..];
  }

  /**
   * A line written as `Answer: value` is read back as the value when the
   * value is non-empty and holds neither a newline nor `": "`; unlike the
   * text columns, nothing is trimmed.
   */
  lemma {:induction false} WrittenAnswerReadBack(value: string, rest: string)
    requires '\n' !in value && value != "" && Free(value, ": ")
    ensures AnswerValue(Some("Answer: " + value + "\n" + rest)) == Some(value)
  {
    var line := "Answer: " + value;
    assert '\n' !in line;
    SplitCons(line, '\n', rest);
    assert StartsWith(line, "Answer:");
    forall j | 0 <= j < 6 ensures !OccursAt(line, ": ", j) {
      assert line[j..j + 2][0] == line[j] != ':';
    }
    assert OccursAt(line, ": ", 6);
    assert IndexOfFrom(line, ": ", 0) == 6;
    assert line[8..] == value;
    SplitFree(value, ": ");
  }

  /** A first line not starting with `Answer:` is skipped: the Answer column shows what the remaining lines give. */
  lemma {:induction false} AnswerOtherLineSkipped(line: string, rest: string)
    requires '\n' !in line && !StartsWith(line, "Answer:")
    ensures AnswerValue(Some(line + "\n" + rest)) == AnswerValue(Some(rest))
  {
    SplitCons(line, '\n', rest);
    var ls := Lines(Some(rest));
    assert Lines(Some(line + "\n" + rest)) == [line] + ls;
    FirstLineSkipped(line, ls, "Answer:");
  }

  /** Helper: a first line without the prefix shifts the found index by one. */
  lemma {:induction false} FirstLineSkipped(line: string, ls: seq<string>, prefix: string)
    requires !StartsWith(line, prefix)
    ensures FirstLineWith([line] + ls, prefix) == if FirstLineWith(ls, prefix) < 0 then -1 else FirstLineWith(ls, prefix) + 1
    ensures forall i :: 0 <= i < |ls| ==> ([line] + ls)[i + 1] == ls[i]
  {
    assert ([line] + ls)[1..] == ls;
  }

  /** Only the piece up to the second `": "` is shown: `Answer: a: b` shows "a". */
  lemma {:induction false} AnswerStopsAtNextSeparator()
    ensures AnswerValue(Some("Answer: a: b")) == Some("a")
  {
    var line := "Answer: a: b";
    LineOfItsOwn(line);
    assert line[..7] == "Answer:";
    assert line == "Answer" + ": " + ("a" + ": " + "b");
    SplitColonSpace("Answer", "a" + ": " + "b");
    SplitColonSpace("a", "b");
  }

  /** Without a space after `Answer:`, the piece after the next `": "` is shown: `Answer:x: y` shows "y". */
  lemma {:induction false} AnswerAfterFirstSeparator()
    ensures AnswerValue(Some("Answer:x: y")) == Some("y")
  {
    var line := "Answer:x: y";
    LineOfItsOwn(line);
    assert line[..7] == "Answer:";
    assert line == "Answer:x" + ": " + "y";
    SplitColonSpace("Answer:x", "y");
  }

  /**
   * A line `Answer:value` without the space after the colon shows "" in
   * the Answer column, while a text column keyed `Answer` shows the value.
   */
  lemma {:induction false} AnswerNeedsColonSpace(value: string)
    requires value != [] && '\n' !in value && ' ' !in value
    requires !IsJsSpace(value[0]) && !IsJsSpace(value[|value| - 1])
    ensures AnswerValue(Some("Answer:" + value)) == Some("")
    ensures FieldValue("Answer", Some("Answer:" + value)) == value
  {
    var line := "Answer:" + value;
    assert '\n' !in line && ' ' !in line;
    LineOfItsOwn(line);
    assert line[..7] == "Answer:";
    MissingCharFree(line, ": ", 1);
    SplitFree(line, ": ");
    FieldWithoutSpace("Answer", value);
  }

  /** A line written as `field:value`, without a space, shows the value when it has no white space at its ends. */
  lemma {:induction false} FieldWithoutSpace(fieldName: string, value: string)
    requires '\n' !in fieldName && '\n' !in value
    requires value != [] ==> !IsJsSpace(value[0]) && !IsJsSpace(value[|value| - 1])
    ensures FieldValue(fieldName, Some(fieldName + ":" + value)) == value
  {
    var p := fieldName + ":";
    var line := p + value;
    assert line[..|p|] == p && line[|p|..] == value;
    assert '\n' !in line;
    SingleMatchingLine(fieldName, line);
    TrimOfTrimmed(value);
  }

  /** A single line starting with the field's prefix shows the rest of it, trimmed. */
  lemma {:induction false} SingleMatchingLine(fieldName: string, line: string)
    requires '\n' !in line && StartsWith(line, fieldName + ":")
    ensures FieldValue(fieldName, Some(line)) == Trim(line[|fieldName| + 1..])
  {
    LineOfItsOwn(line);
  }

  /** A string without a newline is a single line. */
  lemma {:induction false} LineOfItsOwn(line: string)
    requires '\n' !in line
    ensures Lines(Some(line)) == [line]
  {
    CharFree(line, '\n');
    SplitFree(line, "\n");
  }
}
