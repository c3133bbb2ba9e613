/**
 * What the written CSV means: each row reads back, as a record of quoted
 * fields in the sense of section 2 of RFC 4180, as the values its record
 * shows; the columns line up with the headers; the standard and custom
 * columns hold the library item's fields and the flattened JSON values;
 * and the export as a whole either fails as the source does or writes a
 * header line and one line per selected item.
 */
module CsvProperties {
  import opened Wrappers
  import opened JsString
  import opened JsonValue
  import opened CsvFlatten
  import opened CsvExport
  import opened CsvWriter

  // ---------------------------------------------------------------------
  // A reader of quoted fields

  /** The body of a quoted field up to its closing quote: the value, `""` read as `"`, and what follows the quote. */
  function ReadQuoted(t: string): (r: Option<(string, string)>)
    ensures r.Some? ==> |r.value.1| < |t|
    decreases |t|
  {
    if t == [] then None
    else if t[0] == '"' then
      if |t| >= 2 && t[1] == '"' then
        match ReadQuoted(t[2..])
        case None => None
        case Some((v, rest)) => Some(("\"" + v, rest))
      else Some(("", t[1..]))
    else
      match ReadQuoted(t[1..])
      case None => None
      case Some((v, rest)) => Some(([t[0]] + v, rest))
  }

  /** A record of comma-separated quoted fields: the field values, or `None` when `t` is not one. */
  function ParseRecord(t: string): Option<seq<string>>
    decreases |t|
  {
    if t == [] || t[0] != '"' then None
    else
      match ReadQuoted(t[1..])
      case None => None
      case Some((v, rest)) =>
        if rest == [] then Some([v])
        else if rest[0] != ',' then None
        else
          match ParseRecord(rest[1..])
          case None => None
          case Some(vs) => Some([v] + vs)
  }

  /** An escaped value followed by the closing quote reads back as the value. */
  lemma {:induction false} ReadEscaped(s: string, rest: string)
    requires rest == [] || rest[0] != '"'
    ensures ReadQuoted(Escape(s) + "\"" + rest) == Some((s, rest))
    decreases |s|
  {
    var t := Escape(s) + "\"" + rest;
    if s == [] {
      assert t == "\"" + rest;
      assert t[1..] == rest;
    } else {
      ReadEscaped(s[1..], rest);
      var u := Escape(s[1..]) + "\"" + rest;
      if s[0] == '"' {
        assert t == "\"\"" + u;
        assert t[2..] == u;
        assert "\"" + s[1..] == s;
      } else {
        assert t == [s[0]] + u;
        assert t[1..] == u;
        assert [s[0]] + s[1..] == s;
      }
    }
  }

  /** Quoting values and joining them with commas is undone by the reader. */
  lemma {:induction false} RecordReadBack(ts: seq<string>)
    requires |ts| >= 1
    ensures ParseRecord(Join(QuoteAll(ts), ",")) == Some(ts)
    decreases |ts|
  {
    var qs := QuoteAll(ts);
    if |ts| == 1 {
      assert Join(qs, ",") == Quote(ts[0]) + "";
      QuotedFieldThen(ts[0], "");
      assert [ts[0]] == ts;
    } else {
      var tail := Join(QuoteAll(ts[1..]), ",");
      assert qs[1..] == QuoteAll(ts[1..]);
      assert Join(qs, ",") == Quote(ts[0]) + ("," + tail);
      QuotedFieldThen(ts[0], "," + tail);
      RecordReadBack(ts[1..]);
      assert ("," + tail)[1..] == tail;
      assert [ts[0]] + ts[1..] == ts;
    }
  }

  /** A quoted field is read back, and reading goes on after the comma that follows it. */
  lemma {:induction false} QuotedFieldThen(s: string, rest: string)
    requires rest == [] || rest[0] == ','
    ensures ParseRecord(Quote(s) + rest) ==
      if rest == [] then Some([s])
      else match ParseRecord(rest[1..])
        case None => None
        case Some(vs) => Some([s] + vs)
  {
    var t := Quote(s) + rest;
    assert t[0] == '"' && t[1..] == Escape(s) + "\"" + rest;
    ReadEscaped(s, rest);
  }


  // ---------------------------------------------------------------------
  // Rows

  /**
   * Without an `Authors` header, a row has one value per header, each the
   * header's field; it throws exactly when one of the headers does.
   */
  lemma {:induction false} RowTextsAligned(item: Record, hs: seq<string>)
    requires "Authors" !in hs
    ensures RowTexts(item, hs).None? <==> exists k :: 0 <= k < |hs| && FieldFor(item, hs[k]).Throws?
    ensures RowTexts(item, hs).Some? ==>
      && |RowTexts(item, hs).value| == |hs|
      && forall k :: 0 <= k < |hs| ==> FieldFor(item, hs[k]) == Value(RowTexts(item, hs).value[k])
    decreases |hs|
  {
    if hs != [] {
      var n := |hs| - 1;
      var init := hs[..n];
      assert forall k :: 0 <= k < n ==> init[k] == hs[k];
      RowTextsAligned(item, init);
      if RowTexts(item, init).None? {
        var k :| 0 <= k < n && FieldFor(item, init[k]).Throws?;
        assert FieldFor(item, hs[k]).Throws?;
      } else if FieldFor(item, hs[n]).Throws? {
      } else {
        assert forall k :: 0 <= k < n ==> !FieldFor(item, hs[k]).Throws?;
        assert hs[n] in hs;
      }
    }
  }

  /** A row whose first header is `Key` is never empty. */
  lemma {:induction false} KeyRowNonEmpty(item: Record, hs: seq<string>)
    requires |hs| >= 1 && hs[0] == "Key" && RowTexts(item, hs).Some?
    ensures RowTexts(item, hs).value != []
    decreases |hs|
  {
    if |hs| > 1 {
      var init := hs[..|hs| - 1];
      KeyRowNonEmpty(item, init);
    }
  }

  /** Every row reads back as the values written for its record. */
  lemma {:induction false} RowReadBack(item: Record, names: seq<string>)
    requires RowTexts(item, Headers(names)).Some?
    ensures ParseRecord(RowText(item, Headers(names)).value) == RowTexts(item, Headers(names))
  {
    KeyRowNonEmpty(item, Headers(names));
    RecordReadBack(RowTexts(item, Headers(names)).value);
  }

  /** The fixed headers hold no comma, quote or line break. */
  lemma {:induction false} FixedHeadersPlain(c: char)
    requires c == ',' || c == '"' || c == '\n'
    ensures forall k :: 0 <= k < |FixedColumns + AuthorColumns| ==> c !in (FixedColumns + AuthorColumns)[k]
  {
    var base := FixedColumns + AuthorColumns;
    forall k | 0 <= k < |base| ensures c !in base[k] {
      var h := base[k];
      forall i | 0 <= i < |h| ensures h[i] != c {
      }
    }
  }

  /** A header list that holds `c` nowhere but in the given custom names. */
  lemma {:induction false} HeadersWithout(names: seq<string>, c: char)
    requires c == ',' || c == '"' || c == '\n'
    requires forall k :: 0 <= k < |names| ==> c !in names[k]
    ensures forall k :: 0 <= k < |Headers(names)| ==> c !in Headers(names)[k]
  {
    FixedHeadersPlain(c);
    var hs := Headers(names);
    forall k | 0 <= k < |hs| ensures c !in hs[k] {
      if k >= 9 {
        assert hs[k] == names[k - 9];
      } else {
        assert hs[k] == (FixedColumns + AuthorColumns)[k];
      }
    }
  }

  /** The header line splits back into the headers when no custom name holds a comma. */
  lemma {:induction false} HeaderLineReadBack(names: seq<string>)
    requires forall k :: 0 <= k < |names| ==> ',' !in names[k]
    ensures Split(Join(Headers(names), ","), ",") == Headers(names)
  {
    HeadersWithout(names, ',');
    SplitJoin(Headers(names), ',');
  }

  /** A custom name holding a comma adds a column to the header line that no row has. */
  lemma {:induction false} CommaInNameShiftsHeader()
    ensures |Split(Join(Headers(["a,b"]), ","), ",")| == |Headers(["a,b"])| + 1
  {
    var base := FixedColumns + AuthorColumns;
    FixedHeadersPlain(',');
    CommaSplitsName(base);
    assert base + ["a,b"] == Headers(["a,b"]);
  }

  /** After comma-free headers, the name "a,b" splits into two columns. */
  lemma {:induction false} CommaSplitsName(base: seq<string>)
    requires |base| >= 1 && forall k :: 0 <= k < |base| ==> ',' !in base[k]
    ensures |Split(Join(base + ["a,b"], ","), ",")| == |base| + 2
  {
    var split := base + ["a"] + ["b"];
    forall k | 0 <= k < |split| ensures ',' !in split[k] {
      if k < |base| {
        assert split[k] == base[k];
      } else {
        assert split[k] == "a" || split[k] == "b";
      }
    }
    SplitJoin(split, ',');
    JoinSeparatedPart(base, "a", "b");
    assert "a" + "," + "b" == "a,b";
  }

  // ---------------------------------------------------------------------
  // The whole document

  /** No string of `ts` holds a line break. */
  predicate SingleLine(ts: seq<string>) {
    forall k :: 0 <= k < |ts| ==> '\n' !in ts[k]
  }

  lemma {:induction false} JoinSingleLine(parts: seq<string>, sep: string)
    requires '\n' !in sep && SingleLine(parts)
    ensures '\n' !in Join(parts, sep)
    decreases |parts|
  {
    if |parts| > 1 {
      JoinSingleLine(parts[1..], sep);
    }
  }

  /** Quoting adds no line break. */
  lemma {:induction false} QuoteSingleLine(s: string)
    requires '\n' !in s
    ensures '\n' !in Quote(s)
  {
    var e := Escape(s);
    assert '\n' !in e;
    assert forall k :: 0 <= k < |Quote(s)| ==> Quote(s)[k] == '"' || Quote(s)[k] in e;
  }

  /** A row of single-line values is one line. */
  lemma {:induction false} RowSingleLine(item: Record, hs: seq<string>)
    requires RowTexts(item, hs).Some? && SingleLine(RowTexts(item, hs).value)
    ensures '\n' !in RowText(item, hs).value
  {
    var ts := RowTexts(item, hs).value;
    forall k | 0 <= k < |ts| ensures '\n' !in QuoteAll(ts)[k] {
      QuoteSingleLine(ts[k]);
    }
    JoinSingleLine(QuoteAll(ts), ",");
  }

  /** The lines of the output: the header line, then the rows. */
  function OutputLines(items: seq<Record>, hs: seq<string>): seq<string>
    requires RowsText(items, hs).Some?
  {
    [Join(hs, ",")] + RowsText(items, hs).value
  }

  /** With a one-line header line and single-line values, every output line is one line. */
  lemma {:induction false} LinesSingle(items: seq<Record>, hs: seq<string>)
    requires RowsText(items, hs).Some? && '\n' !in Join(hs, ",")
    requires forall i :: 0 <= i < |items| ==> SingleLine(RowTexts(items[i], hs).GetOr([]))
    ensures SingleLine(OutputLines(items, hs))
  {
    var rows := RowsText(items, hs).value;
    forall k | 0 <= k < |rows| ensures '\n' !in rows[k] {
      RowLineSingle(items, hs, k);
    }
  }

  /** The header line is one line when no custom name holds a line break. */
  lemma {:induction false} HeaderLineSingle(names: seq<string>)
    requires SingleLine(names)
    ensures '\n' !in Join(Headers(names), ",")
  {
    HeadersWithout(names, '\n');
    JoinSingleLine(Headers(names), ",");
  }

  lemma {:induction false} RowLineSingle(items: seq<Record>, hs: seq<string>, i: nat)
    requires RowsText(items, hs).Some? && i < |items|
    requires SingleLine(RowTexts(items[i], hs).GetOr([]))
    ensures '\n' !in RowsText(items, hs).value[i]
  {
    assert RowText(items[i], hs) == Some(RowsText(items, hs).value[i]);
    RowSingleLine(items[i], hs);
  }

  /**
   * When no custom name and no written value holds a line break, the
   * output is the header line followed by one line per record, and each
   * record's line reads back as the values of its row.
   */
  lemma {:induction false} DocumentReadBack(items: seq<Record>, names: seq<string>)
    requires CsvText(items, names).Some?
    requires SingleLine(names)
    requires forall i :: 0 <= i < |items| ==> SingleLine(RowTexts(items[i], Headers(names)).GetOr([]))
    ensures var lines := Split(CsvText(items, names).value, "\n");
      && |lines| == |items| + 1
      && lines[0] == Join(Headers(names), ",")
      && forall i :: 0 <= i < |items| ==> ParseRecord(lines[i + 1]) == RowTexts(items[i], Headers(names))
  {
    var hs := Headers(names);
    var rows := RowsText(items, hs).value;
    var lines := OutputLines(items, hs);
    assert CsvText(items, names).value == Join(lines, "\n");
    HeaderLineSingle(names);
    LinesSingle(items, hs);
    SplitJoin(lines, '\n');
    forall i | 0 <= i < |items|
      ensures ParseRecord(lines[i + 1]) == RowTexts(items[i], hs)
    {
      assert RowText(items[i], hs) == Some(rows[i]);
      RowReadBack(items[i], names);
    }
  }

  // ---------------------------------------------------------------------
  // Columns of a combined record

  /** A column holding a string shows it, or "N/A" when it is empty. */
  lemma {:induction false} TextColumn(rec: Record, h: string, v: string)
    requires h !in AuthorColumns && h != "Authors" && h in rec && rec[h] == Text(v)
    ensures FieldFor(rec, h) == Value(if v == "" then "N/A" else v)
  {
  }

  /**
   * For a record whose authors are a list of names, the first three author
   * columns show the first three names ("N/A" when missing or empty) and
   * the fourth the remaining names joined by "; ".
   */
  lemma {:induction false} AuthorColumnsOfNames(rec: Record, ns: seq<string>)
    requires "Authors" in rec && rec["Authors"] == Names(ns)
    ensures FieldFor(rec, "Author 0") == Value(if 0 < |ns| && ns[0] != "" then ns[0] else "N/A")
    ensures FieldFor(rec, "Author 1") == Value(if 1 < |ns| && ns[1] != "" then ns[1] else "N/A")
    ensures FieldFor(rec, "Author 2") == Value(if 2 < |ns| && ns[2] != "" then ns[2] else "N/A")
    ensures FieldFor(rec, "Other Authors") == Value(if |ns| > 3 then Join(ns[3..], "; ") else "N/A")
  {
    assert AuthorsOf(rec) == Names(ns);
  }

  /** The standard fields survive combining when no custom name replaces them. */
  lemma {:induction false} StandardRecord(z: LibraryItem, j: Json, names: seq<string>)
    requires forall n :: n in names ==> n != "Key" && n != "Title" && n != "Authors"
    requires forall n :: n in names ==> n != "Publication Year" && n != "Publication Title" && n != "DOI"
    ensures var rec := CombinedItem(z, j, names);
      && "Key" in rec && rec["Key"] == Text(z.key)
      && "Title" in rec && rec["Title"] == Text(z.title)
      && "Publication Year" in rec && rec["Publication Year"] == Text(ExtractYear(z.date))
      && "Publication Title" in rec && rec["Publication Title"] == Text(if z.publicationTitle == "" then "N/A" else z.publicationTitle)
      && "DOI" in rec && rec["DOI"] == Text(if z.doi == "" then "N/A" else z.doi)
      && "Authors" in rec && rec["Authors"] == Names(z.authors)
  {
    FlattenWellFormed(j);
    CombinedOfLaws(StandardFieldsOf(z), Flatten(j), names);
  }

  /**
   * The standard columns of an item's row when no custom name replaces a
   * standard field: its key, title, year, publication title and DOI ("N/A"
   * when empty), its first three authors and the rest joined by "; ".
   */
  lemma {:induction false} StandardColumns(z: LibraryItem, j: Json, names: seq<string>)
    requires forall n :: n in names ==> n != "Key" && n != "Title" && n != "Authors"
    requires forall n :: n in names ==> n != "Publication Year" && n != "Publication Title" && n != "DOI"
    ensures var rec := CombinedItem(z, j, names);
      && FieldFor(rec, "Key") == Value(if z.key == "" then "N/A" else z.key)
      && FieldFor(rec, "Title") == Value(if z.title == "" then "N/A" else z.title)
      && FieldFor(rec, "Publication Year") == Value(ExtractYear(z.date))
      && FieldFor(rec, "Publication Title") == Value(if z.publicationTitle == "" then "N/A" else z.publicationTitle)
      && FieldFor(rec, "DOI") == Value(if z.doi == "" then "N/A" else z.doi)
      && FieldFor(rec, "Author 0") == Value(if 0 < |z.authors| && z.authors[0] != "" then z.authors[0] else "N/A")
      && FieldFor(rec, "Author 1") == Value(if 1 < |z.authors| && z.authors[1] != "" then z.authors[1] else "N/A")
      && FieldFor(rec, "Author 2") == Value(if 2 < |z.authors| && z.authors[2] != "" then z.authors[2] else "N/A")
      && FieldFor(rec, "Other Authors") == Value(if |z.authors| > 3 then Join(z.authors[3..], "; ") else "N/A")
  {
    FixedColumnValues(z, j, names);
    StandardRecord(z, j, names);
    AuthorColumnsOfNames(CombinedItem(z, j, names), z.authors);
  }

  /** The five fixed columns of `StandardColumns`. */
  lemma {:induction false} FixedColumnValues(z: LibraryItem, j: Json, names: seq<string>)
    requires forall n :: n in names ==> n != "Key" && n != "Title" && n != "Authors"
    requires forall n :: n in names ==> n != "Publication Year" && n != "Publication Title" && n != "DOI"
    ensures var rec := CombinedItem(z, j, names);
      && FieldFor(rec, "Key") == Value(if z.key == "" then "N/A" else z.key)
      && FieldFor(rec, "Title") == Value(if z.title == "" then "N/A" else z.title)
      && FieldFor(rec, "Publication Year") == Value(ExtractYear(z.date))
      && FieldFor(rec, "Publication Title") == Value(if z.publicationTitle == "" then "N/A" else z.publicationTitle)
      && FieldFor(rec, "DOI") == Value(if z.doi == "" then "N/A" else z.doi)
  {
    var rec := CombinedItem(z, j, names);
    StandardRecord(z, j, names);
    TextColumn(rec, "Key", z.key);
    TextColumn(rec, "Title", z.title);
    TextColumn(rec, "Publication Year", ExtractYear(z.date));
    TextColumn(rec, "Publication Title", if z.publicationTitle == "" then "N/A" else z.publicationTitle);
    TextColumn(rec, "DOI", if z.doi == "" then "N/A" else z.doi);
  }

  /**
   * A custom column shows the item's flattened JSON value under that name:
   * a non-empty string as is, a truthy number as its text, `true` as
   * "true", and "N/A" for anything falsy or missing.
   */
  lemma {:induction false} CustomColumn(z: LibraryItem, j: Json, names: seq<string>, n: string)
    requires n in names && n !in AuthorColumns && n != "Authors"
    ensures var v := Get(Flatten(j), n);
      v.Some? ==> !v.value.Arr? && !v.value.Obj?
    ensures var v := Get(Flatten(j), n);
      FieldFor(CombinedItem(z, j, names), n) == Value(
        match v
        case Some(Str(s)) => if s != "" then s else "N/A"
        case Some(Num(t)) => if Truthy(Num(t)) then t else "N/A"
        case Some(Bool(b)) => if b then "true" else "N/A"
        case _ => "N/A")
  {
    CustomRecordValue(z, j, names, n);
    CellColumn(CombinedItem(z, j, names), n, Get(Flatten(j), n));
  }

  /** A custom name's entry in the combined record is the cell of the flattened value under that name. */
  lemma {:induction false} CustomRecordValue(z: LibraryItem, j: Json, names: seq<string>, n: string)
    requires n in names
    ensures var v := Get(Flatten(j), n); v.Some? ==> !v.value.Arr? && !v.value.Obj?
    ensures n in CombinedItem(z, j, names) && CombinedItem(z, j, names)[n] == CellFor(Get(Flatten(j), n))
  {
    FlattenWellFormed(j);
    GetScalar(Flatten(j), n);
    CombinedOfLaws(StandardFieldsOf(z), Flatten(j), names);
  }

  /** A custom name whose flattened value is a non-empty string holds that string in the combined record. */
  lemma {:induction false} TextRecordValue(z: LibraryItem, j: Json, names: seq<string>, n: string, s: string)
    requires n in names && Get(Flatten(j), n) == Some(Str(s)) && s != ""
    ensures n in CombinedItem(z, j, names) && CombinedItem(z, j, names)[n] == Text(s)
  {
    CustomRecordValue(z, j, names, n);
  }

  /** A column holding the cell of a scalar shows the scalar's text, or "N/A" when it is falsy or missing. */
  lemma {:induction false} CellColumn(rec: Record, n: string, v: Option<Json>)
    requires n !in AuthorColumns && n != "Authors"
    requires v.Some? ==> !v.value.Arr? && !v.value.Obj?
    requires n in rec && rec[n] == CellFor(v)
    ensures FieldFor(rec, n) == Value(
      match v
      case Some(Str(s)) => if s != "" then s else "N/A"
      case Some(Num(t)) => if Truthy(Num(t)) then t else "N/A"
      case Some(Bool(b)) => if b then "true" else "N/A"
      case _ => "N/A")
  {
  }

  // ---------------------------------------------------------------------
  // The export

  /** An export ends with nothing to export exactly when the answer yields no items, and with a mismatch exactly when the counts differ. */
  lemma {:induction false} ExportRefusals(answer: Option<string>, parse: string -> Option<Json>, zs: seq<LibraryItem>)
    ensures ExportOf(answer, parse, zs) == NothingToExport <==> ParseJsonData(answer, parse) == []
    ensures ExportOf(answer, parse, zs) == CountMismatch <==>
      ParseJsonData(answer, parse) != [] && |ParseJsonData(answer, parse)| != |zs|
  {
  }

  /**
   * A written export covers as many items as are selected and is the
   * output of the combined records under the gathered custom names.
   */
  lemma {:induction false} ExportWritten(answer: Option<string>, parse: string -> Option<Json>, zs: seq<LibraryItem>)
    requires ExportOf(answer, parse, zs).Written?
    ensures var js := ParseJsonData(answer, parse);
      && |js| == |zs| > 0
      && CsvText(CombinedItems(zs, js, UniqueFieldNamesOf(js)), UniqueFieldNamesOf(js)) == Some(ExportOf(answer, parse, zs).csv)
  {
  }

  /** The output starts with the header line. */
  lemma {:induction false} OutputStartsWithHeader(items: seq<Record>, names: seq<string>)
    requires CsvText(items, names).Some?
    ensures StartsWith(CsvText(items, names).value, Join(Headers(names), ","))
  {
    var lines := OutputLines(items, Headers(names));
    var first := lines[0];
    if |lines| > 1 {
      assert Join(lines, "\n") == first + "\n" + Join(lines[1..], "\n");
      assert (first + "\n" + Join(lines[1..], "\n"))[..|first|] == first;
    }
  }

  /** The JSON item of the example below. */
  function AuthorsItem(): Json {
    Obj([Member("Authors", Str("Jane Doe"))])
  }

  lemma {:induction false} AuthorsItemFlat()
    ensures Flatten(AuthorsItem()) == [Member("Authors", Str("Jane Doe"))]
    ensures Get(Flatten(AuthorsItem()), "Authors") == Some(Str("Jane Doe"))
    ensures Keys(Flatten(AuthorsItem())) == ["Authors"]
  {
    assert !IsIndexKey("Authors") by {
      assert "Authors"[0] == 'A';
    }
    FlatObjectUnchanged([Member("Authors", Str("Jane Doe"))]);
    assert Keys([Member("Authors", Str("Jane Doe"))]) == ["Authors"];
  }

  lemma {:induction false} AuthorsItemNames()
    ensures Flatten(AuthorsItem()) == [Member("Authors", Str("Jane Doe"))]
    ensures Get(Flatten(AuthorsItem()), "Authors") == Some(Str("Jane Doe"))
    ensures UniqueFieldNamesOf([AuthorsItem()]) == ["Authors"]
  {
    AuthorsItemFlat();
    AuthorsNotStandard();
    OneKeyNames(AuthorsItem(), "Authors");
  }

  lemma {:induction false} AuthorsNotStandard()
    ensures !IsStandardName("Authors")
  {
    assert AsciiLower("Authors") == "authors";
  }

  /** One JSON item with a single non-standard flattened key names exactly that column. */
  lemma {:induction false} OneKeyNames(j: Json, k: string)
    requires Keys(Flatten(j)) == [k] && !IsStandardName(k)
    ensures UniqueFieldNamesOf([j]) == [k]
  {
    assert [j][..0] == [] && [j][0] == j;
    assert UniqueFieldNamesOf([j]) == AddKeys([], [k]);
    assert [k][..0] == [];
    assert AddKeys([], []) == [];
  }



  /**
   * A record whose `Authors` value is a string longer than three
   * characters makes the whole output fail: a string has no `join`.
   */
  lemma {:induction false} AuthorsStringFails(items: seq<Record>, names: seq<string>, i: nat)
    requires i < |items| && "Authors" in items[i] && items[i]["Authors"].Text? && |items[i]["Authors"].s| > 3
    ensures CsvText(items, names).None?
  {
    var hs := Headers(names);
    assert hs[8] == "Other Authors";
    assert FieldFor(items[i], hs[8]).Throws?;
    RowTextsThrow(items[i], hs, 8);
    assert RowText(items[i], hs).None?;
  }

  lemma {:induction false} AuthorsItemRecord(z: LibraryItem)
    ensures CombinedItem(z, AuthorsItem(), ["Authors"])["Authors"] == Text("Jane Doe")
  {
    AuthorsItemNames();
    TextRecordValue(z, AuthorsItem(), ["Authors"], "Authors", "Jane Doe");
  }

  /**
   * The export of one item whose JSON item holds the string field
   * `Authors: "Jane Doe"` fails: the custom column replaces the author
   * list, and the string has no `join`.
   */
  lemma {:induction false} AuthorsStringFailsExport(z: LibraryItem)
    ensures ExportOf(Some("{}"), _ => Some(Arr([AuthorsItem()])), [z]) == Failed
  {
    var parse: string -> Option<Json> := _ => Some(Arr([AuthorsItem()]));
    var js := ParseJsonData(Some("{}"), parse);
    assert js == [AuthorsItem()];
    AuthorsItemNames();
    AuthorsItemRecord(z);
    var combined := CombinedItems([z], js, ["Authors"]);
    AuthorsStringFails(combined, ["Authors"], 0);
  }
}
