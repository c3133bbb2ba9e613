/**
 * The JavaScript string operations the export and the item columns use:
 * `Array.prototype.join`, `String.prototype.split` with a non-empty
 * separator, `startsWith` and `trim`. A string is a sequence of Unicode
 * scalar values (`char`); JavaScript counts UTF-16 code units instead, so
 * lengths and indices differ for text outside the Basic Multilingual Plane,
 * which is not modelled.
 */
module JsString {

  /** Concatenates `parts` with `sep` between neighbours (`parts.join(sep)`). */
  function Join(parts: seq<string>, sep: string): (r: string)
    ensures parts == [] ==> r == ""
    ensures |parts| == 1 ==> r == parts[0]
  {
    if parts == [] then ""
    else if |parts| == 1 then parts[0]
    else parts[0] + sep + Join(parts[1..], sep)
  }

  /** `s.startsWith(p)`. */
  predicate StartsWith(s: string, p: string) {
    |p| <= |s| && s[..|p|] == p
  }

  /** `sep` occurs in `s` at index `i`. */
  predicate OccursAt(s: string, sep: string, i: int) {
    0 <= i && i + |sep| <= |s| && s[i..i + |sep|] == sep
  }

  /** `s.indexOf(sep, from)`: the first occurrence at or after `from`, or -1. */
  function IndexOfFrom(s: string, sep: string, from: nat): (r: int)
    requires |sep| > 0
    ensures r == -1 || (from <= r && OccursAt(s, sep, r))
    ensures forall j :: from <= j && (r == -1 || j < r) ==> !OccursAt(s, sep, j)
    decreases |s| - from
  {
    if |s| < from + |sep| then -1
    else if s[from..from + |sep|] == sep then from
    else IndexOfFrom(s, sep, from + 1)
  }

  /** `sep` does not occur anywhere in `t`. */
  predicate Free(t: string, sep: string) {
    forall j :: 0 <= j <= |t| ==> !OccursAt(t, sep, j)
  }

  /** `s.split(sep)` for a non-empty separator: the pieces between the occurrences found left to right. */
  function Split(s: string, sep: string): (r: seq<string>)
    requires |sep| > 0
    ensures |r| >= 1
    ensures forall k :: 0 <= k < |r| ==> Free(r[k], sep)
    decreases |s|
  {
    var i := IndexOfFrom(s, sep, 0);
    if i < 0 then [s]
    else
      var head := s[..i];
      assert Free(head, sep) by {
        forall j | OccursAt(head, sep, j) ensures false {
          assert head[j..j + |sep|] == s[j..j + |sep|];
          assert OccursAt(s, sep, j);
        }
      }
      [head] + Split(s[i + |sep|..], sep)
  }

  /** Searching a suffix `s[k..]` finds the occurrences of `s` at or after `k`, shifted by `k`. */
  lemma {:induction false} IndexOfSuffix(s: string, sep: string, k: nat, from: nat)
    requires |sep| > 0 && k <= |s|
    ensures IndexOfFrom(s[k..], sep, from) ==
      if IndexOfFrom(s, sep, k + from) < 0 then -1 else IndexOfFrom(s, sep, k + from) - k
    decreases |s| - (k + from)
  {
    var t := s[k..];
    if |t| >= from + |sep| {
      assert t[from..from + |sep|] == s[k + from..k + from + |sep|];
      if t[from..from + |sep|] != sep {
        IndexOfSuffix(s, sep, k, from + 1);
      }
    }
  }

  /**
   * The second piece of `s.split(sep)`: what lies between the first
   * occurrence of `sep` and the next one, or the end of `s`.
   */
  lemma {:induction false} SplitSecond(s: string, sep: string)
    requires |sep| > 0
    ensures IndexOfFrom(s, sep, 0) < 0 ==> Split(s, sep) == [s]
    ensures var a := IndexOfFrom(s, sep, 0);
      a >= 0 ==>
        var b := IndexOfFrom(s, sep, a + |sep|);
        |Split(s, sep)| >= 2 && Split(s, sep)[1] == s[a + |sep|..if b < 0 then |s| else b]
  {
    var a := IndexOfFrom(s, sep, 0);
    if a >= 0 {
      var k := a + |sep|;
      var rest := s[k..];
      SplitRest(s, sep);
      SuffixHead(s, sep, k);
    }
  }

  /** Helper: the first piece of the split of `s[k..]` ends at the next separator of `s` at or after `k`. */
  lemma {:induction false} SuffixHead(s: string, sep: string, k: nat)
    requires |sep| > 0 && k <= |s|
    ensures var b := IndexOfFrom(s, sep, k); Split(s[k..], sep)[0] == s[k..if b < 0 then |s| else b]
  {
    var rest := s[k..];
    SplitHead(rest, sep);
    IndexOfSuffix(s, sep, k, 0);
    var b := IndexOfFrom(s, sep, k);
    if b >= 0 {
      assert rest[..b - k] == s[k..b];
    }
  }

  /** Helper: after the first separator, the split goes on with the rest of the string. */
  lemma {:induction false} SplitRest(s: string, sep: string)
    requires |sep| > 0 && IndexOfFrom(s, sep, 0) >= 0
    ensures |Split(s, sep)| >= 2
    ensures Split(s, sep)[1] == Split(s[IndexOfFrom(s, sep, 0) + |sep|..], sep)[0]
  {
    var a := IndexOfFrom(s, sep, 0);
    assert Split(s, sep) == [s[..a]] + Split(s[a + |sep|..], sep);
  }

  /** The first piece of a split: the string up to the first separator, or all of it. */
  lemma {:induction false} SplitHead(s: string, sep: string)
    requires |sep| > 0
    ensures var a := IndexOfFrom(s, sep, 0); Split(s, sep)[0] == if a < 0 then s else s[..a]
  {
  }

  /** Splitting on `": "` a string whose first part holds no space: that part is the first piece. */
  lemma {:induction false} SplitColonSpace(a: string, b: string)
    requires ' ' !in a
    ensures Split(a + ": " + b, ": ") == [a] + Split(b, ": ")
  {
    var s := a + ": " + b;
    forall j | 0 <= j < |a| ensures !OccursAt(s, ": ", j) {
      assert s[j..j + 2][1] == s[j + 1];
      if j + 1 < |a| {
        assert s[j + 1] == a[j + 1];
      }
    }
    assert s[|a|..|a| + 2] == ": ";
    assert OccursAt(s, ": ", |a|);
    var r := IndexOfFrom(s, ": ", 0);
    assert r != -1 && !(r < |a|) && !(r > |a|);
    assert s[..|a|] == a && s[|a| + 2..] == b;
  }

  /** Joining the pieces of a split with the separator gives back the string. */
  lemma {:induction false} JoinSplit(s: string, sep: string)
    requires |sep| > 0
    ensures Join(Split(s, sep), sep) == s
    decreases |s|
  {
    var i := IndexOfFrom(s, sep, 0);
    if i >= 0 {
      var rest := s[i + |sep|..];
      var tail := Split(rest, sep);
      JoinSplit(rest, sep);
      var pieces := Split(s, sep);
      assert pieces == [s[..i]] + tail;
      assert pieces[1..] == tail;
      assert Join(pieces, sep) == s[..i] + sep + Join(tail, sep);
      assert s[i..i + |sep|] == sep;
      assert s == s[..i] + s[i..i + |sep|] + rest;
    }
  }

  /** A string lacking one of the separator's characters has no occurrence of it. */
  lemma {:induction false} MissingCharFree(t: string, sep: string, k: nat)
    requires k < |sep| && sep[k] !in t
    ensures Free(t, sep)
  {
    forall j | 0 <= j <= |t| ensures !OccursAt(t, sep, j) {
      if j + |sep| <= |t| {
        assert t[j..j + |sep|][k] == t[j + k] && t[j + k] in t;
      }
    }
  }

  /** A string without the character `c` has no occurrence of `[c]`. */
  lemma {:induction false} CharFree(t: string, c: char)
    requires c !in t
    ensures Free(t, [c])
  {
    MissingCharFree(t, [c], 0);
  }

  /** A string without the separator is a single piece. */
  lemma {:induction false} SplitFree(s: string, sep: string)
    requires |sep| > 0 && Free(s, sep)
    ensures Split(s, sep) == [s]
  {
    assert IndexOfFrom(s, sep, 0) == -1;
  }

  /** A first line free of the one-character separator `c` becomes the first piece. */
  lemma {:induction false} SplitCons(a: string, c: char, b: string)
    requires c !in a
    ensures Split(a + [c] + b, [c]) == [a] + Split(b, [c])
  {
    var s := a + [c] + b;
    forall j | 0 <= j < |a| ensures !OccursAt(s, [c], j) {
      assert s[j..j + 1] == [a[j]] && a[j] in a;
    }
    assert OccursAt(s, [c], |a|) by {
      assert s[|a|..|a| + 1] == [c];
    }
    assert IndexOfFrom(s, [c], 0) == |a|;
    assert s[..|a|] == a;
    assert s[|a| + 1..] == b;
  }

  /** Splitting pieces joined by a one-character separator that none of them holds gives back the pieces. */
  lemma {:induction false} SplitJoin(parts: seq<string>, c: char)
    requires |parts| >= 1
    requires forall k :: 0 <= k < |parts| ==> c !in parts[k]
    ensures Split(Join(parts, [c]), [c]) == parts
    decreases |parts|
  {
    if |parts| == 1 {
      CharFree(parts[0], c);
      SplitFree(parts[0], [c]);
    } else {
      SplitCons(parts[0], c, Join(parts[1..], [c]));
      SplitJoin(parts[1..], c);
    }
  }

  /** The characters `trim` removes: ECMAScript white space and line terminators. */
  predicate IsJsSpace(c: char) {
    || ('\U{9}' <= c <= '\U{D}') || c == ' ' || c == '\U{A0}' || c == '\U{1680}'
    || ('\U{2000}' <= c <= '\U{200A}') || c == '\U{2028}' || c == '\U{2029}'
    || c == '\U{202F}' || c == '\U{205F}' || c == '\U{3000}' || c == '\U{FEFF}'
  }

  /** The number of leading white-space characters of `s`. */
  function LeadingSpace(s: string): (n: nat)
    ensures n <= |s|
    ensures forall j :: 0 <= j < n ==> IsJsSpace(s[j])
    ensures n < |s| ==> !IsJsSpace(s[n])
  {
    if s == [] || !IsJsSpace(s[0]) then 0 else 1 + LeadingSpace(s[1..])
  }

  /** The number of trailing white-space characters of `s`. */
  function TrailingSpace(s: string): (n: nat)
    ensures n <= |s|
    ensures forall j :: |s| - n <= j < |s| ==> IsJsSpace(s[j])
    ensures n < |s| ==> !IsJsSpace(s[|s| - 1 - n])
  {
    if s == [] || !IsJsSpace(s[|s| - 1]) then 0 else 1 + TrailingSpace(s[..|s| - 1])
  }

  /**
   * `s.trim()`: the part of `s` left after removing white space from both
   * ends; it neither starts nor ends with white space, and everything
   * removed is white space.
   */
  function Trim(s: string): (r: string)
    ensures exists a, b ::
      && 0 <= a <= b <= |s| && r == s[a..b]
      && (forall j :: 0 <= j < a ==> IsJsSpace(s[j]))
      && (forall j :: b <= j < |s| ==> IsJsSpace(s[j]))
    ensures r != [] ==> !IsJsSpace(r[0]) && !IsJsSpace(r[|r| - 1])
  {
    var t := s[LeadingSpace(s)..];
    var r := t[..|t| - TrailingSpace(t)];
    assert r == s[LeadingSpace(s)..LeadingSpace(s) + |r|];
    r
  }

  /** A string that neither starts nor ends with white space is its own trim. */
  lemma {:induction false} TrimOfTrimmed(s: string)
    requires s != [] ==> !IsJsSpace(s[0]) && !IsJsSpace(s[|s| - 1])
    ensures Trim(s) == s
  {
    assert LeadingSpace(s) == 0;
    assert TrailingSpace(s) == 0;
  }

  /** Trimming twice is trimming once. */
  lemma {:induction false} TrimIdempotent(s: string)
    ensures Trim(Trim(s)) == Trim(s)
  {
    TrimOfTrimmed(Trim(s));
  }

  /** A last part holding the separator joins like the two parts on either side of it. */
  lemma {:induction false} JoinSeparatedPart(parts: seq<string>, x: string, y: string)
    requires |parts| >= 1
    ensures Join(parts + [x + "," + y], ",") == Join(parts + [x] + [y], ",")
  {
    JoinAppend(parts, x + "," + y);
    JoinAppend(parts, x);
    JoinAppend(parts + [x], y);
    ConcatRegroup(Join(parts, ","), ",", x, y);
  }

  /** Helper for the lemma above: regrouping a concatenation, kept apart so that its proof stays small. */
  lemma {:induction false} ConcatRegroup(a: string, sep: string, x: string, y: string)
    ensures a + sep + (x + sep + y) == a + sep + x + sep + y
  {
  }

  /** Joining a nonempty list with one more part appends a comma and that part. */
  lemma {:induction false} JoinAppend(parts: seq<string>, last: string)
    requires |parts| >= 1
    ensures Join(parts + [last], ",") == Join(parts, ",") + "," + last
    decreases |parts|
  {
    if |parts| > 1 {
      assert (parts + [last])[1..] == parts[1..] + [last];
      JoinAppend(parts[1..], last);
    }
  }
}
