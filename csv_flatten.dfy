/**
 * `flattenObject` of the CSV export: a JSON item becomes one level of
 * dotted keys. Nested plain objects are descended into, an object whose
 * values are all primitive becomes "k: v, ..." text, an array becomes its
 * elements' texts joined by "; ", and anything else is kept as it is.
 *
 * The accumulator `res` is a plain JavaScript object. It is modelled as a
 * member list in the order JavaScript enumerates its properties: canonical
 * array indices first, in numeric order, then the other keys in insertion
 * order.
 */
module CsvFlatten {
  import opened Wrappers
  import opened JsString
  import opened JsonValue

  // ---------------------------------------------------------------------
  // Property order of a plain object

  /** Digit strings of one length, compared as numbers. */
  predicate DigitsLess(a: string, b: string)
    requires |a| == |b|
  {
    |a| > 0 && (a[0] < b[0] || (a[0] == b[0] && DigitsLess(a[1..], b[1..])))
  }

  /** A canonical array index "0" .. "4294967294", which JavaScript enumerates before other keys. */
  predicate IsIndexKey(k: string) {
    && |k| >= 1
    && (forall i :: 0 <= i < |k| ==> '0' <= k[i] <= '9')
    && (|k| == 1 || k[0] != '0')
    && (|k| < 10 || (|k| == 10 && DigitsLess(k, "4294967295")))
  }

  /** Numeric order of canonical indices: fewer digits is smaller. */
  predicate IndexLess(a: string, b: string) {
    |a| < |b| || (|a| == |b| && DigitsLess(a, b))
  }

  lemma {:induction false} DigitsLessIrreflexive(a: string)
    ensures !DigitsLess(a, a)
  {
    if |a| > 0 {
      DigitsLessIrreflexive(a[1..]);
    }
  }

  lemma {:induction false} DigitsLessTotal(a: string, b: string)
    requires |a| == |b| && a != b
    ensures DigitsLess(a, b) || DigitsLess(b, a)
  {
    if a[0] == b[0] {
      assert a[1..] != b[1..] by {
        assert a == [a[0]] + a[1..] && b == [b[0]] + b[1..];
      }
      DigitsLessTotal(a[1..], b[1..]);
    }
  }

  lemma {:induction false} DigitsLessTransitive(a: string, b: string, c: string)
    requires |a| == |b| == |c| && DigitsLess(a, b) && DigitsLess(b, c)
    ensures DigitsLess(a, c)
  {
    if a[0] == b[0] && b[0] == c[0] {
      DigitsLessTransitive(a[1..], b[1..], c[1..]);
    }
  }

  lemma {:induction false} IndexLessTotal(a: string, b: string)
    requires a != b
    ensures IndexLess(a, b) || IndexLess(b, a)
  {
    if |a| == |b| {
      DigitsLessTotal(a, b);
    }
  }

  lemma {:induction false} IndexLessTransitive(a: string, b: string, c: string)
    requires IndexLess(a, b) && IndexLess(b, c)
    ensures IndexLess(a, c)
  {
    if |a| == |b| == |c| {
      DigitsLessTransitive(a, b, c);
    }
  }

  /** The accumulator object: its properties in enumeration order. */
  type Dict = seq<Member>

  /** Index keys precede the other keys and ascend numerically. */
  predicate JsOrdered(d: Dict) {
    forall i, j :: 0 <= i < j < |d| && IsIndexKey(d[j].key) ==> IsIndexKey(d[i].key) && IndexLess(d[i].key, d[j].key)
  }

  /** The position of the first property named `k`, or -1. */
  function KeyIndex(d: Dict, k: string): (i: int)
    ensures -1 <= i < |d|
    ensures 0 <= i ==> d[i].key == k
    ensures forall j :: 0 <= j < |d| && (i < 0 || j < i) ==> d[j].key != k
  {
    if d == [] then -1
    else if d[0].key == k then 0
    else
      var i := KeyIndex(d[1..], k);
      if i < 0 then -1 else i + 1
  }

  /** Where a new index key goes: after the index keys numerically below it. */
  function IndexSlot(d: Dict, k: string): (n: nat)
    ensures n <= |d|
    ensures forall j :: 0 <= j < n ==> IsIndexKey(d[j].key) && IndexLess(d[j].key, k)
    ensures n < |d| ==> !(IsIndexKey(d[n].key) && IndexLess(d[n].key, k))
  {
    if d == [] || !IsIndexKey(d[0].key) || !IndexLess(d[0].key, k) then 0
    else 1 + IndexSlot(d[1..], k)
  }

  /**
   * `res[k] = v`: an existing property keeps its place and takes the new
   * value; a new index key is placed among the index keys by value; any
   * other new key goes last.
   */
  function Put(d: Dict, k: string, v: Json): Dict {
    var i := KeyIndex(d, k);
    if 0 <= i then d[i := Member(k, v)]
    else
      var n := if IsIndexKey(k) then IndexSlot(d, k) else |d|;
      d[..n] + [Member(k, v)] + d[n..]
  }

  /**
   * After `res[k] = v` the property `k` reads `v` and every other property
   * reads as before; distinct keys stay distinct and the enumeration order
   * stays JavaScript's.
   */
  lemma {:induction false} PutLaws(d: Dict, k: string, v: Json)
    ensures Get(Put(d, k, v), k) == Some(v)
    ensures forall q :: q != k ==> Get(Put(d, k, v), q) == Get(d, q)
    ensures DistinctKeys(d) ==> DistinctKeys(Put(d, k, v))
    ensures DistinctKeys(d) && JsOrdered(d) ==> JsOrdered(Put(d, k, v))
  {
    var i := KeyIndex(d, k);
    if 0 <= i {
      GetReplace(d, i, v);
      ReplaceKeepsKeys(d, i, v);
    } else {
      var n := if IsIndexKey(k) then IndexSlot(d, k) else |d|;
      assert Put(d, k, v) == d[..n] + [Member(k, v)] + d[n..];
      InsertLaws(d, n, Member(k, v));
    }
  }

  /** Replacing a value keeps the keys, hence their distinctness and order. */
  lemma {:induction false} ReplaceKeepsKeys(d: Dict, i: nat, v: Json)
    requires i < |d|
    ensures DistinctKeys(d) ==> DistinctKeys(d[i := Member(d[i].key, v)])
    ensures JsOrdered(d) ==> JsOrdered(d[i := Member(d[i].key, v)])
  {
    var r := d[i := Member(d[i].key, v)];
    assert forall j :: 0 <= j < |d| ==> r[j].key == d[j].key;
  }

  /** Inserting a new key at its place: it reads its value, the others read as before, keys stay distinct and ordered. */
  lemma {:induction false} InsertLaws(d: Dict, n: nat, m: Member)
    requires n <= |d| && forall j :: 0 <= j < |d| ==> d[j].key != m.key
    requires IsIndexKey(m.key) ==> n == IndexSlot(d, m.key)
    requires !IsIndexKey(m.key) ==> n == |d|
    ensures Get(d[..n] + [m] + d[n..], m.key) == Some(m.value)
    ensures forall q :: q != m.key ==> Get(d[..n] + [m] + d[n..], q) == Get(d, q)
    ensures DistinctKeys(d) ==> DistinctKeys(d[..n] + [m] + d[n..])
    ensures DistinctKeys(d) && JsOrdered(d) ==> JsOrdered(d[..n] + [m] + d[n..])
  {
    GetInsert(d, n, m);
    if DistinctKeys(d) {
      InsertDistinct(d, n, m);
      if JsOrdered(d) {
        InsertOrdered(d, n, m);
      }
    }
  }

  /** `res[k] = v` brings in no member other than `k: v`. */
  lemma {:induction false} PutMembers(d: Dict, k: string, v: Json)
    ensures forall j :: 0 <= j < |Put(d, k, v)| ==> Put(d, k, v)[j] in d || Put(d, k, v)[j] == Member(k, v)
  {
    var r := Put(d, k, v);
    var i := KeyIndex(d, k);
    if i < 0 {
      var n := if IsIndexKey(k) then IndexSlot(d, k) else |d|;
      forall j | 0 <= j < |r| ensures r[j] in d || r[j] == Member(k, v) {
        if j < n {
          assert r[j] == d[j];
        } else if j > n {
          assert r[j] == d[j - 1];
        }
      }
    }
  }

  lemma {:induction false} GetReplace(d: Dict, i: nat, v: Json)
    requires i < |d| && forall j :: 0 <= j < i ==> d[j].key != d[i].key
    ensures Get(d[i := Member(d[i].key, v)], d[i].key) == Some(v)
    ensures forall q :: q != d[i].key ==> Get(d[i := Member(d[i].key, v)], q) == Get(d, q)
  {
    var r := d[i := Member(d[i].key, v)];
    if i > 0 {
      assert r[1..] == d[1..][i - 1 := Member(d[i].key, v)];
      GetReplace(d[1..], i - 1, v);
    }
  }

  lemma {:induction false} GetInsert(d: Dict, n: nat, m: Member)
    requires n <= |d| && forall j :: 0 <= j < |d| ==> d[j].key != m.key
    ensures Get(d[..n] + [m] + d[n..], m.key) == Some(m.value)
    ensures forall q :: q != m.key ==> Get(d[..n] + [m] + d[n..], q) == Get(d, q)
  {
    var r := d[..n] + [m] + d[n..];
    if n == 0 {
      assert r == [m] + d && r[1..] == d;
    } else {
      assert r[0] == d[0];
      assert r[1..] == d[1..][..n - 1] + [m] + d[1..][n - 1..];
      GetInsert(d[1..], n - 1, m);
    }
  }

  lemma {:induction false} InsertDistinct(d: Dict, n: nat, m: Member)
    requires n <= |d| && DistinctKeys(d) && forall j :: 0 <= j < |d| ==> d[j].key != m.key
    ensures DistinctKeys(d[..n] + [m] + d[n..])
  {
    var r := d[..n] + [m] + d[n..];
    forall i, j | 0 <= i < j < |r| ensures r[i].key != r[j].key {
      var a := if i < n then i else if i == n then -1 else i - 1;
      var b := if j < n then j else if j == n then -1 else j - 1;
      if a >= 0 && b >= 0 {
        assert r[i] == d[a] && r[j] == d[b] && a < b;
      }
    }
  }

  lemma {:induction false} InsertOrdered(d: Dict, n: nat, m: Member)
    requires n <= |d| && DistinctKeys(d) && JsOrdered(d) && forall j :: 0 <= j < |d| ==> d[j].key != m.key
    requires IsIndexKey(m.key) ==> n == IndexSlot(d, m.key)
    requires !IsIndexKey(m.key) ==> n == |d|
    ensures JsOrdered(d[..n] + [m] + d[n..])
  {
    var r := d[..n] + [m] + d[n..];
    InsertShifts(d, n, m);
    forall i, j | 0 <= i < j < |r| && IsIndexKey(r[j].key)
      ensures IsIndexKey(r[i].key) && IndexLess(r[i].key, r[j].key)
    {
      InsertedPairOrdered(d, n, m, r, i, j);
    }
  }

  /** Where the elements of `d` land once `m` is inserted at `n`. */
  lemma {:induction false} InsertShifts(d: Dict, n: nat, m: Member)
    requires n <= |d|
    ensures var r := d[..n] + [m] + d[n..];
      && |r| == |d| + 1 && r[n] == m
      && (forall k :: 0 <= k < n ==> r[k] == d[k])
      && (forall k :: n < k < |r| ==> r[k] == d[k - 1])
  {
  }

  /** One pair of positions of `InsertOrdered`, `r` being `d` with `m` inserted at `n`. */
  lemma {:induction false} InsertedPairOrdered(d: Dict, n: nat, m: Member, r: Dict, i: nat, j: nat)
    requires n <= |d| && JsOrdered(d) && forall j :: 0 <= j < |d| ==> d[j].key != m.key
    requires IsIndexKey(m.key) ==> n == IndexSlot(d, m.key)
    requires !IsIndexKey(m.key) ==> n == |d|
    requires |r| == |d| + 1 && r[n] == m
    requires forall k :: 0 <= k < n ==> r[k] == d[k]
    requires forall k :: n < k < |r| ==> r[k] == d[k - 1]
    requires i < j < |r| && IsIndexKey(r[j].key)
    ensures IsIndexKey(r[i].key) && IndexLess(r[i].key, r[j].key)
  {
    if i == n {
      assert r[j] == d[j - 1] && n < |d|;
      SlotBelowLater(d, m.key, j - 1);
    } else if j == n {
      assert r[i] == d[i];
    } else {
      var a := if i < n then i else i - 1;
      var b := if j < n then j else j - 1;
      assert r[i] == d[a] && r[j] == d[b];
      OrderedPair(d, a, b);
    }
  }

  lemma {:induction false} OrderedPair(d: Dict, a: nat, b: nat)
    requires JsOrdered(d) && a < b < |d| && IsIndexKey(d[b].key)
    ensures IsIndexKey(d[a].key) && IndexLess(d[a].key, d[b].key)
  {
  }

  /** A new index key at its slot is below every later index key. */
  lemma {:induction false} SlotBelowLater(d: Dict, k: string, b: nat)
    requires JsOrdered(d) && IsIndexKey(k) && forall j :: 0 <= j < |d| ==> d[j].key != k
    requires IndexSlot(d, k) <= b < |d| && IsIndexKey(d[b].key)
    ensures IndexLess(k, d[b].key)
  {
    var n := IndexSlot(d, k);
    assert IsIndexKey(d[n].key);
    IndexLessTotal(k, d[n].key);
    if n < b {
      IndexLessTransitive(k, d[n].key, d[b].key);
    }
  }

  // ---------------------------------------------------------------------
  // What `for (const key in ob)` visits

  /** The number of own enumerable properties: members of an object, elements of an array, characters of a string. */
  function Count(ob: Json): nat {
    match ob
    case Obj(ms) => |ms|
    case Arr(es) => |es|
    case Str(s) => |s|
    case _ => 0
  }

  /** The name of the `i`-th property: the member's key, or the index written in decimal. */
  function EntryKey(ob: Json, i: nat): (k: string)
    requires i < Count(ob)
    ensures !ob.Obj? ==> k == NatToText(i)
  {
    match ob
    case Obj(ms) => ms[i].key
    case _ => NatToText(i)
  }

  /** `ob[key]` for the `i`-th property. */
  function EntryValue(ob: Json, i: nat): (v: Json)
    requires i < Count(ob)
    ensures ob.Obj? ==> v == ob.members[i].value
    ensures ob.Arr? ==> v == ob.elems[i]
    ensures ob.Str? ==> v == Str([ob.s[i]])
  {
    match ob
    case Obj(ms) => ms[i].value
    case Arr(es) => es[i]
    case Str(s) => Str([s[i]])
  }

  /** `Object.values(v).every(x => typeof x !== 'object')`. */
  predicate IsLeaf(v: Json) {
    forall i :: 0 <= i < Count(v) ==> !IsObjectTyped(EntryValue(v, i))
  }

  /** `Object.entries(v).map(([k, x]) => `${k}: ${x}`).join(', ')`. */
  function EntriesText(v: Json): string {
    Join(seq(Count(v), i requires 0 <= i < Count(v) => EntryKey(v, i) + ": " + ToText(EntryValue(v, i))), ", ")
  }

  /** The key a property gets under `prefix`: dotted when the prefix is non-empty. */
  function NestedKey(prefix: string, key: string): string {
    if prefix != "" then prefix + "." + key else key
  }

  // ---------------------------------------------------------------------
  // The specification of flattenObject

  /** `flattenObject(ob, prefix, res)` from the `i`-th property on. */
  function FlattenFrom(ob: Json, i: nat, prefix: string, res: Dict): Dict
    requires i <= Count(ob)
    decreases ob, 2, Count(ob) - i, 1
  {
    if i == Count(ob) then res
    else FlattenFrom(ob, i + 1, prefix, FlattenEntry(ob, i, prefix, res))
  }

  /** The loop body of `flattenObject` for the `i`-th property. */
  function FlattenEntry(ob: Json, i: nat, prefix: string, res: Dict): Dict
    requires i < Count(ob)
    decreases ob, 2, Count(ob) - i, 0
  {
    var v := EntryValue(ob, i);
    var newKey := NestedKey(prefix, EntryKey(ob, i));
    if v.Obj? then
      if IsLeaf(v) then Put(res, newKey, Str(EntriesText(v)))
      else FlattenFrom(v, 0, newKey, res)
    else if v.Arr? then Put(res, newKey, Str(ArrayText(v)))
    else Put(res, newKey, v)
  }

  /** `flattenObject(ob)`: a fresh accumulator and no prefix. */
  function Flatten(ob: Json): Dict {
    FlattenFrom(ob, 0, "", [])
  }

  /** An array property's text: its elements' texts joined by "; ". */
  function ArrayText(v: Json): string
    requires v.Arr?
    decreases v, 1, 0, 0
  {
    Join(ElementTexts(v), "; ")
  }

  function ElementTexts(v: Json): (r: seq<string>)
    requires v.Arr?
    ensures |r| == |v.elems|
    decreases v, 0, 0, 0
  {
    seq(|v.elems|, j requires 0 <= j < |v.elems| => ElementText(v.elems[j]))
  }

  /**
   * One array element: an array or object as "k: v" text (flattened first
   * when it is not a leaf), `null` as "" (as `join` renders it), anything
   * else as `String` gives it.
   */
  function ElementText(e: Json): string
    decreases e, 3, 0, 0
  {
    if e.Arr? || e.Obj? then
      if IsLeaf(e) then EntriesText(e) else EntriesText(Obj(FlattenFrom(e, 0, "", [])))
    else if e.Null? then ""
    else ToText(e)
  }

  // ---------------------------------------------------------------------
  // The source's loops

  /** `flattenObject(ob, prefix, res)`: visits the properties in order, threading the accumulator. */
  method FlattenObject(ob: Json, prefix: string, res: Dict) returns (out: Dict)
    ensures out == FlattenFrom(ob, 0, prefix, res)
    decreases ob, 2
  {
    out := res;
    var i := 0;
    while i < Count(ob)
      invariant 0 <= i <= Count(ob)
      invariant FlattenFrom(ob, i, prefix, out) == FlattenFrom(ob, 0, prefix, res)
    {
      var value := EntryValue(ob, i);
      var newKey := NestedKey(prefix, EntryKey(ob, i));
      if value.Obj? {
        if IsLeaf(value) {
          out := Put(out, newKey, Str(EntriesText(value)));
        } else {
          out := FlattenObject(value, newKey, out);
        }
      } else if value.Arr? {
        var text := FormatArray(value);
        out := Put(out, newKey, Str(text));
      } else {
        out := Put(out, newKey, value);
      }
      i := i + 1;
    }
  }

  /** The array branch of `flattenObject`: `value.map(...).join('; ')`. */
  method FormatArray(v: Json) returns (text: string)
    requires v.Arr?
    ensures text == ArrayText(v)
    decreases v, 1
  {
    var parts: seq<string> := [];
    var j := 0;
    while j < |v.elems|
      invariant 0 <= j <= |v.elems|
      invariant parts == ElementTexts(v)[..j]
    {
      var e := v.elems[j];
      var t: string;
      if e.Arr? || e.Obj? {
        if IsLeaf(e) {
          t := EntriesText(e);
        } else {
          var nested := FlattenObject(e, "", []);
          t := EntriesText(Obj(nested));
        }
      } else if e.Null? {
        t := "";
      } else {
        t := ToText(e);
      }
      parts := parts + [t];
      j := j + 1;
    }
    assert parts == ElementTexts(v);
    text := Join(parts, "; ");
  }

  // ---------------------------------------------------------------------
  // Properties of flattening

  /** No value of the accumulator is an array or an object. */
  predicate Scalars(d: Dict) {
    forall j :: 0 <= j < |d| ==> !d[j].value.Arr? && !d[j].value.Obj?
  }

  /** A well-formed accumulator: distinct keys, JavaScript's order, scalar values. */
  predicate WellFormed(d: Dict) {
    DistinctKeys(d) && JsOrdered(d) && Scalars(d)
  }

  /**
   * Flattening keeps the accumulator well formed. In particular every value
   * it stores is a primitive or `null`, so the `JSON.stringify` branch of
   * `combineFields` is never taken.
   */
  lemma {:induction false} FlattenFromWellFormed(ob: Json, i: nat, prefix: string, res: Dict)
    requires i <= Count(ob) && WellFormed(res)
    ensures WellFormed(FlattenFrom(ob, i, prefix, res))
    decreases ob, 2, Count(ob) - i, 1
  {
    if i < Count(ob) {
      FlattenEntryWellFormed(ob, i, prefix, res);
      FlattenFromWellFormed(ob, i + 1, prefix, FlattenEntry(ob, i, prefix, res));
    }
  }

  lemma {:induction false} FlattenEntryWellFormed(ob: Json, i: nat, prefix: string, res: Dict)
    requires i < Count(ob) && WellFormed(res)
    ensures WellFormed(FlattenEntry(ob, i, prefix, res))
    decreases ob, 2, Count(ob) - i, 0
  {
    var v := EntryValue(ob, i);
    var newKey := NestedKey(prefix, EntryKey(ob, i));
    if v.Obj? && !IsLeaf(v) {
      FlattenFromWellFormed(v, 0, newKey, res);
    } else {
      var stored := if v.Obj? then Str(EntriesText(v)) else if v.Arr? then Str(ArrayText(v)) else v;
      assert FlattenEntry(ob, i, prefix, res) == Put(res, newKey, stored);
      PutWellFormed(res, newKey, stored);
    }
  }

  /** Storing a scalar keeps the accumulator well formed. */
  lemma {:induction false} PutWellFormed(d: Dict, k: string, v: Json)
    requires WellFormed(d) && !v.Arr? && !v.Obj?
    ensures WellFormed(Put(d, k, v))
  {
    PutLaws(d, k, v);
    PutMembers(d, k, v);
  }

  /** `flattenObject(ob)` is well formed for every input. */
  lemma {:induction false} FlattenWellFormed(ob: Json)
    ensures WellFormed(Flatten(ob))
  {
    FlattenFromWellFormed(ob, 0, "", []);
  }

  /** `q` is a key nested under `prefix`: the prefix is empty or `q` starts with it and a dot. */
  predicate Under(q: string, prefix: string) {
    prefix == "" || StartsWith(q, prefix + ".")
  }

  lemma {:induction false} UnderNested(q: string, prefix: string, key: string)
    requires Under(q, NestedKey(prefix, key))
    ensures Under(q, prefix)
  {
    if prefix != "" {
      var nk := prefix + "." + key;
      assert (nk + ".")[..|prefix| + 1] == prefix + ".";
      assert q[..|prefix| + 1] == q[..|nk| + 1][..|prefix| + 1];
    }
  }

  /**
   * Flattening never removes a key of the accumulator, and every key it
   * adds is the prefix followed by a dot and a path.
   */
  lemma {:induction false} FlattenFromKeys(ob: Json, i: nat, prefix: string, res: Dict)
    requires i <= Count(ob)
    ensures forall q :: Get(res, q).Some? ==> Get(FlattenFrom(ob, i, prefix, res), q).Some?
    ensures forall q :: Get(FlattenFrom(ob, i, prefix, res), q).Some? && Get(res, q).None? ==> Under(q, prefix)
    decreases ob, 2, Count(ob) - i, 1
  {
    if i < Count(ob) {
      FlattenEntryKeys(ob, i, prefix, res);
      FlattenFromKeys(ob, i + 1, prefix, FlattenEntry(ob, i, prefix, res));
    }
  }

  lemma {:induction false} FlattenEntryKeys(ob: Json, i: nat, prefix: string, res: Dict)
    requires i < Count(ob)
    ensures forall q :: Get(res, q).Some? ==> Get(FlattenEntry(ob, i, prefix, res), q).Some?
    ensures forall q :: Get(FlattenEntry(ob, i, prefix, res), q).Some? && Get(res, q).None? ==> Under(q, prefix)
    decreases ob, 2, Count(ob) - i, 0
  {
    var v := EntryValue(ob, i);
    var key := EntryKey(ob, i);
    var newKey := NestedKey(prefix, key);
    if v.Obj? && !IsLeaf(v) {
      assert FlattenEntry(ob, i, prefix, res) == FlattenFrom(v, 0, newKey, res);
      FlattenFromKeys(v, 0, newKey, res);
      forall q | Get(FlattenFrom(v, 0, newKey, res), q).Some? && Get(res, q).None?
        ensures Under(q, prefix)
      {
        UnderNested(q, prefix, key);
      }
    } else {
      var stored := if v.Obj? then Str(EntriesText(v)) else if v.Arr? then Str(ArrayText(v)) else v;
      assert FlattenEntry(ob, i, prefix, res) == Put(res, newKey, stored);
      PutKeys(res, prefix, key, stored);
    }
  }

  /** Storing one value under `prefix.key` keeps every key and adds one under the prefix. */
  lemma {:induction false} PutKeys(res: Dict, prefix: string, key: string, v: Json)
    ensures forall q :: Get(res, q).Some? ==> Get(Put(res, NestedKey(prefix, key), v), q).Some?
    ensures forall q :: Get(Put(res, NestedKey(prefix, key), v), q).Some? && Get(res, q).None? ==> Under(q, prefix)
  {
    var newKey := NestedKey(prefix, key);
    PutLaws(res, newKey, v);
    if prefix != "" {
      assert StartsWith(newKey, prefix + ".") by {
        assert newKey[..|prefix| + 1] == prefix + ".";
      }
    }
  }

  /** What `flattenObject` stores for a value it does not descend into: a leaf object or an array as text, anything else as it is. */
  function FlatValue(v: Json): Json {
    if v.Obj? then Str(EntriesText(v))
    else if v.Arr? then Str(ArrayText(v))
    else v
  }

  /**
   * The loop body on a property it does not descend into (anything but an
   * object with an object-typed value): the property's key under the prefix
   * reads its flat value and every other key reads as before.
   */
  lemma {:induction false} FlattenEntryShallow(ob: Json, i: nat, prefix: string, res: Dict)
    requires i < Count(ob)
    requires EntryValue(ob, i).Obj? ==> IsLeaf(EntryValue(ob, i))
    ensures Get(FlattenEntry(ob, i, prefix, res), NestedKey(prefix, EntryKey(ob, i))) == Some(FlatValue(EntryValue(ob, i)))
    ensures forall q :: q != NestedKey(prefix, EntryKey(ob, i)) ==> Get(FlattenEntry(ob, i, prefix, res), q) == Get(res, q)
  {
    var newKey := NestedKey(prefix, EntryKey(ob, i));
    assert FlattenEntry(ob, i, prefix, res) == Put(res, newKey, FlatValue(EntryValue(ob, i)));
    PutLaws(res, newKey, FlatValue(EntryValue(ob, i)));
  }

  /** No value of the object is an object with an object-typed value. */
  predicate Shallow(ms: seq<Member>) {
    forall j :: 0 <= j < |ms| && ms[j].value.Obj? ==> IsLeaf(ms[j].value)
  }

  /**
   * An object with distinct keys that holds no nested non-leaf object
   * flattens to its own keys, each holding its flat value: leaf objects
   * become "k: v" text, arrays their "; "-joined element texts.
   */
  lemma {:induction false} ShallowFlatten(ms: seq<Member>)
    requires DistinctKeys(ms) && Shallow(ms)
    ensures forall j :: 0 <= j < |ms| ==> Get(Flatten(Obj(ms)), ms[j].key) == Some(FlatValue(ms[j].value))
    ensures forall q :: Get(Flatten(Obj(ms)), q).Some? <==> Get(ms, q).Some?
  {
    assert ms[..0] == [];
    ShallowFrom(ms, 0, []);
    assert ms[..|ms|] == ms;
  }

  lemma {:induction false} ShallowFrom(ms: seq<Member>, i: nat, res: Dict)
    requires i <= |ms| && DistinctKeys(ms) && Shallow(ms)
    requires forall j :: 0 <= j < i ==> Get(res, ms[j].key) == Some(FlatValue(ms[j].value))
    requires forall q :: Get(res, q).Some? <==> Get(ms[..i], q).Some?
    ensures forall j :: 0 <= j < |ms| ==> Get(FlattenFrom(Obj(ms), i, "", res), ms[j].key) == Some(FlatValue(ms[j].value))
    ensures forall q :: Get(FlattenFrom(Obj(ms), i, "", res), q).Some? <==> Get(ms[..|ms|], q).Some?
    decreases |ms| - i
  {
    if i < |ms| {
      var next := FlattenEntry(Obj(ms), i, "", res);
      FlattenEntryShallow(Obj(ms), i, "", res);
      assert NestedKey("", EntryKey(Obj(ms), i)) == ms[i].key;
      forall j | 0 <= j < i ensures Get(next, ms[j].key) == Some(FlatValue(ms[j].value)) {
        assert ms[j].key != ms[i].key;
      }
      KeysGrowByOne(ms, i, res, next);
      ShallowFrom(ms, i + 1, next);
    }
  }

  /** When one more property is stored, the accumulator's keys are those of one more member. */
  lemma {:induction false} KeysGrowByOne(ms: seq<Member>, i: nat, res: Dict, next: Dict)
    requires i < |ms|
    requires forall q :: Get(res, q).Some? <==> Get(ms[..i], q).Some?
    requires Get(next, ms[i].key).Some?
    requires forall q :: q != ms[i].key ==> Get(next, q) == Get(res, q)
    ensures forall q :: Get(next, q).Some? <==> Get(ms[..i + 1], q).Some?
  {
    forall q ensures Get(next, q).Some? <==> Get(ms[..i + 1], q).Some? {
      assert ms[..i + 1][i] == ms[i];
      if q != ms[i].key {
        assert forall j :: 0 <= j < i ==> ms[..i + 1][j] == ms[..i][j];
      }
    }
  }

  /** A member list with primitive values only. */
  predicate Flat(ms: seq<Member>) {
    forall j :: 0 <= j < |ms| ==> !ms[j].value.Arr? && !ms[j].value.Obj?
  }

  /** A new index key above every index key of an ordered list of index keys goes last. */
  lemma {:induction false} SlotAtEnd(d: Dict, k: string)
    requires forall j :: 0 <= j < |d| ==> IsIndexKey(d[j].key) && IndexLess(d[j].key, k)
    ensures IndexSlot(d, k) == |d|
  {
    if d != [] {
      SlotAtEnd(d[1..], k);
    }
  }

  /**
   * An object with primitive values only flattens to itself: same keys,
   * same values, same order.
   */
  lemma {:induction false} FlatObjectUnchanged(ms: seq<Member>)
    requires DistinctKeys(ms) && JsOrdered(ms) && Flat(ms)
    ensures Flatten(Obj(ms)) == ms
  {
    FlatPrefix(ms, 0);
    assert ms[..0] == [];
  }

  lemma {:induction false} FlatPrefix(ms: seq<Member>, i: nat)
    requires DistinctKeys(ms) && JsOrdered(ms) && Flat(ms) && i <= |ms|
    ensures FlattenFrom(Obj(ms), i, "", ms[..i]) == ms
    decreases |ms| - i
  {
    if i == |ms| {
      assert ms[..i] == ms;
    } else {
      var m := ms[i];
      var d := ms[..i];
      assert KeyIndex(d, m.key) == -1;
      if IsIndexKey(m.key) {
        SlotAtEnd(d, m.key);
      }
      assert d[..|d|] + [m] + d[|d|..] == ms[..i + 1];
      assert FlattenEntry(Obj(ms), i, "", d) == ms[..i + 1];
      FlatPrefix(ms, i + 1);
    }
  }

  /** The object `{"b": {"c": 1}, "d": 2}`. */
  function NestedInner(): Json {
    Obj([Member("b", Obj([Member("c", Num("1"))])), Member("d", Num("2"))])
  }

  /**
   * A nested object `{"a": {"b": {"c": 1}, "d": 2}}`: the non-leaf level is
   * descended into, the leaf level becomes text.
   */
  lemma {:induction false} NestedExample()
    ensures Flatten(Obj([Member("a", NestedInner())])) == [Member("a.b", Str("c: 1")), Member("a.d", Num("2"))]
  {
    var r := [Member("a.b", Str("c: 1")), Member("a.d", Num("2"))];
    NestedInnerFlat();
    NestedOuter();
    FlattenStep(Obj([Member("a", NestedInner())]), 0, "", [], r);
  }

  /** The inner level under the prefix "a": "b" becomes text, "d" is kept. */
  lemma {:induction false} NestedInnerFlat()
    ensures FlattenFrom(NestedInner(), 0, "a", []) == [Member("a.b", Str("c: 1")), Member("a.d", Num("2"))]
  {
    var inner := NestedInner();
    var r1 := [Member("a.b", Str("c: 1"))];
    var r2 := [Member("a.b", Str("c: 1")), Member("a.d", Num("2"))];
    NestedFirst();
    NestedSecond();
    FlattenStep(inner, 0, "a", [], r1);
    FlattenStep(inner, 1, "a", r1, r2);
  }

  /** The outer level: "a" holds a non-leaf object, which is flattened under the prefix "a". */
  lemma {:induction false} NestedOuter()
    ensures FlattenEntry(Obj([Member("a", NestedInner())]), 0, "", []) == FlattenFrom(NestedInner(), 0, "a", [])
  {
    var inner := NestedInner();
    assert !IsLeaf(inner) by {
      assert IsObjectTyped(EntryValue(inner, 0));
    }
  }

  lemma {:induction false} NestedFirst()
    ensures FlattenEntry(NestedInner(), 0, "a", []) == [Member("a.b", Str("c: 1"))]
  {
    var leaf := Obj([Member("c", Num("1"))]);
    assert IsLeaf(leaf);
    assert EntriesText(leaf) == "c: 1";
    assert NestedKey("a", "b") == "a.b";
    assert !IsIndexKey("a.b");
  }

  lemma {:induction false} NestedSecond()
    ensures FlattenEntry(NestedInner(), 1, "a", [Member("a.b", Str("c: 1"))])
      == [Member("a.b", Str("c: 1")), Member("a.d", Num("2"))]
  {
    assert NestedKey("a", "d") == "a.d";
    assert !IsIndexKey("a.d");
    assert KeyIndex([Member("a.b", Str("c: 1"))], "a.d") == -1;
  }

  /** An array property: element texts joined by "; ", `null` as "". */
  lemma {:induction false} ArrayExample()
    ensures Flatten(Obj([Member("tags", Arr([Str("x"), Null, Num("3")]))])) == [Member("tags", Str("x; ; 3"))]
  {
    var arr := Arr([Str("x"), Null, Num("3")]);
    assert ElementTexts(arr) == ["x", "", "3"];
    assert ArrayText(arr) == "x; ; 3";
    assert !IsIndexKey("tags");
  }

  /** The array `[1, {"a": {"b": 2}}, 3]`. */
  function MixedArray(): Json {
    Arr([Num("1"), Obj([Member("a", Obj([Member("b", Num("2"))]))]), Num("3")])
  }

  /**
   * JavaScript's property order: flattening `[1, {"a": {"b": 2}}, 3]`
   * stores "0", then "1.a", then "2", but the index key "2" is enumerated
   * before "1.a".
   */
  lemma {:induction false} IndexKeysFirstExample()
    ensures Keys(Flatten(MixedArray())) == ["0", "2", "1.a"]
  {
    MixedFlat();
    KeysOfThree(Member("0", Num("1")), Member("2", Num("3")), Member("1.a", Str("b: 2")));
  }

  /** Helper: the keys of a three-member list, one by one. */
  lemma {:induction false} KeysOfThree(a: Member, b: Member, c: Member)
    ensures Keys([a, b, c]) == [a.key, b.key, c.key]
  {
    assert [a, b, c][1..] == [b, c] && [b, c][1..] == [c];
  }

  lemma {:induction false} MixedFlat()
    ensures Flatten(MixedArray()) == [Member("0", Num("1")), Member("2", Num("3")), Member("1.a", Str("b: 2"))]
  {
    var r1 := [Member("0", Num("1")), Member("1.a", Str("b: 2"))];
    var r2 := [Member("0", Num("1")), Member("2", Num("3")), Member("1.a", Str("b: 2"))];
    MixedFirstTwo();
    MixedLast();
    FlattenStep(MixedArray(), 2, "", r1, r2);
    assert FlattenFrom(MixedArray(), 3, "", r2) == r2;
  }

  lemma {:induction false} MixedFirstTwo()
    ensures Flatten(MixedArray()) == FlattenFrom(MixedArray(), 2, "", [Member("0", Num("1")), Member("1.a", Str("b: 2"))])
  {
    var ob := MixedArray();
    var r0 := [Member("0", Num("1"))];
    var r1 := [Member("0", Num("1")), Member("1.a", Str("b: 2"))];
    MixedFirst();
    MixedMiddle();
    FlattenStep(ob, 0, "", [], r0);
    FlattenStep(ob, 1, "", r0, r1);
  }

  /** Helper, one property at a time: the loop continues from the accumulator the `i`-th property leaves. */
  lemma {:induction false} FlattenStep(ob: Json, i: nat, prefix: string, res: Dict, next: Dict)
    requires i < Count(ob) && FlattenEntry(ob, i, prefix, res) == next
    ensures FlattenFrom(ob, i, prefix, res) == FlattenFrom(ob, i + 1, prefix, next)
  {
  }

  lemma {:induction false} MixedFirst()
    ensures FlattenEntry(MixedArray(), 0, "", []) == [Member("0", Num("1"))]
  {
    IndexKeyFacts();
    assert NatToText(0) == "0";
  }

  lemma {:induction false} MixedMiddle()
    ensures FlattenEntry(MixedArray(), 1, "", [Member("0", Num("1"))])
      == [Member("0", Num("1")), Member("1.a", Str("b: 2"))]
  {
    assert NatToText(1) == "1";
    MidStep([Member("0", Num("1"))]);
  }

  lemma {:induction false} MixedLast()
    ensures FlattenEntry(MixedArray(), 2, "", [Member("0", Num("1")), Member("1.a", Str("b: 2"))])
      == [Member("0", Num("1")), Member("2", Num("3")), Member("1.a", Str("b: 2"))]
  {
    var r1 := [Member("0", Num("1")), Member("1.a", Str("b: 2"))];
    IndexKeyFacts();
    assert NatToText(2) == "2";
    assert IndexSlot(r1, "2") == 1;
  }

  lemma {:induction false} IndexKeyFacts()
    ensures IsIndexKey("0") && IsIndexKey("2") && !IsIndexKey("1.a") && IndexLess("0", "2")
  {
    assert "1.a"[1] == '.';
  }

  /** The middle element of IndexKeysFirstExample adds "1.a" after what is there. */
  lemma {:induction false} MidStep(r0: Dict)
    requires r0 == [Member("0", Num("1"))]
    ensures FlattenFrom(Obj([Member("a", Obj([Member("b", Num("2"))]))]), 0, "1", r0)
      == [Member("0", Num("1")), Member("1.a", Str("b: 2"))]
  {
    var leaf := Obj([Member("b", Num("2"))]);
    var mid := Obj([Member("a", leaf)]);
    IndexKeyFacts();
    assert !IsLeaf(mid) by {
      assert IsObjectTyped(EntryValue(mid, 0));
    }
    assert IsLeaf(leaf);
    assert EntriesText(leaf) == "b: 2";
    assert NestedKey("1", "a") == "1.a";
    assert KeyIndex(r0, "1.a") == -1;
    var r1 := Put(r0, "1.a", Str("b: 2"));
    assert r1 == r0 + [Member("1.a", Str("b: 2"))];
    assert FlattenEntry(mid, 0, "1", r0) == r1;
    assert FlattenFrom(mid, 1, "1", r1) == r1;
  }
}
