/**
 * The field-gathering half of the CSV export: the publication year of a
 * date, the items of the assistant's JSON answer, the custom column names,
 * the standard fields of each library item, and the combined record per
 * item. `JSON.parse` is a parameter; library items are records holding what
 * the item's getters return.
 */
module CsvExport {
  import opened Wrappers
  import opened JsString
  import opened JsonValue
  import opened CsvFlatten

  // ---------------------------------------------------------------------
  // extractYear

  predicate IsAsciiDigit(c: char) {
    '0' <= c <= '9'
  }

  /** A regular-expression word character (`\w`): ASCII letters, digits and `_`. */
  predicate IsWordChar(c: char) {
    ('a' <= c <= 'z') || ('A' <= c <= 'Z') || IsAsciiDigit(c) || c == '_'
  }

  /** `/\b\d{4}\b/` matches at `p`: four digits with no word character on either side. */
  predicate YearAt(s: string, p: int) {
    && 0 <= p && p + 4 <= |s|
    && IsAsciiDigit(s[p]) && IsAsciiDigit(s[p + 1]) && IsAsciiDigit(s[p + 2]) && IsAsciiDigit(s[p + 3])
    && (p == 0 || !IsWordChar(s[p - 1]))
    && (p + 4 == |s| || !IsWordChar(s[p + 4]))
  }

  /** The leftmost match at or after `p`, or -1. */
  function FirstYearFrom(s: string, p: nat): (r: int)
    ensures r == -1 || (p <= r && YearAt(s, r))
    ensures forall q :: p <= q && (r == -1 || q < r) ==> !YearAt(s, q)
    decreases |s| - p
  {
    if |s| < p + 4 then -1
    else if YearAt(s, p) then p
    else FirstYearFrom(s, p + 1)
  }

  /** `extractYear(date)`: the first stand-alone four-digit group, or "N/A". */
  function ExtractYear(date: string): (r: string)
    ensures r == "N/A" <==> forall p :: 0 <= p <= |date| ==> !YearAt(date, p)
    ensures r != "N/A" ==> exists p ::
      && YearAt(date, p) && r == date[p..p + 4]
      && forall q :: 0 <= q < p ==> !YearAt(date, q)
  {
    if date == "" then "N/A"
    else
      var p := FirstYearFrom(date, 0);
      if p < 0 then "N/A" else date[p..p + 4]
  }

  /** The year at the start of an ISO date. */
  lemma {:induction false} ExtractYearOfIsoDate()
    ensures ExtractYear("2021-05-03") == "2021"
  {
    assert YearAt("2021-05-03", 0);
  }

  /** A year standing as a word after other text. */
  lemma {:induction false} ExtractYearInWords()
    ensures ExtractYear("Spring 1999") == "1999"
  {
    assert YearAt("Spring 1999", 7);
  }

  /** Eight digits in a row hold no four-digit word, so no year is found. */
  lemma {:induction false} ExtractYearNeedsBoundary()
    ensures ExtractYear("20210503") == "N/A"
  {
    NoYearInDigitRun();
  }


  /** Eight digits in a row hold no four-digit word. */
  lemma {:induction false} NoYearInDigitRun()
    ensures forall p :: 0 <= p <= 8 ==> !YearAt("20210503", p)
  {
    forall p | 0 <= p <= 8 ensures !YearAt("20210503", p) {
      if p + 4 <= 8 {
        if p > 0 {
          assert IsWordChar("20210503"[p - 1]);
        } else {
          assert IsWordChar("20210503"[4]);
        }
      }
    }
  }


  // ---------------------------------------------------------------------
  // parseJSONData

  /**
   * `parseJSONData()`: nothing without an answer; otherwise its `articles`
   * array, or the answer itself when that is an array; nothing in every
   * other case, including a parse error (`None` from `parse`) and `null`
   * (whose property access throws and is caught).
   */
  function ParseJsonData(answer: Option<string>, parse: string -> Option<Json>): (r: seq<Json>)
    ensures answer.None? || answer == Some("") ==> r == []
    ensures forall es :: answer.Some? && answer.value != "" && parse(answer.value) == Some(Arr(es)) ==> r == es
    ensures forall ms, es ::
      (answer.Some? && answer.value != "" && parse(answer.value) == Some(Obj(ms)) && Get(ms, "articles") == Some(Arr(es)))
      ==> r == es
    ensures answer.Some? && answer.value != "" &&
      (|| parse(answer.value).None?
       || (!parse(answer.value).value.Arr? && !parse(answer.value).value.Obj?)
       || (parse(answer.value).value.Obj? && !(Get(parse(answer.value).value.members, "articles").Some? &&
                                                Get(parse(answer.value).value.members, "articles").value.Arr?)))
      ==> r == []
    ensures r != [] ==> answer.Some? && answer.value != "" && parse(answer.value).Some?
    ensures r != [] ==>
      || parse(answer.value) == Some(Arr(r))
      || (parse(answer.value).value.Obj? && Get(parse(answer.value).value.members, "articles") == Some(Arr(r)))
  {
    if answer.None? || answer.value == "" then []
    else
      match parse(answer.value)
      case Some(Obj(ms)) =>
        (match Get(ms, "articles")
         case Some(Arr(es)) => es
         case _ => [])
      case Some(Arr(es)) => es
      case _ => []
  }

  // ---------------------------------------------------------------------
  // getUniqueFieldNames

  function AsciiLower(s: string): (r: string)
    ensures |r| == |s|
  {
    seq(|s|, i requires 0 <= i < |s| => if 'A' <= s[i] <= 'Z' then (s[i] as int + 32) as char else s[i])
  }

  /**
   * `['title', 'author', 'year', 'doi'].includes(key.toLowerCase())`. Only
   * ASCII letters lower-case to the letters of these words, so lowering
   * ASCII alone decides the comparison.
   */
  predicate IsStandardName(key: string) {
    AsciiLower(key) in ["title", "author", "year", "doi"]
  }

  /** The set after adding each non-standard key in turn: new names go last, known ones are skipped. */
  function AddKeys(acc: seq<string>, keys: seq<string>): seq<string>
    decreases |keys|
  {
    if keys == [] then acc
    else
      var prev := AddKeys(acc, keys[..|keys| - 1]);
      var k := keys[|keys| - 1];
      if !IsStandardName(k) && k !in prev then prev + [k] else prev
  }

  /** `getUniqueFieldNames(items)`: the non-standard flattened keys of all items, first-seen order. */
  function UniqueFieldNamesOf(items: seq<Json>): seq<string>
    decreases |items|
  {
    if items == [] then []
    else AddKeys(UniqueFieldNamesOf(items[..|items| - 1]), Keys(Flatten(items[|items| - 1])))
  }

  predicate NoDuplicates(names: seq<string>) {
    forall i, j :: 0 <= i < j < |names| ==> names[i] != names[j]
  }

  lemma {:induction false} AddKeysLaws(acc: seq<string>, keys: seq<string>)
    ensures forall k :: k in AddKeys(acc, keys) <==> k in acc || (k in keys && !IsStandardName(k))
    ensures NoDuplicates(acc) ==> NoDuplicates(AddKeys(acc, keys))
    ensures |acc| <= |AddKeys(acc, keys)| && AddKeys(acc, keys)[..|acc|] == acc
    decreases |keys|
  {
    if keys != [] {
      var init := keys[..|keys| - 1];
      AddKeysLaws(acc, init);
      assert keys == init + [keys[|keys| - 1]];
    }
  }

  /**
   * The custom column names: each non-standard key of some flattened item,
   * each exactly once, and nothing else.
   */
  lemma {:induction false} UniqueFieldNamesLaws(items: seq<Json>)
    ensures forall k :: k in UniqueFieldNamesOf(items) <==>
      !IsStandardName(k) && exists i :: 0 <= i < |items| && k in Keys(Flatten(items[i]))
    ensures NoDuplicates(UniqueFieldNamesOf(items))
    decreases |items|
  {
    if items != [] {
      var init := items[..|items| - 1];
      var last := items[|items| - 1];
      UniqueFieldNamesLaws(init);
      AddKeysLaws(UniqueFieldNamesOf(init), Keys(Flatten(last)));
      forall k | !IsStandardName(k) && (exists i :: 0 <= i < |items| && k in Keys(Flatten(items[i])))
        ensures k in UniqueFieldNamesOf(items)
      {
        var i :| 0 <= i < |items| && k in Keys(Flatten(items[i]));
        if i < |items| - 1 {
          assert items[i] == init[i];
        }
      }
      forall k | k in UniqueFieldNamesOf(items)
        ensures exists i :: 0 <= i < |items| && k in Keys(Flatten(items[i]))
      {
        if k in UniqueFieldNamesOf(init) {
          var i :| 0 <= i < |init| && k in Keys(Flatten(init[i]));
          assert items[i] == init[i];
        } else {
          assert k in Keys(Flatten(items[|items| - 1]));
        }
      }
    }
  }

  /** Adding the keys of one more item keeps the names found so far, in their order. */
  lemma {:induction false} UniqueFieldNamesGrow(items: seq<Json>, more: Json)
    ensures var before := UniqueFieldNamesOf(items);
      var after := UniqueFieldNamesOf(items + [more]);
      |before| <= |after| && after[..|before|] == before
  {
    assert (items + [more])[..|items|] == items;
    AddKeysLaws(UniqueFieldNamesOf(items), Keys(Flatten(more)));
  }

  /** `getUniqueFieldNames(jsonItems)`: flattens each item and adds its non-standard keys to an insertion-ordered set. */
  method GetUniqueFieldNames(items: seq<Json>) returns (names: seq<string>)
    ensures names == UniqueFieldNamesOf(items)
  {
    names := [];
    var i := 0;
    while i < |items|
      invariant 0 <= i <= |items|
      invariant names == UniqueFieldNamesOf(items[..i])
    {
      var flat := FlattenObject(items[i], "", []);
      var keys := Keys(flat);
      ghost var before := names;
      var j := 0;
      while j < |keys|
        invariant 0 <= j <= |keys|
        invariant names == AddKeys(before, keys[..j])
      {
        if !IsStandardName(keys[j]) && keys[j] !in names {
          names := names + [keys[j]];
        }
        assert keys[..j + 1][..j] == keys[..j];
        j := j + 1;
      }
      assert keys[..j] == keys;
      assert items[..i + 1][..i] == items[..i];
      i := i + 1;
    }
    assert items[..i] == items;
  }

  // ---------------------------------------------------------------------
  // getStandardFieldsForItems and combineFields

  /**
   * What the export reads from a library item: its key, the `title`, `date`,
   * `publicationTitle` and `DOI` fields, and the author names
   * `extractAuthors` builds from its creators.
   */
  datatype LibraryItem = LibraryItem(key: string, title: string, date: string, publicationTitle: string, doi: string, authors: seq<string>)

  /** A value of a combined record: a string, a number's text, a boolean, or the author name list. */
  datatype Cell = Text(s: string) | Number(t: string) | Flag(b: bool) | Names(names: seq<string>)

  /** A combined record, keyed by column name. */
  type Record = map<string, Cell>

  /** The six standard fields of an item, "N/A" standing in for an empty publication title or DOI. */
  function StandardFieldsOf(z: LibraryItem): (r: Record)
    ensures r.Keys == {"Key", "Title", "Authors", "Publication Year", "Publication Title", "DOI"}
    ensures r["Authors"] == Names(z.authors) && r["Publication Year"] == Text(ExtractYear(z.date))
    ensures r["Publication Title"] == Text(if z.publicationTitle == "" then "N/A" else z.publicationTitle)
    ensures r["DOI"] == Text(if z.doi == "" then "N/A" else z.doi)
  {
    map[
      "Key" := Text(z.key),
      "Title" := Text(z.title),
      "Authors" := Names(z.authors),
      "Publication Year" := Text(ExtractYear(z.date)),
      "Publication Title" := Text(if z.publicationTitle == "" then "N/A" else z.publicationTitle),
      "DOI" := Text(if z.doi == "" then "N/A" else z.doi)
    ]
  }

  /** An item's standard fields and its JSON item (`null` standing for `undefined`, which flattens alike). */
  datatype ItemData = ItemData(standard: Record, custom: Json)

  /** `getStandardFieldsForItems(zoteroItems, jsonItems)`: pairs the i-th library item with the i-th JSON item. */
  method GetStandardFieldsForItems(zs: seq<LibraryItem>, js: seq<Json>) returns (data: seq<ItemData>)
    ensures |data| == |zs|
    ensures forall i :: 0 <= i < |zs| ==>
      data[i] == ItemData(StandardFieldsOf(zs[i]), if i < |js| then js[i] else Null)
  {
    data := [];
    var i := 0;
    while i < |zs|
      invariant 0 <= i <= |zs| && |data| == i
      invariant forall k :: 0 <= k < i ==>
        data[k] == ItemData(StandardFieldsOf(zs[k]), if k < |js| then js[k] else Null)
    {
      var custom := if i < |js| then js[i] else Null;
      data := data + [ItemData(StandardFieldsOf(zs[i]), custom)];
      i := i + 1;
    }
  }

  /**
   * `value || 'N/A'` for a flattened custom value, absent values included.
   * Flattened values are never arrays or objects (FlattenWellFormed), so
   * the `JSON.stringify` branch before it never applies.
   */
  function CellFor(v: Option<Json>): (c: Cell)
    requires v.Some? ==> !v.value.Arr? && !v.value.Obj?
    ensures c == Text("N/A") || (v.Some? && Truthy(v.value))
    ensures v.Some? && Truthy(v.value) && v.value.Str? ==> c == Text(v.value.s)
    ensures v.None? || !Truthy(v.value) ==> c == Text("N/A")
  {
    match v
    case Some(Str(s)) => if s != "" then Text(s) else Text("N/A")
    case Some(Num(t)) => if Truthy(Num(t)) then Number(t) else Text("N/A")
    case Some(Bool(b)) => if b then Flag(true) else Text("N/A")
    case _ => Text("N/A")
  }

  /** Every value `Get` finds in a dict of scalars is a scalar. */
  lemma {:induction false} GetScalar(d: Dict, k: string)
    requires Scalars(d)
    ensures Get(d, k).Some? ==> !Get(d, k).value.Arr? && !Get(d, k).value.Obj?
  {
  }

  /**
   * The combined record: the standard fields with every custom name set to
   * its flattened value, or "N/A"; a custom name equal to a standard
   * field's name replaces that field.
   */
  function CombinedOf(std: Record, flat: Dict, names: seq<string>): Record
    requires Scalars(flat)
    decreases |names|
  {
    if names == [] then std
    else
      var n := names[|names| - 1];
      GetScalar(flat, n);
      CombinedOf(std, flat, names[..|names| - 1])[n := CellFor(Get(flat, n))]
  }

  /**
   * The combined record holds the standard fields and the custom names;
   * each custom name maps to its flattened value or "N/A", and every other
   * standard field is unchanged.
   */
  lemma {:induction false} CombinedOfLaws(std: Record, flat: Dict, names: seq<string>)
    requires Scalars(flat)
    ensures CombinedOf(std, flat, names).Keys == std.Keys + (set n | n in names)
    ensures forall n :: Get(flat, n).Some? ==> !Get(flat, n).value.Arr? && !Get(flat, n).value.Obj?
    ensures forall n :: n in names ==> CombinedOf(std, flat, names)[n] == CellFor(Get(flat, n))
    ensures forall k :: k in std && k !in names ==> CombinedOf(std, flat, names)[k] == std[k]
    decreases |names|
  {
    GetScalars(flat);
    if names != [] {
      var init := names[..|names| - 1];
      CombinedOfLaws(std, flat, init);
      assert names == init + [names[|names| - 1]];
    }
  }

  /** Every value found in a list of scalars is a scalar. */
  lemma {:induction false} GetScalars(flat: Dict)
    requires Scalars(flat)
    ensures forall n :: Get(flat, n).Some? ==> !Get(flat, n).value.Arr? && !Get(flat, n).value.Obj?
  {
    forall n | Get(flat, n).Some? ensures !Get(flat, n).value.Arr? && !Get(flat, n).value.Obj? {
      GetScalar(flat, n);
    }
  }

  /** The `customFieldNames.forEach` of `combineFields` for one item: each name set to its flattened value or "N/A". */
  method CombineRecord(std: Record, flat: Dict, names: seq<string>) returns (rec: Record)
    requires Scalars(flat)
    ensures rec == CombinedOf(std, flat, names)
  {
    rec := std;
    var j := 0;
    while j < |names|
      invariant 0 <= j <= |names|
      invariant rec == CombinedOf(std, flat, names[..j])
    {
      var value := Get(flat, names[j]);
      GetScalar(flat, names[j]);
      rec := rec[names[j] := CellFor(value)];
      assert names[..j + 1][..j] == names[..j];
      j := j + 1;
    }
    assert names[..j] == names;
  }

  /** `combineFields(itemsData, customFieldNames)`: one combined record per item. */
  method CombineFields(data: seq<ItemData>, names: seq<string>) returns (combined: seq<Record>)
    ensures |combined| == |data|
    ensures forall i :: 0 <= i < |data| ==>
      Scalars(Flatten(data[i].custom)) && combined[i] == CombinedOf(data[i].standard, Flatten(data[i].custom), names)
  {
    combined := [];
    var i := 0;
    while i < |data|
      invariant 0 <= i <= |data| && |combined| == i
      invariant forall k :: 0 <= k < i ==>
        Scalars(Flatten(data[k].custom)) && combined[k] == CombinedOf(data[k].standard, Flatten(data[k].custom), names)
    {
      var flat := FlattenObject(data[i].custom, "", []);
      FlattenWellFormed(data[i].custom);
      var rec := CombineRecord(data[i].standard, flat, names);
      combined := combined + [rec];
      i := i + 1;
    }
  }
}
