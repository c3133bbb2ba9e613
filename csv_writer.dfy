/**
 * The row-writing half of the CSV export: the header line, one row of
 * quoted fields per combined record, and the export pipeline that chains
 * parsing, naming, combining and writing. A `TypeError` thrown while a row
 * is built ends the export; it is modelled as `None`.
 */
module CsvWriter {
  import opened Wrappers
  import opened JsString
  import opened JsonValue
  import opened CsvFlatten
  import opened CsvExport

  const FixedColumns: seq<string> := ["Key", "Title", "Publication Year", "Publication Title", "DOI"]
  const AuthorColumns: seq<string> := ["Author 0", "Author 1", "Author 2", "Other Authors"]

  /** The header row: the five fixed columns, the author columns, then the custom names. */
  function Headers(names: seq<string>): (hs: seq<string>)
    ensures |hs| == 9 + |names| && hs[9..] == names
    ensures hs[0] == "Key"
  {
    FixedColumns + AuthorColumns + names
  }

  // ---------------------------------------------------------------------
  // Quoting

  /** `value.replace(/"/g, '""')`: every double quote doubled. */
  function Escape(s: string): (r: string)
    ensures |r| >= |s|
    ensures forall c :: c in r <==> c in s
  {
    if s == [] then []
    else (if s[0] == '"' then "\"\"" else [s[0]]) + Escape(s[1..])
  }

  /** A field as written: escaped and enclosed in double quotes. */
  function Quote(s: string): string {
    "\"" + Escape(s) + "\""
  }

  function QuoteAll(ts: seq<string>): (r: seq<string>)
    ensures |r| == |ts|
  {
    seq(|ts|, k requires 0 <= k < |ts| => Quote(ts[k]))
  }

  // ---------------------------------------------------------------------
  // Cells

  /** The truthiness of a record value. */
  predicate CellTruthy(c: Cell) {
    match c
    case Text(s) => s != ""
    case Number(t) => Truthy(Num(t))
    case Flag(b) => b
    case Names(_) => true
  }

  /** `String(value)`; an array of names is joined with commas. */
  function CellText(c: Cell): string {
    match c
    case Text(s) => s
    case Number(t) => t
    case Flag(b) => if b then "true" else "false"
    case Names(ns) => Join(ns, ",")
  }

  /** `item[header] || 'N/A'`, as a string. */
  function Lookup(item: Record, h: string): (r: string)
    ensures r == "N/A" || (h in item && CellTruthy(item[h]) && r == CellText(item[h]))
  {
    if h in item && CellTruthy(item[h]) then CellText(item[h]) else "N/A"
  }

  /** `item['Authors'] || []`. */
  function AuthorsOf(item: Record): Cell {
    if "Authors" in item && CellTruthy(item["Authors"]) then item["Authors"] else Names([])
  }

  /**
   * `authors[idx] || 'N/A'`: the idx-th name of a name list, the idx-th
   * character of a string, nothing for a number or a boolean.
   */
  function AuthorAt(a: Cell, idx: nat): (r: string)
    ensures a.Names? && idx < |a.names| && a.names[idx] != "" ==> r == a.names[idx]
    ensures a.Names? && (idx >= |a.names| || a.names[idx] == "") ==> r == "N/A"
  {
    match a
    case Names(ns) => if idx < |ns| && ns[idx] != "" then ns[idx] else "N/A"
    case Text(s) => if idx < |s| then [s[idx]] else "N/A"
    case _ => "N/A"
  }

  /**
   * `authors.length > 3 ? authors.slice(3).join('; ') : 'N/A'`; `None` for
   * a string longer than three characters, which has no `join` and throws.
   */
  function OtherAuthors(a: Cell): (r: Option<string>)
    ensures r.None? <==> a.Text? && |a.s| > 3
    ensures a.Names? && |a.names| > 3 ==> r == Some(Join(a.names[3..], "; "))
    ensures a.Names? && |a.names| <= 3 ==> r == Some("N/A")
  {
    match a
    case Names(ns) => Some(if |ns| > 3 then Join(ns[3..], "; ") else "N/A")
    case Text(s) => if |s| > 3 then None else Some("N/A")
    case _ => Some("N/A")
  }

  /** What one header contributes to a row: a value, nothing (`null`, filtered out), or a throw. */
  datatype Field = Value(text: string) | Skipped | Throws

  function FieldFor(item: Record, h: string): (f: Field)
    ensures f.Skipped? <==> h == "Authors"
    ensures f.Throws? ==> h == "Other Authors"
    ensures h !in AuthorColumns && h != "Authors" ==> f == Value(Lookup(item, h))
  {
    if h in AuthorColumns then
      var a := AuthorsOf(item);
      if h == "Other Authors" then
        match OtherAuthors(a)
        case None => Throws
        case Some(t) => Value(t)
      else
        Value(AuthorAt(a, if h == "Author 0" then 0 else if h == "Author 1" then 1 else 2))
    else if h == "Authors" then Skipped
    else Value(Lookup(item, h))
  }

  // ---------------------------------------------------------------------
  // Rows

  /** The unquoted values of a row, in header order, skipped headers left out; `None` when a header throws. */
  function RowTexts(item: Record, hs: seq<string>): Option<seq<string>>
    decreases |hs|
  {
    if hs == [] then Some([])
    else
      match RowTexts(item, hs[..|hs| - 1])
      case None => None
      case Some(ts) =>
        match FieldFor(item, hs[|hs| - 1])
        case Throws => None
        case Skipped => Some(ts)
        case Value(t) => Some(ts + [t])
  }

  /** One row: the quoted values joined by commas. */
  function RowText(item: Record, hs: seq<string>): Option<string> {
    match RowTexts(item, hs)
    case None => None
    case Some(ts) => Some(Join(QuoteAll(ts), ","))
  }

  /** The rows of all records; `None` when one of them throws. */
  function RowsText(items: seq<Record>, hs: seq<string>): (r: Option<seq<string>>)
    ensures r.Some? ==> |r.value| == |items|
    ensures r.Some? ==> forall i :: 0 <= i < |items| ==> RowText(items[i], hs) == Some(r.value[i])
    ensures r.None? ==> exists i :: 0 <= i < |items| && RowText(items[i], hs).None?
    decreases |items|
  {
    if items == [] then Some([])
    else
      var init := items[..|items| - 1];
      match RowsText(init, hs)
      case None =>
        var i :| 0 <= i < |init| && RowText(init[i], hs).None?;
        assert items[i] == init[i];
        None
      case Some(rows) =>
        match RowText(items[|items| - 1], hs)
        case None => None
        case Some(row) =>
          assert forall i :: 0 <= i < |init| ==> items[i] == init[i];
          Some(rows + [row])
  }

  /** `prepareCSVData(combinedItems, customFieldNames)`: the header line, then one row per record, joined by newlines. */
  function CsvText(items: seq<Record>, names: seq<string>): Option<string> {
    var hs := Headers(names);
    match RowsText(items, hs)
    case None => None
    case Some(rows) => Some(Join([Join(hs, ",")] + rows, "\n"))
  }

  /** One row of `prepareCSVData`: `headers.map(...)`, the `null`s filtered out, joined by commas. */
  method BuildRow(item: Record, hs: seq<string>) returns (row: Option<string>)
    ensures row == RowText(item, hs)
  {
    var values: seq<string> := [];
    ghost var ts: seq<string> := [];
    var j := 0;
    while j < |hs|
      invariant 0 <= j <= |hs|
      invariant RowTexts(item, hs[..j]) == Some(ts)
      invariant values == QuoteAll(ts)
    {
      assert hs[..j + 1][..j] == hs[..j];
      match FieldFor(item, hs[j]) {
        case Throws =>
          RowTextsThrow(item, hs, j);
          return None;
        case Skipped =>
        case Value(t) =>
          values := values + [Quote(t)];
          ts := ts + [t];
      }
      j := j + 1;
    }
    assert hs[..j] == hs;
    row := Some(Join(values, ","));
  }

  /** The `combinedItems.forEach` of `prepareCSVData`: each record's row in turn; `None` at the first that throws. */
  method WriteRows(items: seq<Record>, hs: seq<string>) returns (rows: Option<seq<string>>)
    ensures rows == RowsText(items, hs)
  {
    var done: seq<string> := [];
    var i := 0;
    while i < |items|
      invariant 0 <= i <= |items|
      invariant RowsText(items[..i], hs) == Some(done)
    {
      var row := BuildRow(items[i], hs);
      assert items[..i + 1][..i] == items[..i];
      if row.None? {
        return None;
      }
      done := done + [row.value];
      i := i + 1;
    }
    assert items[..i] == items;
    return Some(done);
  }

  /** `prepareCSVData`: the header line, then each record's row; `None` where the source throws. */
  method PrepareCsvData(items: seq<Record>, names: seq<string>) returns (csv: Option<string>)
    ensures csv == CsvText(items, names)
  {
    var hs := Headers(names);
    var rows := WriteRows(items, hs);
    if rows.None? {
      return None;
    }
    csv := Some(Join([Join(hs, ",")] + rows.value, "\n"));
  }

  /** A header that throws makes its row throw. */
  lemma {:induction false} RowTextsThrow(item: Record, hs: seq<string>, j: nat)
    requires j < |hs| && FieldFor(item, hs[j]).Throws?
    ensures RowTexts(item, hs).None?
    decreases |hs|
  {
    if j < |hs| - 1 {
      assert hs[..|hs| - 1][j] == hs[j];
      RowTextsThrow(item, hs[..|hs| - 1], j);
    }
  }

  // ---------------------------------------------------------------------
  // exportJSONDataToCSV

  /** How an export ends: nothing parsed, a count mismatch, a throw while writing rows, or the CSV text handed to the file save. */
  datatype ExportOutcome = NothingToExport | CountMismatch | Failed | Written(csv: string)

  /** The combined record of a library item and its JSON item. */
  function CombinedItem(z: LibraryItem, j: Json, names: seq<string>): Record {
    FlattenWellFormed(j);
    CombinedOf(StandardFieldsOf(z), Flatten(j), names)
  }

  /** The combined records of items and JSON items paired by position. */
  function CombinedItems(zs: seq<LibraryItem>, js: seq<Json>, names: seq<string>): (r: seq<Record>)
    requires |js| == |zs|
    ensures |r| == |zs|
    ensures forall i :: 0 <= i < |zs| ==> r[i] == CombinedItem(zs[i], js[i], names)
  {
    seq(|zs|, i requires 0 <= i < |zs| => CombinedItem(zs[i], js[i], names))
  }

  /** The export of the selected items against the assistant's answer. */
  function ExportOf(answer: Option<string>, parse: string -> Option<Json>, zs: seq<LibraryItem>): ExportOutcome {
    var js := ParseJsonData(answer, parse);
    if js == [] then NothingToExport
    else if |js| != |zs| then CountMismatch
    else
      var names := UniqueFieldNamesOf(js);
      match CsvText(CombinedItems(zs, js, names), names)
      case None => Failed
      case Some(t) => Written(t)
  }

  /**
   * `exportJSONDataToCSV()`: parses the answer, checks it against the
   * selection, gathers the custom names, combines and writes the rows.
   */
  method ExportJsonDataToCsv(answer: Option<string>, parse: string -> Option<Json>, zs: seq<LibraryItem>)
    returns (out: ExportOutcome)
    ensures out == ExportOf(answer, parse, zs)
  {
    var js := ParseJsonData(answer, parse);
    if |js| == 0 {
      return NothingToExport;
    }
    if |js| != |zs| {
      return CountMismatch;
    }
    var names := GetUniqueFieldNames(js);
    var data := GetStandardFieldsForItems(zs, js);
    var combined := CombineFields(data, names);
    forall i | 0 <= i < |zs| ensures combined[i] == CombinedItem(zs[i], js[i], names) {
      assert data[i] == ItemData(StandardFieldsOf(zs[i]), js[i]);
    }
    assert combined == CombinedItems(zs, js, names);
    var csv := PrepareCsvData(combined, names);
    if csv.None? {
      return Failed;
    }
    return Written(csv.value);
  }
}
