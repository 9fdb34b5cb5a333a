/**
 * The backend's `/upload` endpoint: dispatch on the lower-cased file name,
 * then shape CSV rows or a parsed JSON document into `{columns, data}`.
 *
 * Decoding the bytes, splitting lines, `csv.reader` and `json.loads` are
 * library calls; their outcomes are inputs here (`CsvReading`, `JsonReading`).
 */
module Upload {
  import opened Wrappers
  import opened Json

  /** What `csv.reader(text.splitlines())` produced, or the message of the exception it raised. */
  datatype CsvReading = CsvRows(rows: seq<seq<string>>) | CsvFailure(message: string)

  /** What `json.loads` produced, or `Malformed` when it raised `JSONDecodeError`. */
  datatype JsonReading = Parsed(value: Json) | Malformed

  /** An uploaded file: its declared name and what each reader makes of its bytes. */
  datatype UploadedFile = UploadedFile(filename: string, csvReading: CsvReading, jsonReading: JsonReading)

  /** The endpoint's success payload. */
  datatype Response = Response(columns: seq<string>, data: seq<Json>)

  /** An `HTTPException`: status code and detail message. */
  datatype HttpError = HttpError(status: nat, detail: string)

  /** Which branch of the endpoint handles a file. */
  datatype FileKind = CsvFile | JsonFile | Unsupported

  // ---------------------------------------------------------------------------
  // File names

  /** ASCII lower-casing of one character. */
  function LowerChar(c: char): char
  {
    if 'A' <= c <= 'Z' then (c as int - 'A' as int + 'a' as int) as char else c
  }

  /** `str.lower()`, restricted to ASCII letters. */
  function Lower(s: string): (r: string)
    ensures |r| == |s|
  {
    seq(|s|, i requires 0 <= i < |s| => LowerChar(s[i]))
  }

  /** `str.endswith(suffix)`. */
  predicate EndsWith(s: string, suffix: string)
  {
    |suffix| <= |s| && s[|s| - |suffix|..] == suffix
  }

  /** The branch chosen for a file name: `.csv` is tested first, then `.json`. */
  function KindOf(filename: string): (k: FileKind)
    ensures k == CsvFile <==> EndsWith(Lower(filename), ".csv")
    ensures k == JsonFile <==> EndsWith(Lower(filename), ".json")
  {
    var name := Lower(filename);
    assert EndsWith(name, ".csv") ==> name[|name| - 1] == 'v';
    assert EndsWith(name, ".json") ==> name[|name| - 1] == 'n';
    if EndsWith(name, ".csv") then CsvFile
    else if EndsWith(name, ".json") then JsonFile
    else Unsupported
  }

  /** Lower-casing twice is lower-casing once. */
  lemma LowerIdempotent(s: string)
    ensures Lower(Lower(s)) == Lower(s)
  {
  }

  /** Lower-casing distributes over concatenation. */
  lemma LowerAppend(a: string, b: string)
    ensures Lower(a + b) == Lower(a) + Lower(b)
  {
  }

  /** Dispatch does not depend on letter case: any casing of `.csv` or `.json` is accepted. */
  lemma KindIgnoresCase(stem: string, extension: string)
    ensures KindOf(stem + extension) == KindOf(stem + Lower(extension))
  {
    LowerAppend(stem, extension);
    LowerAppend(stem, Lower(extension));
    LowerIdempotent(extension);
  }

  // ---------------------------------------------------------------------------
  // CSV rows to dicts

  /**
   * `d[key] = value` on a Python dict: an existing key keeps its position and
   * takes the new value, a new key is appended.
   */
  function Insert(members: seq<Member>, key: string, value: Json): (r: seq<Member>)
    ensures key !in Keys(members) ==> r == members + [Member(key, value)]
    ensures key in Keys(members) ==> Keys(r) == Keys(members)
    ensures forall c :: c in Keys(r) <==> c in Keys(members) || c == key
  {
    if members == [] then
      assert Keys([Member(key, value)]) == [key];
      [Member(key, value)]
    else if members[0].key == key then
      assert Keys(members)[0] == key;
      assert Keys([Member(key, value)] + members[1..]) == Keys(members);
      [Member(key, value)] + members[1..]
    else
      assert Keys(members) == [members[0].key] + Keys(members[1..]);
      var rest := Insert(members[1..], key, value);
      assert Keys([members[0]] + rest) == [members[0].key] + Keys(rest);
      [members[0]] + rest
  }

  /** After the assignment, the key reads back the new value and every other key is unaffected. */
  lemma {:induction false} InsertLookup(members: seq<Member>, key: string, value: Json, other: string)
    ensures Lookup(Insert(members, key, value), key) == Some(value)
    ensures other != key ==> Lookup(Insert(members, key, value), other) == Lookup(members, other)
  {
    if members != [] && members[0].key != key {
      InsertLookup(members[1..], key, value, other);
    }
  }

  /** The assignment never creates a duplicate key. */
  lemma {:induction false} InsertKeepsDistinct(members: seq<Member>, key: string, value: Json)
    requires DistinctKeys(members)
    ensures DistinctKeys(Insert(members, key, value))
  {
    var r := Insert(members, key, value);
    if key in Keys(members) {
      assert forall i :: 0 <= i < |r| ==> r[i].key == Keys(r)[i];
      assert forall i :: 0 <= i < |members| ==> members[i].key == Keys(members)[i];
    } else {
      assert forall i :: 0 <= i < |members| ==> members[i].key == Keys(members)[i];
    }
  }

  /** `dict(zip(columns, row))` for a row as long as the header. */
  function ZipDict(columns: seq<string>, row: seq<string>): (r: seq<Member>)
    requires |row| == |columns|
    ensures forall c :: c in Keys(r) <==> c in columns
  {
    if columns == [] then []
    else
      var n := |columns| - 1;
      assert columns == columns[..n] + [columns[n]];
      Insert(ZipDict(columns[..n], row[..n]), columns[n], JString(row[n]))
  }

  /** The dict built from a row has no duplicate key, however often a name repeats in the header. */
  lemma {:induction false} ZipDictDistinct(columns: seq<string>, row: seq<string>)
    requires |row| == |columns|
    ensures DistinctKeys(ZipDict(columns, row))
  {
    if columns != [] {
      var n := |columns| - 1;
      ZipDictDistinct(columns[..n], row[..n]);
      InsertKeepsDistinct(ZipDict(columns[..n], row[..n]), columns[n], JString(row[n]));
    }
  }

  /** A header entry with no later duplicate maps to the cell in its own position. */
  lemma {:induction false} ZipDictLookup(columns: seq<string>, row: seq<string>, j: nat)
    requires |row| == |columns| && j < |columns|
    requires forall j' :: j < j' < |columns| ==> columns[j'] != columns[j]
    ensures Lookup(ZipDict(columns, row), columns[j]) == Some(JString(row[j]))
  {
    var n := |columns| - 1;
    InsertLookup(ZipDict(columns[..n], row[..n]), columns[n], JString(row[n]), columns[j]);
    if j < n {
      ZipDictLookup(columns[..n], row[..n], j);
    }
  }

  /** The pairs `(columns[j], row[j])` in header order. */
  function Zipped(columns: seq<string>, row: seq<string>): seq<Member>
    requires |row| == |columns|
  {
    seq(|columns|, j requires 0 <= j < |columns| => Member(columns[j], JString(row[j])))
  }

  /** Zipping a header and a row is zipping their prefixes, then the last pair. */
  lemma ZippedSnoc(columns: seq<string>, row: seq<string>)
    requires |row| == |columns| && columns != []
    ensures Zipped(columns, row)
         == Zipped(columns[..|columns| - 1], row[..|columns| - 1]) + [Member(columns[|columns| - 1], JString(row[|columns| - 1]))]
  {
  }

  /** With a header of distinct names, the dict is exactly the zipped pairs in header order. */
  lemma {:induction false} ZipDictOfDistinctHeader(columns: seq<string>, row: seq<string>)
    requires |row| == |columns|
    requires forall i, j :: 0 <= i < j < |columns| ==> columns[i] != columns[j]
    ensures ZipDict(columns, row) == Zipped(columns, row)
  {
    if columns != [] {
      var n := |columns| - 1;
      ZipDictOfDistinctHeader(columns[..n], row[..n]);
      assert columns[n] !in columns[..n];
      ZippedSnoc(columns, row);
    }
  }

  /**
   * The list comprehension over the rows after the header: one dict per row
   * whose length equals the header's, in row order; other rows are dropped.
   */
  function ShapeRows(columns: seq<string>, rows: seq<seq<string>>): (r: seq<Json>)
    ensures |r| <= |rows|
    ensures forall k :: 0 <= k < |r| ==> r[k].JObject?
  {
    if rows == [] then []
    else
      var first := if |rows[0]| == |columns| then [JObject(ZipDict(columns, rows[0]))] else [];
      first + ShapeRows(columns, rows[1..])
  }

  /** Shaping keeps order: the rows of a concatenation shape to the concatenation of the shapes. */
  lemma {:induction false} ShapeRowsAppend(columns: seq<string>, a: seq<seq<string>>, b: seq<seq<string>>)
    ensures ShapeRows(columns, a + b) == ShapeRows(columns, a) + ShapeRows(columns, b)
  {
    if a == [] {
      assert a + b == b;
    } else {
      assert (a + b)[0] == a[0];
      assert (a + b)[1..] == a[1..] + b;
      ShapeRowsAppend(columns, a[1..], b);
    }
  }

  /** A single row contributes its dict when its length matches the header and nothing otherwise. */
  lemma ShapeRowsSingle(columns: seq<string>, row: seq<string>)
    ensures |row| == |columns| ==> ShapeRows(columns, [row]) == [JObject(ZipDict(columns, row))]
    ensures |row| != |columns| ==> ShapeRows(columns, [row]) == []
  {
  }

  /** When every row matches the header, no row is dropped and row k becomes dict k. */
  lemma {:induction false} ShapeRowsAllMatching(columns: seq<string>, rows: seq<seq<string>>)
    requires forall k :: 0 <= k < |rows| ==> |rows[k]| == |columns|
    ensures |ShapeRows(columns, rows)| == |rows|
    ensures forall k :: 0 <= k < |rows| ==> ShapeRows(columns, rows)[k] == JObject(ZipDict(columns, rows[k]))
  {
    if rows != [] {
      ShapeRowsAllMatching(columns, rows[1..]);
    }
  }

  /** Every shaped row has exactly the header's names as keys, each once. */
  lemma {:induction false} ShapeRowsKeys(columns: seq<string>, rows: seq<seq<string>>)
    ensures forall k :: 0 <= k < |ShapeRows(columns, rows)| ==>
      DistinctKeys(ShapeRows(columns, rows)[k].members)
    ensures forall k, c :: 0 <= k < |ShapeRows(columns, rows)| ==>
      (c in Keys(ShapeRows(columns, rows)[k].members) <==> c in columns)
  {
    if rows != [] {
      ShapeRowsKeys(columns, rows[1..]);
      if |rows[0]| == |columns| {
        ZipDictDistinct(columns, rows[0]);
      }
    }
  }

  // ---------------------------------------------------------------------------
  // The endpoint

  const CsvErrorPrefix := "CSV parsing error: "

  /** A decimal numeral, as `str()` writes a non-negative integer. */
  function Decimal(n: nat): (r: string)
    ensures |r| >= 1
  {
    if n < 10 then ["0123456789"[n]] else Decimal(n / 10) + ["0123456789"[n % 10]]
  }

  /** `str(e)` of an `HTTPException`: its status code, a colon and its detail. */
  function Describe(e: HttpError): string
  {
    Decimal(e.status) + ": " + e.detail
  }

  /** The CSV branch: any exception inside it is re-raised as a 400 prefixed "CSV parsing error: ". */
  function CsvUpload(reading: CsvReading): (r: Result<Response, HttpError>)
    ensures r.Failure? ==> r.error.status == 400 && CsvErrorPrefix <= r.error.detail
    ensures r.Success? <==> reading.CsvRows? && reading.rows != []
    ensures r.Success? ==> r.value.columns == reading.rows[0] && |r.value.data| <= |reading.rows| - 1
    ensures reading.CsvFailure? ==> r == Failure(HttpError(400, CsvErrorPrefix + reading.message))
  {
    match reading
    case CsvFailure(message) => Failure(HttpError(400, CsvErrorPrefix + message))
    case CsvRows(rows) =>
      if rows == [] then Failure(HttpError(400, CsvErrorPrefix + Describe(HttpError(400, "Empty CSV"))))
      else Success(Response(rows[0], ShapeRows(rows[0], rows[1..])))
  }

  /** A JSON list's first element is an object whenever the list is not empty (otherwise the source crashes). */
  predicate HeadIsObject(reading: JsonReading)
  {
    reading.Parsed? && reading.value.JArray? && reading.value.items != [] ==> reading.value.items[0].JObject?
  }

  /** The JSON branch: a non-empty list of objects or a single object; anything else is rejected. */
  function JsonUpload(reading: JsonReading): (r: Result<Response, HttpError>)
    requires HeadIsObject(reading)
    ensures r.Failure? ==> r.error.status == 400
    ensures r.Failure? ==> (r.error.detail == "Invalid JSON format" <==> reading.Malformed?)
    ensures r.Success? <==> reading.Parsed? && (reading.value.JObject? || (reading.value.JArray? && reading.value.items != []))
    ensures r.Success? ==> r.value.data != [] && r.value.data[0].JObject? && r.value.columns == Keys(r.value.data[0].members)
    ensures r.Success? && reading.value.JArray? ==> r.value.data == reading.value.items
    ensures r.Success? && reading.value.JObject? ==> r.value.data == [reading.value]
    ensures r.Failure? && reading.Parsed? ==> r.error.detail == "Invalid JSON structure"
  {
    match reading
    case Malformed => Failure(HttpError(400, "Invalid JSON format"))
    case Parsed(value) =>
      if value.JArray? && value.items != [] then Success(Response(Keys(value.items[0].members), value.items))
      else if value.JObject? then Success(Response(Keys(value.members), [value]))
      else Failure(HttpError(400, "Invalid JSON structure"))
  }

  /** The whole endpoint: each supported extension is handled by its own branch. */
  function UploadFile(file: UploadedFile): (r: Result<Response, HttpError>)
    requires KindOf(file.filename) == JsonFile ==> HeadIsObject(file.jsonReading)
    ensures r.Failure? ==> r.error.status == 400
    ensures KindOf(file.filename) == CsvFile ==> r == CsvUpload(file.csvReading)
    ensures KindOf(file.filename) == JsonFile ==> r == JsonUpload(file.jsonReading)
    ensures KindOf(file.filename) == Unsupported ==> r == Failure(HttpError(400, UnsupportedDetail))
  {
    match KindOf(file.filename)
    case CsvFile => CsvUpload(file.csvReading)
    case JsonFile => JsonUpload(file.jsonReading)
    case Unsupported => Failure(HttpError(400, UnsupportedDetail))
  }

  const UnsupportedDetail := "File must be CSV or JSON"

  /** Only an unsupported file name gets the "File must be CSV or JSON" rejection. */
  lemma UnsupportedDetailOnlyForUnsupported(file: UploadedFile)
    requires KindOf(file.filename) == JsonFile ==> HeadIsObject(file.jsonReading)
    ensures KindOf(file.filename) == Unsupported <==> UploadFile(file) == Failure(HttpError(400, UnsupportedDetail))
  {
    var r := UploadFile(file);
    match KindOf(file.filename)
    case CsvFile =>
      assert r.Failure? ==> CsvErrorPrefix <= r.error.detail;
      assert CsvErrorPrefix[0] != UnsupportedDetail[0];
    case JsonFile =>
      assert "Invalid JSON format"[0] != UnsupportedDetail[0];
      assert "Invalid JSON structure"[0] != UnsupportedDetail[0];
    case Unsupported =>
  }

  /** A successful JSON upload always carries at least one row; only a CSV upload can succeed with none. */
  lemma JsonSuccessHasData(file: UploadedFile)
    requires KindOf(file.filename) == JsonFile ==> HeadIsObject(file.jsonReading)
    ensures UploadFile(file).Success? ==> UploadFile(file).value.data != [] || KindOf(file.filename) == CsvFile
  {
  }

  /** An empty CSV fails, and the inner "Empty CSV" reaches the client wrapped in the generic prefix. */
  lemma EmptyCsvRejected(filename: string)
    requires KindOf(filename) == CsvFile
    ensures UploadFile(UploadedFile(filename, CsvRows([]), Malformed))
         == Failure(HttpError(400, "CSV parsing error: 400: Empty CSV"))
  {
    assert Decimal(4) == "4";
    assert Decimal(40) == "40";
    assert Decimal(400) == "400";
    assert Describe(HttpError(400, "Empty CSV")) == "400: Empty CSV";
    assert CsvErrorPrefix + "400: Empty CSV" == "CSV parsing error: 400: Empty CSV";
  }

  /** A CSV upload: the header row as columns and one dict per matching later row, keyed by the header. */
  lemma CsvUploadShape(file: UploadedFile)
    requires KindOf(file.filename) == CsvFile && file.csvReading.CsvRows? && file.csvReading.rows != []
    ensures var rows := file.csvReading.rows;
      && UploadFile(file).Success?
      && UploadFile(file).value.columns == rows[0]
      && UploadFile(file).value.data == ShapeRows(rows[0], rows[1..])
      && |UploadFile(file).value.data| <= |rows| - 1
      && forall k, c :: 0 <= k < |UploadFile(file).value.data| ==>
           (c in Keys(UploadFile(file).value.data[k].members) <==> c in rows[0])
  {
    var rows := file.csvReading.rows;
    ShapeRowsKeys(rows[0], rows[1..]);
  }

  /**
   * A JSON upload: a non-empty list is returned unchanged with the first
   * object's keys as columns, an object is wrapped in a one-element list with
   * its own keys as columns, and any other document fails with 400.
   */
  lemma JsonUploadShape(file: UploadedFile)
    requires KindOf(file.filename) == JsonFile && HeadIsObject(file.jsonReading)
    ensures var r := UploadFile(file);
      && (file.jsonReading.Malformed? ==> r == Failure(HttpError(400, "Invalid JSON format")))
      && (file.jsonReading.Parsed? ==>
        match file.jsonReading.value
        case JArray(items) =>
          if items != [] then r == Success(Response(Keys(items[0].members), items))
          else r == Failure(HttpError(400, "Invalid JSON structure"))
        case JObject(members) => r == Success(Response(Keys(members), [JObject(members)]))
        case _ => r == Failure(HttpError(400, "Invalid JSON structure")))
  {
  }
}
