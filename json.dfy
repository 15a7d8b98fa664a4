/**
 * The part of serde_json that the four programs rely on: a parsed JSON value, indexing it
 * the way `Value` does (`v["key"]`, `row.get(k)`, `as_str`, `as_array`), the
 * `{"values": [[...]]}` body every values request and response carries, and the typed
 * decoding the read program asks serde for (`SheetResponse { values: Option<Vec<Vec<String>>> }`).
 */
module Json {
  import opened Wrappers

  /** A parsed JSON value. Objects map each key to its value (serde_json keeps the last of duplicate keys). */
  datatype Json =
    | Null
    | Bool(b: bool)
    | Number(n: int)
    | Str(s: string)
    | Arr(items: seq<Json>)
    | Obj(fields: map<string, Json>)

  /** `v[key]`: the member of an object, or `Null` for a missing key or a value that is not an object. */
  function Member(v: Json, key: string): Json {
    if v.Obj? && key in v.fields then v.fields[key] else Null
  }

  /** `v.as_array()`. */
  function AsArray(v: Json): Option<seq<Json>> {
    if v.Arr? then Some(v.items) else None
  }

  /** `row.get(k).and_then(|v| v.as_str()).unwrap_or("")`: cell `k` of a row as text, `""` when the
      row is not an array, is too short, or holds something other than a string there. */
  function CellText(row: Json, k: nat): (r: string)
    ensures row.Arr? && k < |row.items| && row.items[k].Str? ==> r == row.items[k].s
    ensures !(row.Arr? && k < |row.items| && row.items[k].Str?) ==> r == ""
  {
    if row.Arr? && k < |row.items| && row.items[k].Str? then row.items[k].s else ""
  }

  /** The JSON form of one row of strings. */
  function RowJson(row: seq<string>): (r: Json)
    ensures r.Arr? && |r.items| == |row|
    ensures forall k :: 0 <= k < |row| ==> r.items[k] == Str(row[k])
  {
    Arr(seq(|row|, k requires 0 <= k < |row| => Str(row[k])))
  }

  /** `{"values": matrix}`: the body of a values PUT, and of a values GET response that has rows. */
  function ValuesBody(matrix: seq<seq<string>>): (body: Json)
    ensures AsArray(Member(body, "values")).Some?
    ensures |AsArray(Member(body, "values")).value| == |matrix|
  {
    Obj(map["values" := Arr(seq(|matrix|, i requires 0 <= i < |matrix| => RowJson(matrix[i])))])
  }

  /** Reading an encoded matrix cell by cell, as the update and query programs do, gives back each
      written cell, and `""` past the end of a row. */
  lemma CellTextOfValuesBody(matrix: seq<seq<string>>, i: nat, k: nat)
    requires i < |matrix|
    ensures CellText(AsArray(Member(ValuesBody(matrix), "values")).value[i], k)
            == if k < |matrix[i]| then matrix[i][k] else ""
  {
  }

  /** serde's `Vec<String>`: every item must be a string. */
  function StringsOf(items: seq<Json>): (r: Option<seq<string>>)
    ensures r.Some? <==> forall k :: 0 <= k < |items| ==> items[k].Str?
    ensures r.Some? ==> |r.value| == |items| && forall k :: 0 <= k < |items| ==> r.value[k] == items[k].s
    decreases |items|
  {
    if items == [] then Some([])
    else if !items[0].Str? then None
    else match StringsOf(items[1..])
      case None => None
      case Some(rest) => Some([items[0].s] + rest)
  }

  /** serde's `Vec<Vec<String>>`: every item must be an array of strings. */
  function MatrixOf(rows: seq<Json>): (r: Option<seq<seq<string>>>)
    ensures r.Some? <==> forall i :: 0 <= i < |rows| ==> rows[i].Arr? && StringsOf(rows[i].items).Some?
    ensures r.Some? ==> |r.value| == |rows|
    ensures r.Some? ==> forall i :: 0 <= i < |rows| ==> r.value[i] == StringsOf(rows[i].items).value
    decreases |rows|
  {
    if rows == [] then Some([])
    else if !rows[0].Arr? then None
    else match (StringsOf(rows[0].items), MatrixOf(rows[1..]))
      case (Some(first), Some(rest)) => Some([first] + rest)
      case _ => None
  }

  /** Every cell of the `values` member is a string (or `values` is absent or null). */
  ghost predicate AllCellsStrings(body: Json) {
    var v := Member(body, "values");
    v == Null || (v.Arr? && forall i :: 0 <= i < |v.items| ==>
                    v.items[i].Arr? && forall k :: 0 <= k < |v.items[i].items| ==> v.items[i].items[k].Str?)
  }

  /**
   * Typed decoding of a values response into `SheetResponse`: `None` when serde rejects the body,
   * `Some(None)` when `values` is absent or null, `Some(Some(rows))` otherwise.
   */
  function DecodeSheetResponse(body: Json): (r: Option<Option<seq<seq<string>>>>)
    ensures r.Some? <==> body.Obj? && AllCellsStrings(body)
    ensures r == Some(None) <==> body.Obj? && Member(body, "values") == Null
    ensures r.Some? && r.value.Some? ==>
              var v := Member(body, "values");
              && v.Arr? && |r.value.value| == |v.items|
              && forall i :: 0 <= i < |v.items| ==>
                   && v.items[i].Arr? && |r.value.value[i]| == |v.items[i].items|
                   && forall k :: 0 <= k < |v.items[i].items| ==> r.value.value[i][k] == v.items[i].items[k].s
  {
    if !body.Obj? then None
    else
      var v := Member(body, "values");
      if v == Null then Some(None)
      else if !v.Arr? then None
      else match MatrixOf(v.items)
        case None => None
        case Some(rows) => Some(Some(rows))
  }

  /** A matrix written as a values body decodes back to itself. */
  lemma {:induction false} DecodeValuesBody(matrix: seq<seq<string>>)
    ensures DecodeSheetResponse(ValuesBody(matrix)) == Some(Some(matrix))
  {
    var rows := AsArray(Member(ValuesBody(matrix), "values")).value;
    forall i | 0 <= i < |rows| ensures rows[i].Arr? && StringsOf(rows[i].items) == Some(matrix[i]) {
      assert rows[i] == RowJson(matrix[i]);
      var strings := StringsOf(rows[i].items);
      assert strings.Some?;
      assert strings.value == matrix[i];
    }
    var m := MatrixOf(rows);
    assert m.Some?;
    assert m.value == matrix;
  }
}
