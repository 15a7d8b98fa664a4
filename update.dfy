/**
 * The update program: read `Sheet1!A:C`, and for every row whose third cell is the match
 * value write the new value into column B of sheet row `index + 2`, one RAW single-cell PUT
 * per matching row, in row order.
 */
module UpdateProgram {
  import opened Wrappers
  import opened Json
  import opened Text
  import opened Transport
  import opened Launch

  const MatchValue := "Test3"
  const NewValue := "UPDATED_VALUE"
  const SourceRange := "Sheet1!A:C"
  /** Column C: the cell compared with the match value. */
  const MatchColumn := 2
  /** Added to a row's index to get the sheet row written; the source assumes its data starts at A2. */
  const RowOffset := 2
  /** Every write goes to this column. */
  const TargetColumn := "Sheet1!B"

  /** The GET of the source data. */
  function SourceRead(s: Session): Request {
    ValuesGet(s.spreadsheetId, SourceRange, s.bearer)
  }

  /** `Sheet1!B{index + 2}`. */
  function TargetRange(index: nat): string {
    TargetColumn + NatToDecimal(index + RowOffset)
  }

  /** Row `row` is to be updated: its third cell, read as text, is `v`. */
  predicate RowMatches(row: Json, v: string) {
    CellText(row, MatchColumn) == v
  }

  /** The indices of the matching rows, in the order the loop meets them. */
  function MatchingRows(rows: seq<Json>, v: string): seq<nat>
    decreases |rows|
  {
    if rows == [] then []
    else
      var last := |rows| - 1;
      MatchingRows(rows[..last], v) + (if RowMatches(rows[last], v) then [last] else [])
  }

  /** The matching indices are exactly the indices of the rows that match, each once, ascending. */
  lemma {:induction false} MatchingRowsSpec(rows: seq<Json>, v: string)
    ensures var ix := MatchingRows(rows, v);
      && (forall j :: 0 <= j < |ix| ==> ix[j] < |rows| && RowMatches(rows[ix[j]], v))
      && (forall j, k :: 0 <= j < k < |ix| ==> ix[j] < ix[k])
      && (forall i :: 0 <= i < |rows| && RowMatches(rows[i], v) ==> i in ix)
    decreases |rows|
  {
    if rows != [] {
      var last := |rows| - 1;
      var init := rows[..last];
      MatchingRowsSpec(init, v);
      var ix := MatchingRows(rows, v);
      var before := MatchingRows(init, v);
      assert forall j :: 0 <= j < |before| ==> ix[j] == before[j];
      assert forall i :: 0 <= i < last ==> init[i] == rows[i];
    }
  }

  /** A row shorter than three cells, or whose third cell is not a string, never matches a
      non-empty match value. */
  lemma ShortOrNonStringRowNeverMatches(row: Json, v: string)
    requires v != ""
    requires !row.Arr? || |row.items| <= MatchColumn || !row.items[MatchColumn].Str?
    ensures !RowMatches(row, v)
  {
  }

  /** The single-cell RAW write of `nv` for the row at `index`. */
  function CellPut(s: Session, index: nat, nv: string): Request {
    ValuesPut(s.spreadsheetId, TargetRange(index), Raw, s.bearer, [[nv]])
  }

  /** `range` names one cell of column B: `Sheet1!B` followed by a row number. */
  predicate ColumnBCell(range: string) {
    |range| > |TargetColumn| && range[..|TargetColumn|] == TargetColumn
    && forall k :: |TargetColumn| <= k < |range| ==> IsDigit(range[k])
  }

  /** The row number of a column-B cell. */
  function SheetRow(range: string): nat
    requires ColumnBCell(range)
  {
    DecimalValue(range[|TargetColumn|..])
  }

  /** The PUTs the loop issues for `rows` when every send goes through. */
  function PlannedPuts(s: Session, rows: seq<Json>, v: string, nv: string): seq<Request>
    decreases |rows|
  {
    if rows == [] then []
    else
      var last := |rows| - 1;
      PlannedPuts(s, rows[..last], v, nv) + (if RowMatches(rows[last], v) then [CellPut(s, last, nv)] else [])
  }

  /** The planned PUTs are the single-cell writes for the matching rows, one each, in order. */
  lemma {:induction false} PlannedPutsFollowMatchingRows(s: Session, rows: seq<Json>, v: string, nv: string)
    ensures |PlannedPuts(s, rows, v, nv)| == |MatchingRows(rows, v)|
    ensures forall j :: 0 <= j < |MatchingRows(rows, v)| ==>
              PlannedPuts(s, rows, v, nv)[j] == CellPut(s, MatchingRows(rows, v)[j], nv)
    decreases |rows|
  {
    if rows != [] {
      PlannedPutsFollowMatchingRows(s, rows[..|rows| - 1], v, nv);
    }
  }

  /** Each write names the sheet row two below its row's index. */
  lemma TargetRow(index: nat)
    ensures ColumnBCell(TargetRange(index)) && SheetRow(TargetRange(index)) == index + RowOffset
  {
    var r := TargetRange(index);
    assert r[|TargetColumn|..] == NatToDecimal(index + RowOffset);
    DecimalRoundTrip(index + RowOffset);
  }

  /** Every planned PUT is a RAW write of the 1x1 matrix `[[nv]]` into one cell of column B, with the
      session's token. */
  lemma PlannedPutsShape(s: Session, rows: seq<Json>, v: string, nv: string)
    ensures forall r :: r in PlannedPuts(s, rows, v, nv) ==>
              && r.ValuesPut? && r.spreadsheetId == s.spreadsheetId && r.bearer == s.bearer
              && r.option == Raw && r.values == [[nv]] && ColumnBCell(r.range)
  {
    var puts := PlannedPuts(s, rows, v, nv);
    var ix := MatchingRows(rows, v);
    PlannedPutsFollowMatchingRows(s, rows, v, nv);
    forall j | 0 <= j < |ix| ensures ColumnBCell(puts[j].range) {
      TargetRow(ix[j]);
    }
  }

  /** The sheet row a request writes, read back from its range (0 for anything but a column-B PUT). */
  function WrittenRow(r: Request): nat {
    if r.ValuesPut? && ColumnBCell(r.range) then SheetRow(r.range) else 0
  }

  /** The rows written, read back from the PUT ranges, are the matching indices shifted by two. */
  lemma WrittenRowsAreMatchesShifted(s: Session, rows: seq<Json>, v: string, nv: string)
    ensures |PlannedPuts(s, rows, v, nv)| == |MatchingRows(rows, v)|
    ensures forall j :: 0 <= j < |MatchingRows(rows, v)| ==>
              WrittenRow(PlannedPuts(s, rows, v, nv)[j]) == MatchingRows(rows, v)[j] + RowOffset
  {
    var ix := MatchingRows(rows, v);
    PlannedPutsFollowMatchingRows(s, rows, v, nv);
    forall j | 0 <= j < |ix| ensures WrittenRow(PlannedPuts(s, rows, v, nv)[j]) == ix[j] + RowOffset {
      TargetRow(ix[j]);
    }
  }

  /** Every PUT writes a row whose third cell matched: non-matching rows are never written. */
  lemma PutsWriteOnlyMatchingRows(s: Session, rows: seq<Json>, v: string, nv: string)
    ensures var puts := PlannedPuts(s, rows, v, nv);
      forall j :: 0 <= j < |puts| ==>
        RowOffset <= WrittenRow(puts[j]) < |rows| + RowOffset && RowMatches(rows[WrittenRow(puts[j]) - RowOffset], v)
  {
    var puts := PlannedPuts(s, rows, v, nv);
    var ix := MatchingRows(rows, v);
    MatchingRowsSpec(rows, v);
    WrittenRowsAreMatchesShifted(s, rows, v, nv);
    forall j | 0 <= j < |puts|
      ensures RowOffset <= WrittenRow(puts[j]) < |rows| + RowOffset && RowMatches(rows[WrittenRow(puts[j]) - RowOffset], v)
    {
      assert WrittenRow(puts[j]) - RowOffset == ix[j];
    }
  }

  /** The PUTs are issued in strictly ascending row order. */
  lemma PutsInAscendingRowOrder(s: Session, rows: seq<Json>, v: string, nv: string)
    ensures var puts := PlannedPuts(s, rows, v, nv);
      forall j, k :: 0 <= j < k < |puts| ==> WrittenRow(puts[j]) < WrittenRow(puts[k])
  {
    MatchingRowsSpec(rows, v);
    WrittenRowsAreMatchesShifted(s, rows, v, nv);
  }

  /** Every matching row is written, at its index plus two. */
  lemma EveryMatchingRowWritten(s: Session, rows: seq<Json>, v: string, nv: string)
    ensures var puts := PlannedPuts(s, rows, v, nv);
      forall i :: 0 <= i < |rows| && RowMatches(rows[i], v) ==>
        exists j :: 0 <= j < |puts| && WrittenRow(puts[j]) == i + RowOffset
  {
    var puts := PlannedPuts(s, rows, v, nv);
    var ix := MatchingRows(rows, v);
    MatchingRowsSpec(rows, v);
    WrittenRowsAreMatchesShifted(s, rows, v, nv);
    forall i | 0 <= i < |rows| && RowMatches(rows[i], v)
      ensures exists j :: 0 <= j < |puts| && WrittenRow(puts[j]) == i + RowOffset
    {
      var j :| 0 <= j < |ix| && ix[j] == i;
      assert WrittenRow(puts[j]) == i + RowOffset;
    }
  }

  /** A row gets a PUT exactly when it matches. */
  lemma PutIssuedIffRowMatches(s: Session, rows: seq<Json>, v: string, nv: string, i: nat)
    requires i < |rows|
    ensures CellPut(s, i, nv) in PlannedPuts(s, rows, v, nv) <==> RowMatches(rows[i], v)
  {
    var puts := PlannedPuts(s, rows, v, nv);
    var ix := MatchingRows(rows, v);
    MatchingRowsSpec(rows, v);
    PlannedPutsFollowMatchingRows(s, rows, v, nv);
    if RowMatches(rows[i], v) {
      var j :| 0 <= j < |ix| && ix[j] == i;
      assert puts[j] == CellPut(s, i, nv);
    }
    if CellPut(s, i, nv) in puts {
      var j :| 0 <= j < |puts| && puts[j] == CellPut(s, i, nv);
      TargetRow(i);
      TargetRow(ix[j]);
    }
  }

  /** The indices of the rows that match. */
  function MatchSet(rows: seq<Json>, v: string): set<nat> {
    set i: nat | i < |rows| && RowMatches(rows[i], v)
  }

  /** Duplicate matches are all written: there are as many PUTs as matching rows. */
  lemma {:induction false} PutCountIsMatchCount(s: Session, rows: seq<Json>, v: string, nv: string)
    ensures |PlannedPuts(s, rows, v, nv)| == |MatchSet(rows, v)|
    decreases |rows|
  {
    if rows == [] {
      assert MatchSet(rows, v) == {};
    } else {
      var last := |rows| - 1;
      var init := rows[..last];
      PutCountIsMatchCount(s, init, v, nv);
      if RowMatches(rows[last], v) {
        assert MatchSet(rows, v) == MatchSet(init, v) + {last};
      } else {
        assert MatchSet(rows, v) == MatchSet(init, v);
      }
    }
  }

  /** Scanning one more row adds its PUT, if it matches, at the end. */
  lemma PlannedPutsStep(s: Session, rows: seq<Json>, v: string, nv: string, i: nat)
    requires i < |rows|
    ensures PlannedPuts(s, rows[..i + 1], v, nv)
            == PlannedPuts(s, rows[..i], v, nv) + (if RowMatches(rows[i], v) then [CellPut(s, i, nv)] else [])
  {
    assert rows[..i + 1][..i] == rows[..i];
  }

  /** The PUTs planned for a prefix of the rows come first among those planned for all rows. */
  lemma {:induction false} PlannedPutsPrefix(s: Session, rows: seq<Json>, v: string, nv: string, n: nat)
    requires n <= |rows|
    ensures PlannedPuts(s, rows[..n], v, nv) <= PlannedPuts(s, rows, v, nv)
    decreases |rows|
  {
    if n < |rows| {
      var last := |rows| - 1;
      assert rows[..last][..n] == rows[..n];
      PlannedPutsPrefix(s, rows[..last], v, nv, n);
      assert rows[..last] == rows[..last + 1][..last];
      PlannedPutsStep(s, rows, v, nv, last);
      assert rows[..last + 1] == rows;
    } else {
      assert rows[..n] == rows;
    }
  }

  /** When the PUT for a matching row cannot be sent, sending the planned PUTs stops there. */
  lemma FailedPutEndsLoop(server: Server, log: seq<Request>, s: Session, rows: seq<Json>, v: string, nv: string, i: nat)
    requires i < |rows| && RowMatches(rows[i], v)
    requires AllDelivered(server, log, PlannedPuts(s, rows[..i], v, nv))
    requires !Delivered(server, log + PlannedPuts(s, rows[..i], v, nv), CellPut(s, i, nv))
    ensures SendInOrder(server, log, PlannedPuts(s, rows, v, nv))
            == Delivery(PlannedPuts(s, rows[..i], v, nv) + [CellPut(s, i, nv)], false)
  {
    var done := PlannedPuts(s, rows[..i], v, nv);
    PlannedPutsStep(s, rows, v, nv, i);
    PlannedPutsPrefix(s, rows, v, nv, i + 1);
    SendInOrderFailsAfter(server, log, done, CellPut(s, i, nv), PlannedPuts(s, rows, v, nv));
  }

  /**
   * The loop of the source: for each row in order, when its third cell is `v`, PUT `nv` into
   * column B of its target row, stopping at the first PUT that cannot be sent.
   */
  method WriteMatches(c: Client, s: Session, rows: seq<Json>, v: string, nv: string) returns (ok: bool)
    modifies c
    ensures c.log == old(c.log) + SendInOrder(c.server, old(c.log), PlannedPuts(s, rows, v, nv)).issued
    ensures ok == SendInOrder(c.server, old(c.log), PlannedPuts(s, rows, v, nv)).complete
  {
    ghost var log0 := c.log;
    ghost var all := PlannedPuts(s, rows, v, nv);
    ghost var done: seq<Request> := [];
    assert rows[..0] == [];
    assert log0 + done == log0;
    var i := 0;
    while i < |rows|
      invariant 0 <= i <= |rows|
      invariant done == PlannedPuts(s, rows[..i], v, nv)
      invariant c.log == log0 + done
      invariant AllDelivered(c.server, log0, done)
    {
      var colC := CellText(rows[i], MatchColumn);
      if colC == v {
        var put := CellPut(s, i, nv);
        assert PlannedPuts(s, rows[..i + 1], v, nv) == done + [put] by {
          PlannedPutsStep(s, rows, v, nv, i);
        }
        var reply := c.Send(put);
        if reply.SendFailed? {
          FailedPutEndsLoop(c.server, log0, s, rows, v, nv, i);
          return false;
        }
        AllDeliveredSnoc(c.server, log0, done, put);
        done := done + [put];
      } else {
        assert PlannedPuts(s, rows[..i + 1], v, nv) == done by {
          PlannedPutsStep(s, rows, v, nv, i);
        }
      }
      i := i + 1;
    }
    assert SendInOrder(c.server, log0, all) == Delivery(done, true) by {
      assert rows[..i] == rows;
      assert all == done + [];
      SendInOrderAfterDelivered(c.server, log0, done, []);
    }
    return true;
  }

  /** How the update program ends when it gets through: with no data to scan, or after the loop. */
  datatype UpdateResult = NoDataFound | MatchesWritten

  /** The whole run of the update program, from a fresh client. */
  function UpdateRun(server: Server, env: Env): Run<UpdateResult> {
    var pre := Prelude(server, [], env);
    if !pre.exit.Completed? then Run(pre.sent, Abandon(pre.exit))
    else
      var s := pre.exit.result;
      var log := pre.sent + [SourceRead(s)];
      match JsonBody(server(pre.sent, SourceRead(s)))
      case Err(f) => Run(log, Failed(f))
      case Ok(body) =>
        match AsArray(Member(body, "values"))
        case None => Run(log, Completed(NoDataFound))
        case Some(rows) =>
          var d := SendInOrder(server, log, PlannedPuts(s, rows, MatchValue, NewValue));
          Run(log + d.issued, if d.complete then Completed(MatchesWritten) else Failed(TransportFailed))
  }

  /** Nothing but the token request is sent until authentication succeeds, and then the first
      Sheets request is the GET of `Sheet1!A:C`; every later request is a RAW PUT of `[[NewValue]]`
      into a single column-B cell. */
  lemma UpdateRunTrace(server: Server, env: Env)
    ensures var pre := Prelude(server, [], env); var run := UpdateRun(server, env);
      && pre.sent <= run.sent
      && (!pre.exit.Completed? ==> run.sent == pre.sent && run.exit == Abandon(pre.exit))
      && (pre.exit.Completed? ==>
            && |pre.sent| < |run.sent| && run.sent[|pre.sent|] == SourceRead(pre.exit.result)
            && forall j :: |pre.sent| < j < |run.sent| ==>
                 && run.sent[j].ValuesPut? && run.sent[j].option == Raw
                 && run.sent[j].values == [[NewValue]] && ColumnBCell(run.sent[j].range))
  {
    var pre := Prelude(server, [], env);
    if pre.exit.Completed? {
      var s := pre.exit.result;
      var log := pre.sent + [SourceRead(s)];
      var body := JsonBody(server(pre.sent, SourceRead(s)));
      if body.Ok? && AsArray(Member(body.value, "values")).Some? {
        var rows := AsArray(Member(body.value, "values")).value;
        var puts := PlannedPuts(s, rows, MatchValue, NewValue);
        var d := SendInOrder(server, log, puts);
        SendInOrderIssuesPrefix(server, log, puts);
        PlannedPutsShape(s, rows, MatchValue, NewValue);
        assert UpdateRun(server, env).sent == log + d.issued;
        forall j | |log| <= j < |log| + |d.issued| ensures (log + d.issued)[j] in puts {
          assert (log + d.issued)[j] == puts[j - |log|];
        }
      }
    }
  }

  /** With no `values` array in the reply to the GET, the program ends normally without a PUT. */
  lemma NoValuesNoPut(server: Server, env: Env)
    requires Prelude(server, [], env).exit.Completed?
    requires var pre := Prelude(server, [], env);
      var body := JsonBody(server(pre.sent, SourceRead(pre.exit.result)));
      body.Ok? && !Member(body.value, "values").Arr?
    ensures var pre := Prelude(server, [], env);
      UpdateRun(server, env) == Run(pre.sent + [SourceRead(pre.exit.result)], Completed(NoDataFound))
  {
  }

  /** The program's `main`, run on a fresh client. */
  method Execute(c: Client, env: Env) returns (e: Exit<UpdateResult>)
    requires c.log == []
    modifies c
    ensures c.log == UpdateRun(c.server, env).sent && e == UpdateRun(c.server, env).exit
  {
    var pre := Authenticate(c, env);
    if !pre.Completed? {
      return Abandon(pre);
    }
    var s := pre.result;
    ghost var run := UpdateRun(c.server, env);
    ghost var sent := c.log;
    assert sent == Prelude(c.server, [], env).sent;
    var reply := c.Send(SourceRead(s));
    var body := JsonBody(reply);
    assert body == JsonBody(c.server(sent, SourceRead(s)));
    if body.Err? {
      assert run == Run(sent + [SourceRead(s)], Failed(body.error));
      return Failed(body.error);
    }
    var rows := AsArray(Member(body.value, "values"));
    if rows.None? {
      return Completed(NoDataFound);
    }
    var ok := WriteMatches(c, s, rows.value, MatchValue, NewValue);
    if !ok {
      return Failed(TransportFailed);
    }
    return Completed(MatchesWritten);
  }
}
