/**
 * The read program: after authenticating it GETs `Sheet1!A1:C10`, decodes the reply into
 * `SheetResponse` (every cell must be a string), and prints each row, or "Sheet is empty" when
 * `values` is absent.
 */
module ReadProgram {
  import opened Wrappers
  import opened Json
  import opened Transport
  import opened TokenBroker
  import opened Launch

  const ReadRange := "Sheet1!A1:C10"

  /** The single Sheets request: a GET of the fixed range, with no input option. */
  function SheetRead(s: Session): Request {
    ValuesGet(s.spreadsheetId, ReadRange, s.bearer)
  }

  /** What the program prints: that the sheet is empty, or the decoded rows, in order. */
  datatype ReadResult = SheetEmpty | Rows(rows: seq<seq<string>>)

  /** The whole run of the read program, from a fresh client. */
  function ReadRun(server: Server, env: Env): Run<ReadResult> {
    var pre := Prelude(server, [], env);
    if !pre.exit.Completed? then Run(pre.sent, Abandon(pre.exit))
    else
      var get := SheetRead(pre.exit.result);
      var sent := pre.sent + [get];
      match JsonBody(server(pre.sent, get))
      case Err(f) => Run(sent, Failed(f))
      case Ok(body) =>
        match DecodeSheetResponse(body)
        case None => Run(sent, Failed(ResponseUndecodable))
        case Some(None) => Run(sent, Completed(SheetEmpty))
        case Some(Some(rows)) => Run(sent, Completed(Rows(rows)))
  }

  /** The program sends the token request and then, once authenticated, exactly one GET, to the
      values URL of `Sheet1!A1:C10` with no `valueInputOption`; without an access token it stops
      before any Sheets request. */
  lemma ReadSendsOneGet(server: Server, env: Env)
    ensures var pre := Prelude(server, [], env); var run := ReadRun(server, env);
      && (pre.exit.Completed? ==>
            && run.sent == pre.sent + [SheetRead(pre.exit.result)]
            && Url(run.sent[|pre.sent|]) == SheetsApi + pre.exit.result.spreadsheetId + "/values/" + ReadRange)
      && (!pre.exit.Completed? ==>
            run.sent == pre.sent && run.exit == Abandon(pre.exit)
            && forall r :: r in run.sent ==> !r.IsSheetsRequest())
  {
  }

  /** A reply object whose `values` member carries a matrix of strings is printed row by row,
      unchanged and in order, whatever other members (`range`, `majorDimension`) it has. */
  lemma ReadRowsUnmodified(server: Server, env: Env, body: Json, matrix: seq<seq<string>>)
    requires var pre := Prelude(server, [], env);
      pre.exit.Completed? && server(pre.sent, SheetRead(pre.exit.result)) == Replied(Some(body))
    requires body.Obj? && Member(body, "values") == Member(ValuesBody(matrix), "values")
    ensures ReadRun(server, env).exit == Completed(Rows(matrix))
  {
    DecodeValuesBody(matrix);
  }

  /** A reply object without `values` (or with `values: null`) is reported as an empty sheet, and
      that is the only way to get that report. */
  lemma ReadEmptyIffNoValues(server: Server, env: Env)
    requires var pre := Prelude(server, [], env);
      pre.exit.Completed? && server(pre.sent, SheetRead(pre.exit.result)).Replied?
    ensures var pre := Prelude(server, [], env);
      var body := server(pre.sent, SheetRead(pre.exit.result)).body;
      (ReadRun(server, env).exit == Completed(SheetEmpty)
       <==> body.Some? && body.value.Obj? && Member(body.value, "values") == Null)
  {
  }

  /** A `values` matrix with a cell that is not a string fails decoding: the program returns an
      error instead of printing anything. */
  lemma NonStringCellFails(server: Server, env: Env, body: Json, i: nat, k: nat)
    requires var pre := Prelude(server, [], env);
      pre.exit.Completed? && server(pre.sent, SheetRead(pre.exit.result)) == Replied(Some(body))
    requires var v := Member(body, "values");
      v.Arr? && i < |v.items| && v.items[i].Arr? && k < |v.items[i].items| && !v.items[i].items[k].Str?
    ensures ReadRun(server, env).exit == Failed(ResponseUndecodable)
  {
  }

  /** A token reply without a string `access_token` ends the program in a panic before any
      Sheets request. */
  lemma ReadPanicsWithoutToken(server: Server, env: Env)
    requires Assertion(env).Some?
    requires var post := TokenRequest(env.credentials.value, Assertion(env).value);
      var body := JsonBody(server([], post));
      body.Ok? && AccessToken(body.value).None?
    ensures ReadRun(server, env).exit == Panicked(NoAccessToken)
    ensures forall r :: r in ReadRun(server, env).sent ==> !r.IsSheetsRequest()
  {
  }
}
