/**
 * The write program: after authenticating it PUTs a fixed 2x3 block of strings into the sheet
 * at `Sheet1!A1` with `valueInputOption=RAW`, and reads nothing back.
 */
module WriteProgram {
  import opened Wrappers
  import opened Json
  import opened Transport
  import opened TokenBroker
  import opened Launch

  const WriteRange := "Sheet1!A1"

  /** The block written, row by row. */
  const SampleRows: seq<seq<string>> := [["Test1", "Test2", "Test3"], ["Test4", "Test5", "Test6"]]

  /** The single Sheets request: a RAW PUT of the sample block at `Sheet1!A1`. */
  function SampleWrite(s: Session): Request {
    ValuesPut(s.spreadsheetId, WriteRange, Raw, s.bearer, SampleRows)
  }

  /** The whole run of the write program, from a fresh client. The reply to the PUT is not read:
      only a failure to send it ends the program with an error. */
  function WriteRun(server: Server, env: Env): Run<()> {
    var pre := Prelude(server, [], env);
    if !pre.exit.Completed? then Run(pre.sent, Abandon(pre.exit))
    else
      var put := SampleWrite(pre.exit.result);
      Run(pre.sent + [put], if server(pre.sent, put).SendFailed? then Failed(TransportFailed) else Completed(()))
  }

  /** The body sent is the 2x3 matrix of the sample strings, and it decodes back to them. */
  lemma SampleBody()
    ensures |SampleRows| == 2 && forall i :: 0 <= i < 2 ==> |SampleRows[i]| == 3
    ensures DecodeSheetResponse(ValuesBody(SampleRows)) == Some(Some(SampleRows))
  {
    DecodeValuesBody(SampleRows);
  }

  /** Once authenticated the program sends exactly one Sheets request, the RAW PUT to the values
      URL of `Sheet1!A1`, and no GET; without an access token it sends none. */
  lemma WriteSendsOnePut(server: Server, env: Env)
    ensures var pre := Prelude(server, [], env); var run := WriteRun(server, env);
      && (pre.exit.Completed? ==>
            && run.sent == pre.sent + [SampleWrite(pre.exit.result)]
            && Url(run.sent[|pre.sent|])
               == SheetsApi + pre.exit.result.spreadsheetId + "/values/" + WriteRange + "?valueInputOption=RAW"
            && (run.exit.Completed? <==> Delivered(server, pre.sent, SampleWrite(pre.exit.result))))
      && (!pre.exit.Completed? ==> run.sent == pre.sent && run.exit == Abandon(pre.exit))
      && forall r :: r in run.sent ==> !r.ValuesGet?
  {
  }

  /** A token reply without a string `access_token` ends the program in a panic (the `unwrap`)
      before any Sheets request. */
  lemma WritePanicsWithoutToken(server: Server, env: Env)
    requires Assertion(env).Some?
    requires var post := TokenRequest(env.credentials.value, Assertion(env).value);
      var body := JsonBody(server([], post));
      body.Ok? && AccessToken(body.value).None?
    ensures WriteRun(server, env).exit == Panicked(NoAccessToken)
    ensures forall r :: r in WriteRun(server, env).sent ==> !r.IsSheetsRequest()
  {
  }
}
