# Google Sheets with Rust: a Dafny model of the request layer

The repository holds four small command-line programs, `update`, `query`, `read` and `write`.
Each one loads a Google service-account credential, signs a JWT, exchanges it for an access
token, and then calls the Sheets "values" API once or several times. This project models the
deterministic layer that decides which requests are sent, in which order and with which
contents, and proves what that layer promises. The clock, the RS256 signer, the credential file,
the environment and the network are parameters.

## Structure

- `wrappers.dfy` (`Wrappers`): `Option` and `Result`.
- `text.dfy` (`Text`): decimal rendering of row numbers (`format!("{}", n)`) and its inverse,
  and counting a character in a string.
- `json.dfy` (`Json`): the part of `serde_json::Value` the programs use (`v["key"]`,
  `row.get(k)`, `as_str`, `as_array`), the `{"values": [[...]]}` body, and the typed decoding
  of the read program's `SheetResponse { values: Option<Vec<Vec<String>>> }`.
- `transport.dfy` (`Transport`): the requests (token POST, values GET, values PUT), their URLs,
  a `Server` that answers each request given everything sent before it, a `Client` object
  whose `Send` appends to a request log, and `SendInOrder`, which sends a list of requests and
  stops at the first one that cannot be sent (the `?` after `.send().await`).
- `token.dfy` (`TokenBroker`): the JWT claims and the token form of the JWT-bearer grant of
  RFC 7523. The four programs carry identical copies of this code (update/src/main.rs:40-63,
  query/src/main.rs:40-63, read/src/main.rs:46-69, write/src/main.rs:33-57); the model has one.
- `launch.dfy` (`Launch`): how a run ends (`Completed`, `Failed` for an error returned with
  `?`, `Panicked` for `expect`/`unwrap`) and the common start of every program (`Prelude`,
  and the method `Authenticate` running it on a `Client`).
- `update.dfy` (`UpdateProgram`): the scan over the rows of `Sheet1!A:C` that PUTs
  `UPDATED_VALUE` into column B of every row whose third cell is `Test3`. The loop is the method
  `WriteMatches` over a `Client`, proved against the pure plan `PlannedPuts`.
- `query.dfy` (`QueryProgram`): the `QUERY` formula, its USER_ENTERED write to `Sheet1!E1`,
  the read of `Sheet1!E:F`, and the projection of each result row to its first two cells.
- `read.dfy` (`ReadProgram`) and `write.dfy` (`WriteProgram`): straight-line programs, modelled
  as pure functions from the server and the environment to the requests sent and the ending.

A whole run of each program is a function `UpdateRun`, `QueryRun`, `ReadRun` or `WriteRun`
returning `Run(sent, exit)`: every request sent, in order, and how the program ended. The
imperative programs (`update`, `query`) also have an `Execute` method on a `Client`, proved to
leave exactly that log and return that ending.

## Notes on the code's behaviour

- Target row of an update. The code adds the constant 2 to the row index
  (update/src/main.rs:116). Its comment says the data starts at A2, but the range read is
  `Sheet1!A:C`, which starts at row 1, so the write lands one row below the matched row. The
  model keeps the offset 2 (`UpdateProgram.RowOffset`).
- HTTP status codes are never inspected. A 401 or 500 reply to a GET is just a body without
  `values` ("No data found", "Sheet is empty", "No matching rows found"), and the reply to a
  PUT is not read at all. The model has no error for a rejected request.
- A token reply without a string `access_token`, and an unset `SPREADSHEET_ID`, end the program
  in a panic (`expect`, `unwrap`), not in an error value. The model records them as
  `Panicked(NoAccessToken)` and `Panicked(SpreadsheetIdUnset)`.
- The update program returns no count. When a PUT cannot be sent, it returns the transport
  error and says nothing about the earlier PUTs. The model's log shows which PUTs were sent.
- The claims have no `sub`. Section 3 of RFC 7523 lists it among the required claims, but
  Google's service-account profile leaves it out, and so does the code.

## Model

| member | source | states |
|---|---|---|
| TokenBroker.MakeClaims | update/src/main.rs:40-46 | `iss` is the client email, `aud` the token URI, the scope is the spreadsheets scope, `iat` is the current time and `exp - iat` is 3600 seconds |
| TokenBroker.TokenForm | update/src/main.rs:56-59 | the two form fields, `grant_type` then `assertion`; stated by `TokenFormFields` |
| TokenBroker.TokenFormFields | update/src/main.rs:56-59 | the form has `grant_type` = the JWT-bearer grant type and `assertion` = the signed JWT, and no other field |
| TokenBroker.TokenRequest | read/src/main.rs:60-69 | the token request is a POST to the credential's token URI, not a Sheets request, whose form has `grant_type` = the JWT-bearer grant type and `assertion` = the signed JWT, and no other field |
| TokenBroker.AccessToken | update/src/main.rs:65-67 | the access token is present exactly when the reply's `access_token` member is a string, and is that string |
| Transport.Url | update/src/main.rs:86-89 | a token request goes to its endpoint; a values request goes to the values URL of its spreadsheet and range, with nothing after it for a GET and exactly `?valueInputOption=RAW` or `USER_ENTERED` after it for a PUT |
| Transport.Client.Send | update/src/main.rs:124-131 | sending appends the request to the log and returns the server's answer to it, given the earlier log |
| Transport.SendInOrder | update/src/main.rs:124-131 | sending a list of requests in order, stopping after the first one that cannot be sent (the `?` after `.send().await`); stated by the four `SendInOrder` lemmas below |
| Transport.SendInOrderIssuesPrefix | update/src/main.rs:112-131 | the requests sent are a prefix of the planned ones: all of them when every send succeeds, otherwise at least one |
| Transport.SendInOrderCompleteIff | update/src/main.rs:112-131 | the sequence runs to the end exactly when every planned request is delivered |
| Transport.SendInOrderStopsAtFirstFailure | update/src/main.rs:124-131 | when it stops early, every request before the last one sent was delivered and the last one sent was not |
| Transport.SendInOrderAfterDelivered | update/src/main.rs:112-131 | after delivered requests, sending continues with the rest as if from the extended log |
| Transport.SendInOrderFailsAfter | update/src/main.rs:124-131 | after requests that all got through, one that cannot be sent is the last one issued and the sequence is incomplete |
| Json.ValuesBody | write/src/main.rs:73-78 | the body `{"values": m}` has a `values` array with one entry per row of `m` |
| Json.Member | update/src/main.rs:99 | `v["key"]`: the member of an object, `Null` when missing or when `v` is not an object; used by `DecodeSheetResponse`, `ReadEmptyIffNoValues`, `NoValuesNoPut` and `QueryResultFromReply` |
| Json.AsArray | update/src/main.rs:99 | `as_array()`: the items of an array, nothing otherwise; used by `NoValuesNoPut` and `QueryResultFromReply` |
| Json.CellText | update/src/main.rs:113 | cell `k` of a row is the string there when the row is an array with a string at `k`, and `""` otherwise |
| Json.CellTextOfValuesBody | update/src/main.rs:113 | reading cell `k` of row `i` of an encoded matrix gives the written cell, or `""` past the end of the row |
| Json.StringsOf | read/src/main.rs:31-34 | a JSON array decodes as `Vec<String>` exactly when every item is a string, giving those strings in order |
| Json.MatrixOf | read/src/main.rs:31-34 | an array decodes as `Vec<Vec<String>>` exactly when every item is an array of strings, giving those rows in order |
| Json.DecodeSheetResponse | read/src/main.rs:31-34 | decoding succeeds exactly when the body is an object whose `values`, if present, holds only strings; `values` absent or null gives `None`; otherwise the rows are the `values` array's items, one per item and one cell per entry, each cell that entry's string |
| Json.DecodeValuesBody | read/src/main.rs:31-34 | a matrix encoded as a values body decodes back to itself |
| Text.NatToDecimal | update/src/main.rs:118-122 | the `{}` rendering of the row number; stated by `NatToDecimalDigits`, `DecimalRoundTrip` and `NatToDecimalInjective` |
| Text.NatToDecimalDigits | update/src/main.rs:118-122 | a rendered row number is a non-empty string of digits with no leading zero |
| Text.DecimalRoundTrip | update/src/main.rs:118-122 | reading the rendered row number back gives the number |
| Text.NatToDecimalInjective | update/src/main.rs:118-122 | different row numbers are rendered differently |
| Launch.Assertion | update/src/main.rs:48-50 | the signed JWT over `MakeClaims`, absent when the credential or the signing fails; its effect on the run is stated by `Prelude` |
| Launch.JsonBody | update/src/main.rs:91-97 | `.send().await?.json().await?`: a transport failure or a body that is not JSON is the error `?` returns, else the JSON body; its effect on each run is stated by `Prelude` and the run lemmas |
| Launch.Prelude | update/src/main.rs:32-77 | a run sends nothing before signing succeeds and then exactly the token request; it continues exactly when the token reply is JSON with a string `access_token` and `SPREADSHEET_ID` is set, with that token and id |
| Launch.Authenticate | update/src/main.rs:32-77 | running the start on a client logs exactly the requests of `Prelude` and ends as `Prelude` does |
| UpdateProgram.SourceRead | update/src/main.rs:86-97 | the GET of `Sheet1!A:C` with the bearer token; stated by `UpdateRunTrace` |
| UpdateProgram.RowMatches | update/src/main.rs:113-115 | a row matches when its third cell, read as text, equals the value; stated by `ShortOrNonStringRowNeverMatches` and `PutIssuedIffRowMatches` |
| UpdateProgram.TargetRange | update/src/main.rs:116-122 | `Sheet1!B` followed by the decimal index + 2; stated by `TargetRow` |
| UpdateProgram.CellPut | update/src/main.rs:118-129 | the RAW PUT of `[[nv]]` to the target range of a row; stated by `PlannedPutsShape` |
| UpdateProgram.MatchingRows | update/src/main.rs:112-115 | the indices of the rows whose third cell is the match value, in scanning order; its properties are stated by `MatchingRowsSpec` |
| UpdateProgram.MatchingRowsSpec | update/src/main.rs:112-115 | the matching indices are in range and match, are strictly ascending, and include every matching row |
| UpdateProgram.ShortOrNonStringRowNeverMatches | update/src/main.rs:113 | a row with fewer than three cells, or with a non-string third cell, never matches a non-empty value |
| UpdateProgram.PlannedPuts | update/src/main.rs:112-129 | the PUTs the loop issues when every send succeeds: for each matching row in order, the RAW write of `[[nv]]` to column B of row index + 2; stated by the lemmas below |
| UpdateProgram.PlannedPutsFollowMatchingRows | update/src/main.rs:112-131 | there is one PUT per matching row, in the same order, the j-th writing the j-th matching row |
| UpdateProgram.TargetRow | update/src/main.rs:116-122 | the range for the row at index i is a column-B cell whose row number is i + 2 |
| UpdateProgram.PlannedPutsShape | update/src/main.rs:118-129 | every planned PUT is RAW, carries the 1x1 body of the new value and the session's id and token, and targets a single column-B cell |
| UpdateProgram.WrittenRowsAreMatchesShifted | update/src/main.rs:116-122 | the row numbers written, read back from the ranges, are the matching indices plus 2, in order |
| UpdateProgram.PutsWriteOnlyMatchingRows | update/src/main.rs:115-122 | every written row number, minus 2, is the index of a row that matches |
| UpdateProgram.PutsInAscendingRowOrder | update/src/main.rs:112-131 | the PUTs go out in strictly ascending row order |
| UpdateProgram.EveryMatchingRowWritten | update/src/main.rs:112-122 | every matching row at index i is written at row i + 2 |
| UpdateProgram.PutIssuedIffRowMatches | update/src/main.rs:112-115 | the PUT for row i is planned exactly when row i matches |
| UpdateProgram.PutCountIsMatchCount | update/src/main.rs:112-131 | duplicates are all written: the number of PUTs equals the number of matching rows |
| UpdateProgram.FailedPutEndsLoop | update/src/main.rs:124-131 | a PUT that cannot be sent is the last request: the run has sent the PUTs for the earlier rows and this one |
| UpdateProgram.WriteMatches | update/src/main.rs:112-138 | the loop appends to the log exactly the planned PUTs up to and including the first that cannot be sent, and reports whether all were sent |
| UpdateProgram.UpdateRun | update/src/main.rs:31-143 | the requests the whole program sends and how it ends: the start, the GET of `Sheet1!A:C`, "No data found" without a `values` array, else the planned PUTs up to the first that cannot be sent; stated by `UpdateRunTrace` and `NoValuesNoPut` |
| UpdateProgram.UpdateRunTrace | update/src/main.rs:86-131 | nothing reaches the sheet before authentication; then the GET of `Sheet1!A:C` comes first and every later request is a RAW 1x1 column-B PUT of the new value |
| UpdateProgram.NoValuesNoPut | update/src/main.rs:99-105 | a reply without a `values` array ends the run normally after the GET, with no PUT |
| UpdateProgram.Execute | update/src/main.rs:31-143 | running the program on a fresh client logs exactly the requests of `UpdateRun` and ends as it does |
| QueryProgram.Formula | query/src/main.rs:85-88 | the formula with the filter value spliced in unescaped; stated by `FilterClause`, `FixedFormula`, `FormulaInjective` and `FormulaQuotes` |
| QueryProgram.FilterClause | query/src/main.rs:85-88 | the formula is 36 characters longer than the value, starts with the fixed selection, holds `WHERE C='v'` right after it, and ends with `'")` |
| QueryProgram.FixedFormula | query/src/main.rs:80-88 | for `Test6` the formula is the literal one and contains `WHERE C='Test6'` |
| QueryProgram.FormulaInjective | query/src/main.rs:85-88 | two formulas are equal exactly when their filter values are |
| QueryProgram.FormulaQuotes | query/src/main.rs:85-88 | the value is inserted without escaping: the formula has the value's single quotes plus two |
| QueryProgram.FormulaPut | query/src/main.rs:90-102 | the 1x1 USER_ENTERED PUT of the formula to `Sheet1!E1`; stated by `QueryWritesThenReads` |
| QueryProgram.ResultRead | query/src/main.rs:107-118 | the GET of `Sheet1!E:F`; stated by `QueryWritesThenReads` |
| QueryProgram.ProjectRow | query/src/main.rs:125-126 | a result row as the pair of its first two cells as text; stated by `ProjectedCell` |
| QueryProgram.ProjectRows | query/src/main.rs:124-128 | one pair per result row, in response order, each the projection of that row |
| QueryProgram.ProjectedCell | query/src/main.rs:125-126 | for any reply, result cell 0 or 1 of a row is the string there, and `""` when the row is not an array, is too short, or holds a non-string there |
| QueryProgram.ProjectValuesBody | query/src/main.rs:123-128 | each result row becomes the pair of its first two cells, `""` where missing, in response order; a two-column result comes back unchanged |
| QueryProgram.QueryRun | query/src/main.rs:31-135 | the requests the whole program sends and how it ends: the start, the formula PUT, then the GET of `Sheet1!E:F` and its projected rows or "no matching rows"; stated by `QueryWritesThenReads` and `QueryResultFromReply` |
| QueryProgram.QueryWritesThenReads | query/src/main.rs:95-118 | after authentication the Sheets requests are the USER_ENTERED formula PUT to `Sheet1!E1`, then one GET of `Sheet1!E:F` exactly when the PUT was delivered |
| QueryProgram.QueryResultFromReply | query/src/main.rs:123-133 | a read reply with a `values` array yields its projected rows; without one, "no matching rows" |
| QueryProgram.Execute | query/src/main.rs:31-135 | running the program on a fresh client logs exactly the requests of `QueryRun` and ends as it does |
| ReadProgram.SheetRead | read/src/main.rs:85-100 | the GET of `Sheet1!A1:C10`, with no input option; stated by `ReadSendsOneGet` |
| ReadProgram.ReadRun | read/src/main.rs:37-113 | the requests the whole program sends and how it ends: the start, one GET, then an error, an empty sheet or the decoded rows; stated by the lemmas below |
| ReadProgram.ReadSendsOneGet | read/src/main.rs:85-100 | after authentication exactly one request follows, a GET of the values URL for `Sheet1!A1:C10` with no input option; otherwise no Sheets request |
| ReadProgram.ReadRowsUnmodified | read/src/main.rs:104-107 | a reply object whose `values` member carries a matrix of strings, whatever other members it has, yields exactly that matrix, rows unchanged and in order |
| ReadProgram.ReadEmptyIffNoValues | read/src/main.rs:104-110 | the run reports an empty sheet exactly when the reply is an object whose `values` is absent or null |
| ReadProgram.NonStringCellFails | read/src/main.rs:94-100 | a `values` matrix with a non-string cell makes the program return a decoding error |
| ReadProgram.ReadPanicsWithoutToken | read/src/main.rs:71-73 | a token reply without a string `access_token` ends in a panic, with no Sheets request sent |
| WriteProgram.SampleWrite | write/src/main.rs:68-91 | the RAW PUT of the 2x3 block `SampleRows` to `Sheet1!A1`; stated by `SampleBody` and `WriteSendsOnePut` |
| WriteProgram.WriteRun | write/src/main.rs:27-96 | the requests the whole program sends and how it ends: the start and one PUT, failing only when the PUT cannot be sent; stated by the lemmas below |
| WriteProgram.SampleBody | write/src/main.rs:73-78 | the body is a 2x3 matrix of strings that decodes back to itself |
| WriteProgram.WriteSendsOnePut | write/src/main.rs:81-91 | after authentication exactly one request follows, the RAW PUT of the sample block to the values URL for `Sheet1!A1`; no GET is ever sent; the run completes exactly when the PUT is delivered |
| WriteProgram.WritePanicsWithoutToken | write/src/main.rs:59-61 | a token reply without a string `access_token` ends in a panic, with no Sheets request sent |

## Left out

- RS256 signing and JWT encoding (section 3.3 of RFC 7518), and PEM key parsing: the signer is
  the parameter `Env.sign`, and the signed JWT is an opaque string.
- Reading and parsing `credentials.json`, `dotenv` and `env::var`, and `Utc::now()`: they are
  the fields `credentials`, `spreadsheetId` and `now` of `Env`.
- reqwest, tokio and the network: the `Server` parameter answers every request, failures
  included. HTTP status codes are not modelled, because no program reads them.
- Console output. The branch a program takes is its `exit` value, and the printed rows are the
  result (`Rows`, `Results`).
- Percent-encoding of ranges in URLs, and the spreadsheet's recalculation of the `QUERY`
  formula between the query program's PUT and GET. Both belong to the service.
- serde details the programs do not rely on: decoding `SheetResponse` from a JSON array
  instead of an object, duplicate keys in an object, and floating-point numbers (numbers are
  integers here; the programs only ask whether a cell is a string).
- Integer widths: `chrono` overflow when adding an hour near the end of its range, and
  `usize` overflow of `index + 2`. Both need inputs far beyond any real sheet or clock.
- The printing loops of the query and read programs. They change no state, so the model gives
  their output as a sequence.
