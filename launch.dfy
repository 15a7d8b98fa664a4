/**
 * What every program does before touching the spreadsheet, and how a run ends. Each program
 * loads `credentials.json`, reads the clock, signs the claims, exchanges the assertion for an
 * access token, and reads `SPREADSHEET_ID` from the environment, in that order; the file, the
 * clock, the signer and the environment variable are fields of an `Env`.
 */
module Launch {
  import opened Wrappers
  import opened Json
  import opened Transport
  import opened TokenBroker

  /** Errors that `main` returns with `?` (a non-zero exit). */
  datatype Failure =
    | CredentialsUnreadable  // credentials.json missing, not JSON, or lacking a field
    | SigningFailed          // the PEM key is rejected or encoding the JWT fails
    | TransportFailed        // a request could not be sent or its reply not received
    | ResponseUndecodable    // a reply body is not JSON, or not the shape serde was asked for

  /** Panics from `expect`/`unwrap`. */
  datatype Panic = NoAccessToken | SpreadsheetIdUnset

  /** How a run ends. */
  datatype Exit<+T> = Completed(result: T) | Failed(failure: Failure) | Panicked(panic: Panic)

  /** The requests a run sent, in order, and how it ended. */
  datatype Run<+T> = Run(sent: seq<Request>, exit: Exit<T>)

  /** The program's inputs from outside: the parsed credential file (`None` when it cannot be
      loaded), the clock, the RS256 signer (`None` when the key or the encoding fails), and the
      `SPREADSHEET_ID` variable. */
  datatype Env = Env(credentials: Option<ServiceAccount>, now: int,
                     sign: (Claims, string) -> Option<string>, spreadsheetId: Option<string>)

  /** What the Sheets calls need: the bearer token and the spreadsheet id. */
  datatype Session = Session(bearer: string, spreadsheetId: string)

  /** The signed assertion, when the credential loads and signing succeeds. */
  function Assertion(env: Env): Option<string> {
    match env.credentials
    case None => None
    case Some(sa) => env.sign(MakeClaims(sa, env.now), sa.privateKey)
  }

  /** `.send().await?.json().await?`: the reply's JSON body, or the error `?` returns. */
  function JsonBody(reply: Reply): Result<Json, Failure> {
    match reply
    case SendFailed => Err(TransportFailed)
    case Replied(None) => Err(ResponseUndecodable)
    case Replied(Some(body)) => Ok(body)
  }

  /** The same ending, for a run that stopped before producing a result. */
  function Abandon<T>(e: Exit<Session>): Exit<T>
    requires !e.Completed?
  {
    match e
    case Failed(f) => Failed(f)
    case Panicked(p) => Panicked(p)
  }

  /** The shared start of every program, after `log` was sent. */
  function Prelude(server: Server, log: seq<Request>, env: Env): (run: Run<Session>)
    ensures run.sent == if Assertion(env).None? then []
                        else [TokenRequest(env.credentials.value, Assertion(env).value)]
    ensures run.exit.Completed? <==>
              && run.sent != []
              && JsonBody(server(log, run.sent[0])).Ok?
              && AccessToken(JsonBody(server(log, run.sent[0])).value).Some?
              && env.spreadsheetId.Some?
    ensures run.exit.Completed? ==>
              run.exit.result == Session(AccessToken(JsonBody(server(log, run.sent[0])).value).value,
                                         env.spreadsheetId.value)
  {
    match env.credentials
    case None => Run([], Failed(CredentialsUnreadable))
    case Some(sa) =>
      match env.sign(MakeClaims(sa, env.now), sa.privateKey)
      case None => Run([], Failed(SigningFailed))
      case Some(jwt) =>
        var post := TokenRequest(sa, jwt);
        match JsonBody(server(log, post))
        case Err(f) => Run([post], Failed(f))
        case Ok(body) =>
          match AccessToken(body)
          case None => Run([post], Panicked(NoAccessToken))
          case Some(token) =>
            match env.spreadsheetId
            case None => Run([post], Panicked(SpreadsheetIdUnset))
            case Some(id) => Run([post], Completed(Session(token, id)))
  }

  /** Runs the shared start on a client: the token request goes through `c`. */
  method Authenticate(c: Client, env: Env) returns (e: Exit<Session>)
    modifies c
    ensures c.log == old(c.log) + Prelude(c.server, old(c.log), env).sent
    ensures e == Prelude(c.server, old(c.log), env).exit
  {
    match env.credentials {
      case None => return Failed(CredentialsUnreadable);
      case Some(sa) =>
        var signed := env.sign(MakeClaims(sa, env.now), sa.privateKey);
        match signed {
          case None => return Failed(SigningFailed);
          case Some(jwt) =>
            var reply := c.Send(TokenRequest(sa, jwt));
            var body := JsonBody(reply);
            if body.Err? {
              return Failed(body.error);
            }
            var token := AccessToken(body.value);
            if token.None? {
              return Panicked(NoAccessToken);
            }
            if env.spreadsheetId.None? {
              return Panicked(SpreadsheetIdUnset);
            }
            return Completed(Session(token.value, env.spreadsheetId.value));
        }
    }
  }
}
