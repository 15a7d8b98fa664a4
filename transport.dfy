/**
 * The HTTP traffic of the programs, as a log of requests. The network, Google's token
 * endpoint and the Sheets service are one parameter, a `Server`, that answers each request
 * given every request sent before it; reqwest's `Client` becomes a `Client` object that
 * records what was sent.
 */
module Transport {
  import opened Wrappers
  import opened Json

  /** Prefix of every Sheets values URL; the spreadsheet id follows. */
  const SheetsApi := "https://sheets.googleapis.com/v4/spreadsheets/"

  /** `valueInputOption`: store strings literally, or parse them as the Sheets UI would (formulas). */
  datatype InputOption = Raw | UserEntered

  function OptionName(option: InputOption): string {
    match option
    case Raw => "RAW"
    case UserEntered => "USER_ENTERED"
  }

  /** A request the programs send. Values requests carry the bearer token; PUT bodies are `{"values": values}`. */
  datatype Request =
    | TokenPost(endpoint: string, form: seq<(string, string)>)
    | ValuesGet(spreadsheetId: string, range: string, bearer: string)
    | ValuesPut(spreadsheetId: string, range: string, option: InputOption, bearer: string,
                values: seq<seq<string>>)
  {
    predicate IsSheetsRequest() {
      ValuesGet? || ValuesPut?
    }
  }

  /** The URL a request is sent to, as the programs format it. */
  function Url(r: Request): (u: string)
    ensures r.TokenPost? ==> u == r.endpoint
    ensures r.IsSheetsRequest() ==> SheetsApi + r.spreadsheetId + "/values/" + r.range <= u
    ensures r.ValuesGet? ==> |u| == |SheetsApi + r.spreadsheetId + "/values/" + r.range|
    ensures r.ValuesPut? ==>
              u[|SheetsApi + r.spreadsheetId + "/values/" + r.range|..] == "?valueInputOption=" + OptionName(r.option)
  {
    match r
    case TokenPost(endpoint, _) => endpoint
    case ValuesGet(id, range, _) => SheetsApi + id + "/values/" + range
    case ValuesPut(id, range, option, _, _) =>
      SheetsApi + id + "/values/" + range + "?valueInputOption=" + OptionName(option)
  }

  /** What comes back for a request: nothing (connection or transfer failure), or a body, which is
      `None` when it is not valid JSON. Status codes are not modelled: no program looks at them. */
  datatype Reply = SendFailed | Replied(body: Option<Json>)

  /** The world outside the program: the reply to a request, given everything sent before it. */
  type Server = (seq<Request>, Request) -> Reply

  /** reqwest's client, reduced to its observable effect: the log of requests sent. */
  class Client {
    const server: Server
    var log: seq<Request>

    constructor (server: Server)
      ensures this.server == server && log == []
    {
      this.server := server;
      log := [];
    }

    /** `.send().await`: the request joins the log and the server answers it. */
    method Send(r: Request) returns (reply: Reply)
      modifies this
      ensures log == old(log) + [r]
      ensures reply == server(old(log), r)
    {
      reply := server(log, r);
      log := log + [r];
    }
  }

  /** The request `r`, sent after `log`, got through (its reply, if any, is ignored). */
  predicate Delivered(server: Server, log: seq<Request>, r: Request) {
    !server(log, r).SendFailed?
  }

  /** Every request of `reqs`, sent in order after `log`, got through. */
  predicate AllDelivered(server: Server, log: seq<Request>, reqs: seq<Request>)
    decreases |reqs|
  {
    reqs == [] || (Delivered(server, log, reqs[0]) && AllDelivered(server, log + [reqs[0]], reqs[1..]))
  }

  /** The outcome of sending a list of requests one after the other: the ones actually sent, and
      whether all of them got through. */
  datatype Delivery = Delivery(issued: seq<Request>, complete: bool)

  /**
   * Sending `reqs` in order, with `?` after each send: the first request whose send fails is the
   * last one issued, and nothing after it is sent.
   */
  function SendInOrder(server: Server, log: seq<Request>, reqs: seq<Request>): Delivery
    decreases |reqs|
  {
    if reqs == [] then Delivery([], true)
    else if !Delivered(server, log, reqs[0]) then Delivery([reqs[0]], false)
    else
      var rest := SendInOrder(server, log + [reqs[0]], reqs[1..]);
      Delivery([reqs[0]] + rest.issued, rest.complete)
  }

  /** What is issued is a prefix of the requests: all of them when sending completes, and at least
      the failing one otherwise. */
  lemma {:induction false} SendInOrderIssuesPrefix(server: Server, log: seq<Request>, reqs: seq<Request>)
    ensures var d := SendInOrder(server, log, reqs);
      && d.issued <= reqs
      && (d.complete ==> d.issued == reqs)
      && (!d.complete ==> d.issued != [])
    decreases |reqs|
  {
    if reqs != [] && Delivered(server, log, reqs[0]) {
      SendInOrderIssuesPrefix(server, log + [reqs[0]], reqs[1..]);
      assert reqs == [reqs[0]] + reqs[1..];
    }
  }

  /** Sending in order completes exactly when every request gets through. */
  lemma {:induction false} SendInOrderCompleteIff(server: Server, log: seq<Request>, reqs: seq<Request>)
    ensures SendInOrder(server, log, reqs).complete <==> AllDelivered(server, log, reqs)
    decreases |reqs|
  {
    if reqs != [] && Delivered(server, log, reqs[0]) {
      SendInOrderCompleteIff(server, log + [reqs[0]], reqs[1..]);
    }
  }

  /** Sending in order stops at the first request that does not get through: it is the last one
      issued, and every request before it got through. */
  lemma {:induction false} SendInOrderStopsAtFirstFailure(server: Server, log: seq<Request>, reqs: seq<Request>)
    requires !SendInOrder(server, log, reqs).complete
    ensures 0 < |SendInOrder(server, log, reqs).issued| <= |reqs|
    ensures var n := |SendInOrder(server, log, reqs).issued| - 1;
      AllDelivered(server, log, reqs[..n]) && !Delivered(server, log + reqs[..n], reqs[n])
    decreases |reqs|
  {
    SendInOrderIssuesPrefix(server, log, reqs);
    var d := SendInOrder(server, log, reqs);
    var n := |d.issued| - 1;
    if Delivered(server, log, reqs[0]) {
      var tail := reqs[1..];
      var rest := SendInOrder(server, log + [reqs[0]], tail);
      SendInOrderStopsAtFirstFailure(server, log + [reqs[0]], tail);
      assert n == |rest.issued|;
      assert reqs[..n] == [reqs[0]] + tail[..n - 1];
      assert reqs[..n][1..] == tail[..n - 1];
      assert log + reqs[..n] == (log + [reqs[0]]) + tail[..n - 1];
      assert reqs[n] == tail[n - 1];
    } else {
      assert n == 0;
      assert log + reqs[..0] == log;
    }
  }

  /** The issued requests and completion of a run that already sent `done`, then `d`. */
  function Continue(done: seq<Request>, d: Delivery): Delivery {
    Delivery(done + d.issued, d.complete)
  }

  /** Appending a request that got through keeps a delivered list delivered. */
  lemma {:induction false} AllDeliveredSnoc(server: Server, log: seq<Request>, a: seq<Request>, r: Request)
    requires AllDelivered(server, log, a)
    requires Delivered(server, log + a, r)
    ensures AllDelivered(server, log, a + [r])
    decreases |a|
  {
    if a == [] {
      assert a + [r] == [r] && log + a == log;
      assert [r][1..] == [];
    } else {
      assert (log + [a[0]]) + a[1..] == log + a;
      AllDeliveredSnoc(server, log + [a[0]], a[1..], r);
      assert (a + [r])[1..] == a[1..] + [r];
    }
  }

  /** Once a prefix `a` got through, sending `a + b` issues `a` and then whatever sending `b` does. */
  lemma {:induction false} SendInOrderAfterDelivered(server: Server, log: seq<Request>, a: seq<Request>, b: seq<Request>)
    requires AllDelivered(server, log, a)
    ensures SendInOrder(server, log, a + b) == Continue(a, SendInOrder(server, log + a, b))
    decreases |a|
  {
    if a == [] {
      assert a + b == b && log + a == log;
    } else {
      assert (a + b)[0] == a[0];
      assert (a + b)[1..] == a[1..] + b;
      assert (log + [a[0]]) + a[1..] == log + a;
      SendInOrderAfterDelivered(server, log + [a[0]], a[1..], b);
      var d := SendInOrder(server, log + a, b);
      assert [a[0]] + (a[1..] + d.issued) == a + d.issued;
    }
  }

  /** Once a prefix `done` got through, a request after it that cannot be sent is the last one issued. */
  lemma SendInOrderFailsAfter(server: Server, log: seq<Request>, done: seq<Request>, r: Request, reqs: seq<Request>)
    requires done + [r] <= reqs
    requires AllDelivered(server, log, done)
    requires !Delivered(server, log + done, r)
    ensures SendInOrder(server, log, reqs) == Delivery(done + [r], false)
  {
    var rest := reqs[|done|..];
    assert reqs == done + rest;
    assert rest[0] == r;
    SendInOrderAfterDelivered(server, log, done, rest);
  }
}
