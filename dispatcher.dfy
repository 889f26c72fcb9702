/** `search_stations` of src/api.rs: ordered failover over a fixed list of
    mirrors.

    The network is replaced by an oracle: `replies[i]` is what mirror `i`
    would answer to this query. One attempt ends in a connection failure, an
    HTTP status failure, a body that does not parse as a list of stations, or
    a parsed list. The first parsed list is returned at once; every failure
    replaces the one kept error; if all mirrors fail, the last mirror's error
    is returned. */
module Dispatcher {
  import opened Wrappers
  import opened Text
  import opened StationRecord

  /** The mirrors, in the order they are tried. */
  const Mirrors: seq<string> := [
    "https://all.api.radio-browser.info",
    "https://de1.api.radio-browser.info",
    "https://fr1.api.radio-browser.info",
    "https://at1.api.radio-browser.info",
    "https://nl1.api.radio-browser.info",
    "https://us1.api.radio-browser.info",
    "https://es1.api.radio-browser.info"
  ]

  const SearchPath := "/json/stations/search"

  /** The `limit` parameter sent with every request. */
  const ResultLimit := "20"

  /** Per-attempt client timeout; transport configuration only. */
  const AttemptTimeoutSeconds := 5

  /** One GET request: the endpoint and its two query parameters. */
  datatype Request = Request(url: string, name: string, limit: string)

  /** The client's error, one kind per way an attempt can fail; the
      details are opaque to the search. */
  datatype Error =
    | ConnectError(detail: string)   // `send` fails
    | StatusError(code: nat)         // `error_for_status` rejects the status
    | DecodeError(detail: string)    // the body cannot be read as stations

  /** The body of a response: either it cannot be read as a JSON array of
      objects (malformed, another shape, or reading it failed), or it is such
      an array, still to be read as stations. */
  datatype Body = Unparsable(detail: string) | Objects(items: seq<JsonObject>)

  /** What one mirror does with the request: no response arrives (cannot
      connect, DNS failure, timeout before the response), or a response with
      a status code and a body. */
  datatype Reply = Unreachable(detail: string) | Responded(status: nat, body: Body)

  /** The four-way result of one attempt. */
  datatype Outcome = Success(stations: seq<Station>) | Failure(error: Error)

  /** The error a station array yields when one of its fields has the wrong
      type. */
  const InvalidTypeDetail := "invalid type: expected a string or null"

  /** The statuses `error_for_status` rejects: client errors (4xx) and
      server errors (5xx). Every other status goes on to the body. */
  predicate IsErrorStatus(status: nat) {
    400 <= status <= 599
  }

  /** How `search_stations` classifies one mirror's reply: a connection
      failure keeps its detail, a rejected status its code, an unreadable
      body its detail, a station of the wrong shape the invalid-type error;
      a body that reads as stations is the success, carrying that list. */
  function Classify(reply: Reply): (o: Outcome)
    ensures o.Success? <==>
      reply.Responded? && !IsErrorStatus(reply.status) && reply.body.Objects?
      && DecodeStations(reply.body.items).Some?
    ensures o.Success? ==> o.stations == DecodeStations(reply.body.items).value
    ensures reply.Unreachable? ==> o == Failure(ConnectError(reply.detail))
    ensures reply.Responded? && IsErrorStatus(reply.status) ==> o == Failure(StatusError(reply.status))
    ensures reply.Responded? && !IsErrorStatus(reply.status) && reply.body.Unparsable? ==>
      o == Failure(DecodeError(reply.body.detail))
    ensures reply.Responded? && !IsErrorStatus(reply.status) && reply.body.Objects? && o.Failure? ==>
      o.error == DecodeError(InvalidTypeDetail)
  {
    match reply
    case Unreachable(d) => Failure(ConnectError(d))
    case Responded(status, body) =>
      if IsErrorStatus(status) then Failure(StatusError(status))
      else
        match body
        case Unparsable(d) => Failure(DecodeError(d))
        case Objects(items) =>
          match DecodeStations(items)
          case Some(stations) => Success(stations)
          case None => Failure(DecodeError(InvalidTypeDetail))
  }

  /** The request sent to one mirror: the query as given, untrimmed. */
  function RequestTo(mirror: string, query: string): Request {
    Request(mirror + SearchPath, query, ResultLimit)
  }

  /** The requests of a full pass over the mirrors, in order. */
  function Requests(query: string): (rs: seq<Request>)
    ensures |rs| == |Mirrors|
    ensures forall i :: 0 <= i < |rs| ==> rs[i] == RequestTo(Mirrors[i], query)
  {
    seq(|Mirrors|, i requires 0 <= i < |Mirrors| => RequestTo(Mirrors[i], query))
  }

  /** Each mirror's outcome, in mirror order. */
  function Outcomes(replies: seq<Reply>): (os: seq<Outcome>)
    ensures |os| == |replies|
    ensures forall i :: 0 <= i < |replies| ==> os[i] == Classify(replies[i])
  {
    seq(|replies|, i requires 0 <= i < |replies| => Classify(replies[i]))
  }

  /** The position of the first success, or |os| when there is none. */
  function FirstSuccess(os: seq<Outcome>): (k: nat)
    ensures k <= |os|
    ensures k < |os| ==> os[k].Success?
    ensures forall j :: 0 <= j < k ==> os[j].Failure?
  {
    if os == [] then 0
    else if os[0].Success? then 0
    else 1 + FirstSuccess(os[1..])
  }

  /** The first success is the one with only failures before it. */
  lemma FirstSuccessIsFirst(os: seq<Outcome>, k: nat)
    requires k < |os| && os[k].Success?
    requires forall j :: 0 <= j < k ==> os[j].Failure?
    ensures FirstSuccess(os) == k
  {
  }

  lemma FirstSuccessNone(os: seq<Outcome>)
    requires forall j :: 0 <= j < |os| ==> os[j].Failure?
    ensures FirstSuccess(os) == |os|
  {
  }

  /** What the search returns: nothing to do for a blank query; otherwise
      the list of the first mirror that succeeds, or else the error of the
      last mirror. */
  function Search(query: string, replies: seq<Reply>): Result<seq<Station>, Error>
    requires |replies| == |Mirrors|
  {
    if Blank(query) then Ok([])
    else
      var os := Outcomes(replies);
      var k := FirstSuccess(os);
      if k < |os| then Ok(os[k].stations) else Err(os[|os| - 1].error)
  }

  /** The requests the search sends, in order: none for a blank query;
      otherwise one per mirror up to and including the first that
      succeeds. */
  function Contacted(query: string, replies: seq<Reply>): (rs: seq<Request>)
    requires |replies| == |Mirrors|
  {
    if Blank(query) then []
    else
      var k := FirstSuccess(Outcomes(replies));
      Requests(query)[..if k < |Mirrors| then k + 1 else |Mirrors|]
  }

  /** `search_stations`, returning with its result the requests it sent. */
  method SearchStations(query: string, replies: seq<Reply>)
    returns (result: Result<seq<Station>, Error>, sent: seq<Request>)
    requires |replies| == |Mirrors|
    ensures result == Search(query, replies)
    ensures sent == Contacted(query, replies)
  {
    sent := [];
    if Blank(query) {
      return Ok([]), sent;
    }
    ghost var os := Outcomes(replies);
    ghost var all := Requests(query);
    var lastResult: Result<seq<Station>, Error> := Ok([]);
    for i := 0 to |Mirrors|
      invariant forall j :: 0 <= j < i ==> os[j].Failure?
      invariant sent == all[..i]
      invariant i > 0 ==> lastResult == Err(os[i - 1].error)
    {
      sent := sent + [RequestTo(Mirrors[i], query)];
      assert sent == all[..i + 1];
      var outcome := Classify(replies[i]);
      assert outcome == os[i];
      match outcome
      case Success(stations) =>
        FirstSuccessIsFirst(os, i);
        return Ok(stations), sent;
      case Failure(e) =>
        lastResult := Err(e);
    }
    FirstSuccessNone(os);
    assert all[..|Mirrors|] == all;
    result := lastResult;
  }

  /** A blank query (empty or all whitespace) succeeds with no stations and
      contacts no mirror. */
  lemma BlankQueryShortCircuits(query: string, replies: seq<Reply>)
    requires |replies| == |Mirrors|
    requires AllWhitespace(query)
    ensures Search(query, replies) == Ok([])
    ensures Contacted(query, replies) == []
  {
  }

  /** The mirrors are tried in order, at most once each, and every request
      carries the query exactly as given together with the fixed limit. */
  lemma RequestsInMirrorOrder(query: string, replies: seq<Reply>)
    requires |replies| == |Mirrors|
    ensures |Contacted(query, replies)| <= |Mirrors| == 7
    ensures forall i :: 0 <= i < |Contacted(query, replies)| ==>
      Contacted(query, replies)[i] == Request(Mirrors[i] + "/json/stations/search", query, "20")
  {
  }

  /** When mirror k is the first to succeed, the search returns its list
      and has sent exactly k + 1 requests, none to a mirror after k. */
  lemma FirstSuccessWins(query: string, replies: seq<Reply>, k: nat)
    requires |replies| == |Mirrors| && !Blank(query)
    requires k < |Mirrors| && Classify(replies[k]).Success?
    requires forall j :: 0 <= j < k ==> Classify(replies[j]).Failure?
    ensures Search(query, replies) == Ok(Classify(replies[k]).stations)
    ensures Contacted(query, replies) == Requests(query)[..k + 1]
  {
    FirstSuccessIsFirst(Outcomes(replies), k);
  }

  /** When every mirror fails, the search fails with the last mirror's error
      after one request to each mirror. */
  lemma AllFailedLastErrorWins(query: string, replies: seq<Reply>)
    requires |replies| == |Mirrors| && !Blank(query)
    requires forall j :: 0 <= j < |Mirrors| ==> Classify(replies[j]).Failure?
    ensures Search(query, replies) == Err(Classify(replies[|Mirrors| - 1]).error)
    ensures Contacted(query, replies) == Requests(query)
  {
  }

  /** When every mirror fails, the errors of the earlier mirrors do not
      matter: two runs whose last mirror fails alike return the same error. */
  lemma OnlyLastErrorMatters(query: string, replies1: seq<Reply>, replies2: seq<Reply>)
    requires |replies1| == |replies2| == |Mirrors| && !Blank(query)
    requires forall j :: 0 <= j < |Mirrors| ==> Classify(replies1[j]).Failure? && Classify(replies2[j]).Failure?
    requires Classify(replies1[|Mirrors| - 1]) == Classify(replies2[|Mirrors| - 1])
    ensures Search(query, replies1) == Search(query, replies2)
  {
  }

  /** Connection, status and parse failures are alike for the traversal:
      runs that succeed at the same positions send the same requests. */
  lemma FailureKindsTraverseAlike(query: string, replies1: seq<Reply>, replies2: seq<Reply>)
    requires |replies1| == |replies2| == |Mirrors|
    requires forall j :: 0 <= j < |Mirrors| ==> (Classify(replies1[j]).Success? <==> Classify(replies2[j]).Success?)
    ensures Contacted(query, replies1) == Contacted(query, replies2)
    ensures Search(query, replies1).Err? <==> Search(query, replies2).Err?
  {
  }

  /** For a non-blank query the search fails exactly when every mirror
      fails, and a list it returns is some mirror's parsed list: the initial
      empty `Ok` is never what comes back. */
  lemma ResultComesFromMirrors(query: string, replies: seq<Reply>)
    requires |replies| == |Mirrors| && !Blank(query)
    ensures Search(query, replies).Err? <==> forall j :: 0 <= j < |Mirrors| ==> Classify(replies[j]).Failure?
    ensures Search(query, replies).Ok? ==>
      exists k :: 0 <= k < |Mirrors| && Classify(replies[k]) == Success(Search(query, replies).value)
  {
  }

  /** A station whose field holds a value that is neither null nor a string
      turns that mirror's whole reply into a parse failure. */
  lemma WrongFieldTypeIsParseFailure(status: nat, objs: seq<JsonObject>, n: nat, i: nat)
    requires n < |objs| && i < |FieldNames|
    requires FieldNames[i] in objs[n] && objs[n][FieldNames[i]] == JOther
    requires !IsErrorStatus(status)
    ensures Classify(Responded(status, Objects(objs))) == Failure(DecodeError(InvalidTypeDetail))
  {
  }

  /** Query "jazz": the first mirror times out, the second answers 500, the
      third returns two valid station objects. Those two stations come back
      after three requests. */
  lemma ThirdMirrorAnswers(obj1: JsonObject, obj2: JsonObject, replies: seq<Reply>)
    requires |replies| == |Mirrors|
    requires DecodeStation(obj1).Some? && DecodeStation(obj2).Some?
    requires replies[0] == Unreachable("timeout")
    requires replies[1] == Responded(500, Unparsable(""))
    requires replies[2] == Responded(200, Objects([obj1, obj2]))
    ensures Search("jazz", replies) == Ok([DecodeStation(obj1).value, DecodeStation(obj2).value])
    ensures |Contacted("jazz", replies)| == 3
  {
    assert !Blank("jazz") by {
      assert !IsWhitespace('j');
      BlankIffAllWhitespace("jazz");
    }
    var objs := [obj1, obj2];
    assert DecodeStations(objs).value == [DecodeStation(obj1).value, DecodeStation(obj2).value] by {
      assert DecodeStation(objs[0]).Some? && DecodeStation(objs[1]).Some?;
    }
    FirstSuccessWins("jazz", replies, 2);
  }

  /** Every mirror is unreachable: the error that comes back is the last
      mirror's, whatever the earlier ones reported. */
  lemma AllMirrorsUnreachable(details: seq<string>)
    requires |details| == |Mirrors|
    ensures Search("jazz", seq(|Mirrors|, i requires 0 <= i < |Mirrors| => Unreachable(details[i])))
         == Err(ConnectError(details[|Mirrors| - 1]))
  {
  }
}
