/**
 The `/chat` request handlers of both variants and the serverless `health`
 count, as transitions over the exchange log.

 The request body is the value `request.get_json()` returned, with `JNull`
 standing for `None`. Python's truthiness decides the "missing" checks; a
 body that is not an object, or a message that is not a string, makes the
 handler call a method the value does not have, and the resulting exception
 is caught and answered with status 500 (`ServerError`).
 */
module Chat {
  import opened Text
  import opened Selector
  import opened Personas
  import opened History

  datatype Json =
    | JNull
    | JBool(b: bool)
    | JNumber(n: real)
    | JString(s: string)
    | JArray(items: seq<Json>)
    | JObject(fields: map<string, Json>)

  /**
   Python's `bool(value)` for a decoded JSON value: each JSON type has
   exactly one falsy value.
   */
  function Truthy(value: Json): (b: bool)
    ensures !b <==> || value == JNull || value == JBool(false) || value == JNumber(0.0)
                    || value == JString("") || value == JArray([]) || value == JObject(map[])
  {
    match value
    case JNull => false
    case JBool(b) => b
    case JNumber(n) => n != 0.0
    case JString(s) => s != []
    case JArray(items) => items != []
    case JObject(fields) => fields != map[]
  }

  /** The formatted clock readings one serverless request makes, in order. */
  datatype Clocks = Clocks(clock: string, today: string, savedAt: string, repliedAt: string)

  datatype ChatResult =
    | Replied(response: string, timestamp: string)  // 200
    | BadRequest(error: string)                     // 400
    | ServerError                                   // 500; the exception text is not modelled

  datatype Outcome = Outcome(log: Log, result: ChatResult)

  const NoJsonError: string := "No JSON data received"
  const EmptyMessageError: string := "Empty message"

  /** The body carries a `message` string with some non-whitespace in it. */
  ghost predicate HasText(body: Json) {
    && body.JObject?
    && "message" in body.fields
    && body.fields["message"].JString?
    && !AllSpace(body.fields["message"].s)
  }

  /**
   The serverless `/chat`: reject a falsy body, then a message that strips
   to nothing; otherwise reply with the selector and record the exchange.
   */
  function ApiChat(log: Log, body: Json, at: Clocks): (o: Outcome)
    ensures o.result.Replied? <==> HasText(body)
    ensures o.result.Replied? ==>
              var message := Strip(body.fields["message"].s);
              && message != []
              && o.result.response == Respond(ApiPersona(at.clock, at.today), message)
              && o.result.timestamp == at.repliedAt
              && o.log == log + [Exchange(message, o.result.response, at.savedAt)]
    ensures !o.result.Replied? ==> o.log == log
    ensures o.result == BadRequest(NoJsonError) <==> !Truthy(body)
    ensures o.result == BadRequest(EmptyMessageError) <==>
              && body.JObject? && body.fields != map[]
              && ("message" !in body.fields
                  || (body.fields["message"].JString? && AllSpace(body.fields["message"].s)))
    ensures o.result.ServerError? <==>
              && Truthy(body)
              && (!body.JObject? || ("message" in body.fields && !body.fields["message"].JString?))
  {
    if !Truthy(body) then Outcome(log, BadRequest(NoJsonError))
    else if !body.JObject? then Outcome(log, ServerError)
    else
      var raw := if "message" in body.fields then body.fields["message"] else JString("");
      if !raw.JString? then Outcome(log, ServerError)
      else
        var message := Strip(raw.s);
        if message == [] then Outcome(log, BadRequest(EmptyMessageError))
        else
          var reply := Respond(ApiPersona(at.clock, at.today), message);
          Outcome(Save(log, message, reply, at.savedAt), Replied(reply, at.repliedAt))
  }

  /**
   The database-backed app's `/chat`: the emptiness check is made on the
   unstripped message, and nothing is recorded (the save call is disabled).
   */
  function AppChat(body: Json, repliedAt: string): (r: ChatResult)
    ensures r.Replied? <==>
              && body.JObject? && "message" in body.fields
              && body.fields["message"].JString? && body.fields["message"].s != []
    ensures r.Replied? ==>
              && r.response == Respond(AppPersona, Strip(body.fields["message"].s))
              && r.timestamp == repliedAt
    ensures r == BadRequest(EmptyMessageError) <==>
              || !Truthy(body)
              || (body.JObject? && ("message" !in body.fields || !Truthy(body.fields["message"])))
    ensures r.ServerError? <==>
              && Truthy(body)
              && (|| !body.JObject?
                  || ("message" in body.fields && Truthy(body.fields["message"])
                      && !body.fields["message"].JString?))
  {
    if !Truthy(body) then BadRequest(EmptyMessageError)
    else if !body.JObject? then ServerError
    else if "message" !in body.fields || !Truthy(body.fields["message"]) then BadRequest(EmptyMessageError)
    else
      match body.fields["message"]
      case JString(s) => Replied(Respond(AppPersona, Strip(s)), repliedAt)
      case _ => ServerError
  }

  // ---------------------------------------------------------------------
  // The two handlers disagree on whitespace-only messages
  // ---------------------------------------------------------------------

  lemma AppKeysNonEmpty()
    ensures NonEmptyKeys(AppTable)
  {
  }

  /**
   A message of whitespace only is rejected by the serverless handler,
   leaving the log as it was, but passes the app's check and, stripped to
   the empty string, gets the app's default reply.
   */
  lemma WhitespaceOnlyMessage(log: Log, blank: string, at: Clocks)
    requires blank != [] && AllSpace(blank)
    ensures ApiChat(log, JObject(map["message" := JString(blank)]), at)
            == Outcome(log, BadRequest(EmptyMessageError))
    ensures AppChat(JObject(map["message" := JString(blank)]), at.repliedAt)
            == Replied(AppPersona.fallback.Fill(""), at.repliedAt)
  {
    AppKeysNonEmpty();
    EmptyMessageFallsThrough(AppPersona);
  }

  // ---------------------------------------------------------------------
  // A run of requests against the serverless handler
  // ---------------------------------------------------------------------

  /** One request handler: the log before, the body and the clocks in; the outcome out. */
  type Handler = (Log, Json, Clocks) -> Outcome

  /**
   What a handler may do to the log: an answered request appends exactly one
   entry, carrying the response the client received; any other leaves it as is.
   */
  ghost predicate AppendsOnReply(log: Log, o: Outcome) {
    if o.result.Replied? then
      |o.log| == |log| + 1 && o.log[..|log|] == log && o.log[|log|].botResponse == o.result.response
    else
      o.log == log
  }

  /** `handle` called once per (body, clocks) pair, in order, threading the log. */
  function Run(handle: Handler, log: Log, requests: seq<(Json, Clocks)>): (Log, seq<ChatResult>)
    decreases |requests|
  {
    if requests == [] then (log, [])
    else
      var first := handle(log, requests[0].0, requests[0].1);
      var rest := Run(handle, first.log, requests[1..]);
      (rest.0, [first.result] + rest.1)
  }

  /** A run of requests against the serverless `/chat` handler. */
  function Session(log: Log, requests: seq<(Json, Clocks)>): (Log, seq<ChatResult>) {
    Run(ApiChat, log, requests)
  }

  /** The responses the client received with status 200, in order. */
  function Delivered(results: seq<ChatResult>): seq<string> {
    if results == [] then []
    else (if results[0].Replied? then [results[0].response] else []) + Delivered(results[1..])
  }

  /** The log after a run, against the log before and the responses delivered. */
  ghost predicate LoggedInOrder(log: Log, final: Log, results: seq<ChatResult>) {
    && |final| == |log| + |Delivered(results)|
    && final[..|log|] == log
    && forall k :: 0 <= k < |Delivered(results)| ==> final[|log| + k].botResponse == Delivered(results)[k]
  }

  /**
   For any handler that appends exactly on success, after a run of requests
   the log holds its old entries, then one entry per answered request with
   the response that request returned, in request order.
   */
  lemma {:induction false} RunLogsEachReply(handle: Handler, log: Log, requests: seq<(Json, Clocks)>)
    requires forall l, b, a :: AppendsOnReply(l, handle(l, b, a))
    ensures |Run(handle, log, requests).1| == |requests|
    ensures LoggedInOrder(log, Run(handle, log, requests).0, Run(handle, log, requests).1)
    decreases |requests|
  {
    if requests != [] {
      var first := handle(log, requests[0].0, requests[0].1);
      var rest := Run(handle, first.log, requests[1..]);
      RunLogsEachReply(handle, first.log, requests[1..]);
      assert AppendsOnReply(log, first);
      LoggedInOrderStep(log, first, rest.0, rest.1);
    }
  }

  /** One answered-or-rejected step in front of an in-order remainder. */
  lemma LoggedInOrderStep(log: Log, first: Outcome, final: Log, rest: seq<ChatResult>)
    requires AppendsOnReply(log, first)
    requires LoggedInOrder(first.log, final, rest)
    ensures LoggedInOrder(log, final, [first.result] + rest)
  {
    var results := [first.result] + rest;
    assert results[1..] == rest;
    assert final[..|log|] == final[..|first.log|][..|log|];
    if first.result.Replied? {
      assert Delivered(results) == [first.result.response] + Delivered(rest);
      assert final[|log|] == final[..|first.log|][|log|];
      forall k | 1 <= k < |Delivered(results)|
        ensures final[|log| + k].botResponse == Delivered(results)[k]
      {
        assert final[|log| + k] == final[|first.log| + (k - 1)];
      }
    } else {
      assert Delivered(results) == Delivered(rest);
    }
  }

  /** The serverless handler appends exactly on success. */
  lemma ApiChatAppendsOnReply()
    ensures forall l, b, a :: AppendsOnReply(l, ApiChat(l, b, a))
  {
    forall l, b, a ensures AppendsOnReply(l, ApiChat(l, b, a)) {
      var o := ApiChat(l, b, a);
      if o.result.Replied? {
        assert o.log[..|l|] == l;
      }
    }
  }

  /**
   After a run of `/chat` requests the log holds its old entries, then
   exactly one entry per successful request, whose bot response is the one
   that request returned, in request order; rejected requests leave no trace.
   */
  lemma SessionLogsEachReply(log: Log, requests: seq<(Json, Clocks)>)
    ensures |Session(log, requests).1| == |requests|
    ensures |Session(log, requests).0| == |log| + |Delivered(Session(log, requests).1)|
    ensures Session(log, requests).0[..|log|] == log
    ensures forall k :: 0 <= k < |Delivered(Session(log, requests).1)| ==>
              Session(log, requests).0[|log| + k].botResponse == Delivered(Session(log, requests).1)[k]
  {
    ApiChatAppendsOnReply();
    RunLogsEachReply(ApiChat, log, requests);
  }

  // ---------------------------------------------------------------------
  // health
  // ---------------------------------------------------------------------

  /**
   The fields of the `health` report that depend on the state; the constant
   `environment` and `database` fields are not modelled.
   */
  datatype HealthReport = HealthReport(status: string, storage: string, timestamp: string, messagesStored: nat)

  /** The serverless `health` endpoint: `messages_stored` is the length of the log. */
  function Health(log: Log, stamp: string): (h: HealthReport)
    ensures h.messagesStored == |log|
  {
    HealthReport("healthy", "in-memory-only", stamp, |log|)
  }

  /**
   Each `/chat` request moves `messages_stored` by one if it was answered
   with status 200 and leaves it alone otherwise; a clear resets it to 0.
   */
  lemma ChatCountsExchanges(log: Log, body: Json, at: Clocks, stamp: string)
    ensures Health(ApiChat(log, body, at).log, stamp).messagesStored
            == Health(log, stamp).messagesStored + (if ApiChat(log, body, at).result.Replied? then 1 else 0)
    ensures Health(Clear(log), stamp).messagesStored == 0
  {
  }
}
