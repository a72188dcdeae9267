/**
  The `POST /api/chat` handler and the `GET /api/questions` list of the chat
  backend, on top of the conversation-history store.

  `ChatStep` says, on values, what one request does to the store and what it
  answers; the `Chat` method does it on a `ConversationStore` object. `Replay`
  folds `ChatStep` over a sequence of requests, which lets the lemmas at the
  end speak about a whole run: each user's history depends only on that
  user's own requests, and it counts them exactly.
 */
module ChatApi {
  import opened Conversation

  /** The JSON body of a chat request. A field is `None` when the key is
      absent from the body. */
  datatype ChatRequest = ChatRequest(userId: Option<string>, message: Option<string>)

  /** The JSON reply `{"reply": ..., "status": ...}` and its HTTP status code. */
  datatype ChatResponse = ChatResponse(reply: string, status: string, httpStatus: int)

  datatype ChatResult = ChatResult(history: History, response: ChatResponse)

  const DefaultUser: string := "default_user"
  const InvalidMessageReply: string := "Please enter a valid message."

  /** The user id a request acts on: the one given, or the default one when the
      key is absent (a given empty id is kept as it is). */
  function UserKey(req: ChatRequest): string {
    match req.userId
    case Some(u) => u
    case None => DefaultUser
  }

  /** A request is served only when it carries a non-empty message. */
  predicate Accepted(req: ChatRequest) {
    req.message.Some? && req.message.value != ""
  }

  /** One chat request, when the completion endpoint answers with `outcome`. */
  function ChatStep(h: History, req: ChatRequest, outcome: Outcome): (r: ChatResult)
    // an empty or missing message is a client error and touches no history
    ensures !Accepted(req) ==>
      r.history == h && r.response == ChatResponse(InvalidMessageReply, "error", 400)
    // otherwise the reply of the history handler is relayed with status "response"
    ensures Accepted(req) ==>
      r.response.status == "response" && r.response.httpStatus == 200
    ensures Accepted(req) ==>
      var x := AfterAnalyze(h, UserKey(req), req.message.value, outcome);
      r.history == x.history && r.response.reply == x.reply
    // without a user id, the request is recorded under the default user
    ensures Accepted(req) && req.userId.None? ==>
      r.history.Keys == h.Keys + {DefaultUser} &&
      r.history[DefaultUser] == Prior(h, DefaultUser) + NewTurns(req.message.value, outcome)
  {
    var message := if req.message.Some? then req.message.value else "";
    if message == "" then
      ChatResult(h, ChatResponse(InvalidMessageReply, "error", 400))
    else
      var x := AfterAnalyze(h, UserKey(req), message, outcome);
      AnalyzeExtends(h, UserKey(req), message, outcome);
      ChatResult(x.history, ChatResponse(x.reply, "response", 200))
  }

  /** Serves one chat request on the store. */
  method Chat(store: ConversationStore, req: ChatRequest, outcome: Outcome) returns (response: ChatResponse)
    requires store.Valid()
    modifies store
    ensures store.Valid()
    ensures ChatStep(old(store.history), req, outcome) == ChatResult(store.history, response)
  {
    var user := match req.userId case Some(u) => u case None => DefaultUser;
    var message := match req.message case Some(m) => m case None => "";
    if message == "" {
      response := ChatResponse(InvalidMessageReply, "error", 400);
      return;
    }
    var _, analysis := store.Analyze(user, message, outcome);
    response := ChatResponse(analysis, "response", 200);
  }

  /** The fixed list served by `GET /api/questions`. */
  function Questions(): (qs: seq<string>)
    ensures |qs| == 6
    ensures forall i, j :: 0 <= i < j < |qs| ==> qs[i] != qs[j]
    ensures forall i :: 0 <= i < |qs| ==> qs[i] != ""
  {
    [ "How have you been feeling lately?",
      "Have you experienced any significant changes in your sleep patterns?",
      "Do you often feel anxious or stressed?",
      "Have you lost interest in activities you used to enjoy?",
      "Do you have a support system (friends, family) you can rely on?",
      "How would you rate your overall mood on a scale of 1 to 10?" ]
  }

  /** A chat request together with the endpoint's answer to it. */
  datatype Call = Call(request: ChatRequest, outcome: Outcome)

  /** The store after serving `calls` in order, one at a time. */
  function Replay(h: History, calls: seq<Call>): History
    decreases |calls|
  {
    if calls == [] then h
    else Replay(ChatStep(h, calls[0].request, calls[0].outcome).history, calls[1..])
  }

  /** The served calls that act on `user`, in order. */
  function CallsOf(calls: seq<Call>, user: string): (mine: seq<Call>)
    ensures |mine| <= |calls|
    ensures forall c :: c in mine ==> c in calls && Accepted(c.request) && UserKey(c.request) == user
  {
    if calls == [] then []
    else
      var rest := CallsOf(calls[1..], user);
      if Accepted(calls[0].request) && UserKey(calls[0].request) == user then [calls[0]] + rest else rest
  }

  /** The history a user accumulates from `t` through their own served calls. */
  function Transcript(t: seq<Turn>, mine: seq<Call>): seq<Turn>
    requires forall c :: c in mine ==> Accepted(c.request)
    decreases |mine|
  {
    if mine == [] then t
    else
      assert mine[0] in mine && Accepted(mine[0].request);
      assert forall c :: c in mine[1..] ==> c in mine;
      Transcript(t + NewTurns(mine[0].request.message.value, mine[0].outcome), mine[1..])
  }

  /** Number of calls whose endpoint answer was a completion. */
  function Completed(calls: seq<Call>): nat {
    if calls == [] then 0 else (if calls[0].outcome.Ok? then 1 else 0) + Completed(calls[1..])
  }

  /** Isolation: after any run, a user's history is their history before it
      extended by their own served calls only; other users' requests and
      rejected requests leave it alone. */
  lemma {:induction false} ReplayIsolation(h: History, calls: seq<Call>, user: string)
    ensures Prior(Replay(h, calls), user) == Transcript(Prior(h, user), CallsOf(calls, user))
    decreases |calls|
  {
    if calls != [] {
      var c := calls[0];
      var h' := ChatStep(h, c.request, c.outcome).history;
      ReplayIsolation(h', calls[1..], user);
      if Accepted(c.request) && UserKey(c.request) == user {
        AnalyzeExtends(h, user, c.request.message.value, c.outcome);
        assert Prior(h', user) == Prior(h, user) + NewTurns(c.request.message.value, c.outcome);
        assert ([c] + CallsOf(calls[1..], user))[1..] == CallsOf(calls[1..], user);
      } else {
        assert Prior(h', user) == Prior(h, user);
      }
    }
  }

  /** A transcript gains one user turn per call and one assistant turn per
      completion, and stays well formed. */
  lemma {:induction false} TranscriptCounts(t: seq<Turn>, mine: seq<Call>)
    requires forall c :: c in mine ==> Accepted(c.request)
    ensures Count(Transcript(t, mine), User) == Count(t, User) + |mine|
    ensures Count(Transcript(t, mine), Assistant) == Count(t, Assistant) + Completed(mine)
    ensures WellFormedTurns(t) ==> WellFormedTurns(Transcript(t, mine))
    decreases |mine|
  {
    if mine != [] {
      var message, outcome := mine[0].request.message.value, mine[0].outcome;
      var t' := t + NewTurns(message, outcome);
      NewTurnsCounts(t, message, outcome);
      assert forall c :: c in mine[1..] ==> c in mine;
      TranscriptCounts(t', mine[1..]);
      if WellFormedTurns(t) {
        NewTurnsPreserveWellFormed(t, message, outcome);
      }
    }
  }

  /** After any run, the number of user turns recorded for a user is the number
      they had plus the number of their served requests, and the number of
      assistant turns grows by the number of those that got a completion. */
  lemma ReplayCounts(h: History, calls: seq<Call>, user: string)
    ensures Count(Prior(Replay(h, calls), user), User) ==
      Count(Prior(h, user), User) + |CallsOf(calls, user)|
    ensures Count(Prior(Replay(h, calls), user), Assistant) ==
      Count(Prior(h, user), Assistant) + Completed(CallsOf(calls, user))
  {
    ReplayIsolation(h, calls, user);
    TranscriptCounts(Prior(h, user), CallsOf(calls, user));
  }

  /** Serving requests keeps every history well formed. */
  lemma {:induction false} ReplayPreservesWellFormed(h: History, calls: seq<Call>)
    requires WellFormed(h)
    ensures WellFormed(Replay(h, calls))
    decreases |calls|
  {
    if calls != [] {
      var c := calls[0];
      if Accepted(c.request) {
        AnalyzePreservesWellFormed(h, UserKey(c.request), c.request.message.value, c.outcome);
      }
      ReplayPreservesWellFormed(ChatStep(h, c.request, c.outcome).history, calls[1..]);
    }
  }

  /** A run creates an entry exactly for each user id that a served request
      named, and removes none. */
  lemma {:induction false} ReplayKeys(h: History, calls: seq<Call>, user: string)
    ensures user in Replay(h, calls) <==> user in h || CallsOf(calls, user) != []
    decreases |calls|
  {
    if calls != [] {
      var c := calls[0];
      ReplayKeys(ChatStep(h, c.request, c.outcome).history, calls[1..], user);
    }
  }
}
