/**
  The per-user conversation-history store of the chat backend and the
  request to the text-generation service built from it.

  The process-wide dictionary `conversation_history` becomes the `history`
  field of a `ConversationStore` object: a map from a user id to that user's
  ordered list of turns. `AfterAnalyze` says, on values, what one call of the
  handler does to that map and what it answers; the store's `Analyze` method
  performs the same steps in place and is proved to agree with it.

  The network exchange itself (posting the request, reading the status code,
  decoding the JSON payload) is not modelled: its result enters as an
  `Outcome` parameter.
 */
module Conversation {
  import Decimal

  datatype Option<T> = None | Some(value: T)

  datatype Role = System | User | Assistant

  /** One `{"role": ..., "content": ...}` entry of a message list. */
  datatype Turn = Turn(role: Role, content: string)

  const SystemPrompt: string :=
    "You are a mental health assistant. Provide empathetic and helpful responses."

  /** The fixed first entry of every outgoing message list. */
  const SystemTurn: Turn := Turn(System, SystemPrompt)

  /** Provider parameters of the request body, carried as opaque constants. */
  const ModelName: string := "mistralai/Mistral-7B-Instruct-v0.1"
  const Temperature: real := 0.7

  /** The JSON body posted to the chat-completion endpoint. */
  datatype RequestBody = RequestBody(model: string, messages: seq<Turn>, temperature: real)

  /** What came back from the chat-completion endpoint:
      a 200 reply whose payload held `choices[0].message.content`,
      a reply with another status code (and its body text), or
      an exception (connection failure or a payload without the expected fields). */
  datatype Outcome =
    | Ok(content: string)
    | HttpError(code: int, body: string)
    | Failed(detail: string)

  /** How a received HTTP reply is classified: only status 200 leads to reading
      the payload, and a payload lacking the reply text raises, whose message is
      `parseError`. */
  function Classify(status: int, text: string, content: Option<string>, parseError: string): (o: Outcome)
    ensures o.Ok? <==> status == 200 && content.Some?
    ensures o.Ok? ==> content == Some(o.content)
    ensures o.HttpError? <==> status != 200
    ensures o.HttpError? ==> o.code == status && o.body == text
    ensures o.Failed? ==> o.detail == parseError
  {
    if status == 200 then
      match content
      case Some(c) => Ok(c)
      case None => Failed(parseError)
    else HttpError(status, text)
  }

  const ErrorPrefix: string := "Error with Together API: "

  predicate IsPrefix(p: string, s: string) {
    |p| <= |s| && s[..|p|] == p
  }

  /** The reply text for an outcome without a usable completion. */
  function ErrorReply(o: Outcome): (r: string)
    requires !o.Ok?
    ensures IsPrefix(ErrorPrefix, r)
    ensures o.HttpError? ==> r[|ErrorPrefix|..] == Decimal.IntToString(o.code) + " - " + o.body
    ensures o.Failed? ==> r[|ErrorPrefix|..] == o.detail
  {
    match o
    case HttpError(code, body) => ErrorPrefix + Decimal.IntToString(code) + " - " + body
    case Failed(detail) => ErrorPrefix + detail
  }

  /** Two error replies for HTTP failures agree only if the status codes agree. */
  lemma ErrorReplyDeterminesCode(o1: Outcome, o2: Outcome)
    requires o1.HttpError? && o2.HttpError?
    requires ErrorReply(o1) == ErrorReply(o2)
    ensures o1.code == o2.code
  {
    var s1, s2 := Decimal.IntToString(o1.code), Decimal.IntToString(o2.code);
    var r := ErrorReply(o1)[|ErrorPrefix|..];
    assert r == ErrorReply(o2)[|ErrorPrefix|..];
    // The rendered code holds no space, so the first space in the reply ends it.
    CodeEndsAtSpace(o1.code, o1.body);
    CodeEndsAtSpace(o2.code, o2.body);
    assert |s1| == FirstSpace(r) == |s2|;
    assert s1 == r[..|s1|] == s2;
    Decimal.IntToStringInjective(o1.code, o2.code);
  }

  lemma CodeEndsAtSpace(code: int, body: string)
    ensures var s := Decimal.IntToString(code);
      FirstSpace(s + " - " + body) == |s| && (s + " - " + body)[..|s|] == s
  {
    var s := Decimal.IntToString(code);
    Decimal.IntToStringHasNoSpace(code);
    assert s + " - " + body == s + " " + ("- " + body);
    SpaceEndsWord(s, "- " + body);
  }

  /** Index of the first space in `s`, or `|s|` when there is none. */
  function FirstSpace(s: string): (k: nat)
    ensures k <= |s|
  {
    if s == [] || s[0] == ' ' then 0 else 1 + FirstSpace(s[1..])
  }

  lemma {:induction false} SpaceEndsWord(w: string, rest: string)
    requires forall i :: 0 <= i < |w| ==> w[i] != ' '
    ensures FirstSpace(w + " " + rest) == |w|
  {
    if w != [] {
      assert (w + " " + rest)[1..] == w[1..] + " " + rest;
      SpaceEndsWord(w[1..], rest);
    }
  }

  type History = map<string, seq<Turn>>

  /** The turns recorded for `user` so far (none when the user is new). */
  function Prior(h: History, user: string): seq<Turn> {
    if user in h then h[user] else []
  }

  /** Every recorded turn comes from the user or the assistant, and every
      assistant turn answers the user turn just before it. */
  predicate WellFormedTurns(t: seq<Turn>) {
    && (forall i :: 0 <= i < |t| ==> t[i].role != System)
    && (|t| > 0 ==> t[0].role != Assistant)
    && (forall i :: 0 < i < |t| && t[i].role == Assistant ==> t[i - 1].role == User)
  }

  predicate WellFormed(h: History) {
    forall user :: user in h ==> WellFormedTurns(h[user])
  }

  /** The new state of the store, the request that was posted, and the reply. */
  datatype Exchange = Exchange(history: History, request: RequestBody, reply: string)

  /** One call of the handler for `user` with message `message`, when the
      endpoint answers with `outcome`. */
  function AfterAnalyze(h: History, user: string, message: string, outcome: Outcome): (x: Exchange)
    // the user's entry exists afterwards; no other entry appears or changes
    ensures x.history.Keys == h.Keys + {user}
    ensures forall v :: v in h && v != user ==> x.history[v] == h[v]
    // the user's history keeps what it had and grows by the user turn,
    // then by the assistant turn exactly when a completion came back
    ensures |x.history[user]| == |Prior(h, user)| + (if outcome.Ok? then 2 else 1)
    ensures x.history[user][..|Prior(h, user)|] == Prior(h, user)
    ensures x.history[user][|Prior(h, user)|] == Turn(User, message)
    ensures outcome.Ok? ==> x.history[user][|Prior(h, user)| + 1] == Turn(Assistant, outcome.content)
    // the posted messages are the system prompt, then the user's history up to
    // and including the new user turn
    ensures x.request.messages == [SystemTurn] + x.history[user][..|Prior(h, user)| + 1]
    ensures x.request.model == ModelName && x.request.temperature == Temperature
    // the reply is the completion, or an error text
    ensures outcome.Ok? ==> x.reply == outcome.content
    ensures !outcome.Ok? ==> IsPrefix(ErrorPrefix, x.reply)
  {
    var turns := Prior(h, user) + [Turn(User, message)];
    var request := RequestBody(ModelName, [SystemTurn] + turns, Temperature);
    match outcome
    case Ok(reply) =>
      var after := turns + [Turn(Assistant, reply)];
      assert after[..|turns|] == turns;
      Exchange(h[user := after], request, reply)
    case _ =>
      Exchange(h[user := turns], request, ErrorReply(outcome))
  }

  /** Number of turns with role `r`. */
  function Count(t: seq<Turn>, r: Role): nat {
    if t == [] then 0 else Count(t[..|t| - 1], r) + (if t[|t| - 1].role == r then 1 else 0)
  }

  lemma {:induction false} CountAppend(s: seq<Turn>, t: seq<Turn>, r: Role)
    ensures Count(s + t, r) == Count(s, r) + Count(t, r)
  {
    if t != [] {
      assert (s + t)[..|s + t| - 1] == s + t[..|t| - 1];
      CountAppend(s, t[..|t| - 1], r);
    } else {
      assert s + t == s;
    }
  }

  /** In a well-formed history there are never more assistant turns than user
      turns: each reply answers a distinct message. */
  lemma {:induction false} RepliesNeverOutnumberMessages(t: seq<Turn>)
    requires WellFormedTurns(t)
    ensures Count(t, Assistant) <= Count(t, User)
    ensures |t| > 0 && t[|t| - 1].role == User ==> Count(t, Assistant) < Count(t, User)
  {
    if t != [] {
      var front := t[..|t| - 1];
      assert WellFormedTurns(front) by {
        forall i | 0 < i < |front| && front[i].role == Assistant
          ensures front[i - 1].role == User
        {
          assert front[i] == t[i] && front[i - 1] == t[i - 1];
        }
        if |front| > 0 { assert front[0] == t[0]; }
      }
      RepliesNeverOutnumberMessages(front);
      if t[|t| - 1].role == Assistant {
        assert |t| > 1 && front[|front| - 1] == t[|t| - 2];
      }
    }
  }

  /** The turns one call adds to its user's history: the user turn, then the
      assistant turn when a completion came back. */
  function NewTurns(message: string, outcome: Outcome): seq<Turn> {
    [Turn(User, message)] + (if outcome.Ok? then [Turn(Assistant, outcome.content)] else [])
  }

  /** A call only appends to its user's history. */
  lemma AnalyzeExtends(h: History, user: string, message: string, outcome: Outcome)
    ensures AfterAnalyze(h, user, message, outcome).history[user] == Prior(h, user) + NewTurns(message, outcome)
  {
    var p := Prior(h, user);
    var t := AfterAnalyze(h, user, message, outcome).history[user];
    assert t[..|p|] == p;
  }

  /** Appending one call's turns keeps a history well formed. */
  lemma NewTurnsPreserveWellFormed(t: seq<Turn>, message: string, outcome: Outcome)
    requires WellFormedTurns(t)
    ensures WellFormedTurns(t + NewTurns(message, outcome))
  {
    var t' := t + NewTurns(message, outcome);
    forall i | 0 <= i < |t'|
      ensures t'[i].role != System
    {
      if i < |t| { assert t'[i] == t[i]; }
    }
    forall i | 0 < i < |t'| && t'[i].role == Assistant
      ensures t'[i - 1].role == User
    {
      if i < |t| { assert t'[i] == t[i] && t'[i - 1] == t[i - 1]; }
    }
    if |t| > 0 { assert t'[0] == t[0]; }
  }

  /** A call keeps every history well formed. */
  lemma AnalyzePreservesWellFormed(h: History, user: string, message: string, outcome: Outcome)
    requires WellFormed(h)
    ensures WellFormed(AfterAnalyze(h, user, message, outcome).history)
  {
    AnalyzeExtends(h, user, message, outcome);
    assert WellFormedTurns(Prior(h, user));
    NewTurnsPreserveWellFormed(Prior(h, user), message, outcome);
  }

  /** A call records exactly one more user turn for its user, and one more
      assistant turn exactly when the endpoint returned a completion. */
  lemma AnalyzeCounts(h: History, user: string, message: string, outcome: Outcome)
    ensures var t := AfterAnalyze(h, user, message, outcome).history[user];
      Count(t, User) == Count(Prior(h, user), User) + 1 &&
      Count(t, Assistant) == Count(Prior(h, user), Assistant) + (if outcome.Ok? then 1 else 0)
  {
    AnalyzeExtends(h, user, message, outcome);
    NewTurnsCounts(Prior(h, user), message, outcome);
  }

  lemma NewTurnsCounts(t: seq<Turn>, message: string, outcome: Outcome)
    ensures Count(t + NewTurns(message, outcome), User) == Count(t, User) + 1
    ensures Count(t + NewTurns(message, outcome), Assistant) == Count(t, Assistant) + (if outcome.Ok? then 1 else 0)
  {
    var added := NewTurns(message, outcome);
    CountAppend(t, added, User);
    CountAppend(t, added, Assistant);
    var first := [Turn(User, message)];
    assert first[..0] == [];
    assert Count(first, User) == 1 && Count(first, Assistant) == 0;
    if outcome.Ok? {
      assert added[..1] == first;
    } else {
      assert added == first;
    }
  }

  /** The process-wide history store. */
  class ConversationStore {
    var history: History

    ghost predicate Valid()
      reads this
    {
      WellFormed(history)
    }

    constructor ()
      ensures Valid() && history == map[]
    {
      history := map[];
    }

    /** Records the user's message, builds the request from the system prompt
        and the user's history, and on a completion records the reply too.
        Returns the posted request body and the reply text. */
    method Analyze(user: string, message: string, outcome: Outcome) returns (request: RequestBody, reply: string)
      requires Valid()
      modifies this
      ensures Valid()
      ensures history == AfterAnalyze(old(history), user, message, outcome).history
      ensures request == AfterAnalyze(old(history), user, message, outcome).request
      ensures reply == AfterAnalyze(old(history), user, message, outcome).reply
    {
      AnalyzePreservesWellFormed(history, user, message, outcome);
      ghost var x := AfterAnalyze(history, user, message, outcome);
      ghost var before := history;
      ghost var turns := Prior(history, user) + [Turn(User, message)];
      if user !in history {
        history := history[user := []];
      }
      history := history[user := history[user] + [Turn(User, message)]];
      assert history == before[user := turns];
      var messages := [SystemTurn] + history[user];
      request := RequestBody(ModelName, messages, Temperature);
      assert request == x.request;
      match outcome {
        case Ok(content) =>
          history := history[user := history[user] + [Turn(Assistant, content)]];
          reply := content;
          assert history == before[user := turns + [Turn(Assistant, content)]];
        case HttpError(_, _) =>
          reply := ErrorReply(outcome);
        case Failed(_) =>
          reply := ErrorReply(outcome);
      }
    }
  }
}
