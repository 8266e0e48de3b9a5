/**
 The agent's request consumer: every delivery is answered, retried as a copy with a higher retry
 count, or put back. What the handling of one request may raise is an oracle; so is what becomes of
 the one publish that a delivery attempts.
 */
module AgentConsumer {
  import opened Wrappers
  import opened Text
  import opened Bag
  import opened Retry

  datatype Body = NotAnObject | JsonObject(requestId: Option<string>, content: string)

  datatype Message = Message(
    body: Body,
    headers: Headers,
    replyTo: Option<string>,
    correlationId: Option<string>,
    routingKey: string,
    exchange: string,
    contentType: string,
    contentEncoding: Option<string>,
    deliveryMode: nat,
    priority: nat,
    messageId: Option<string>,
    messageType: Option<string>,
    userId: Option<string>,
    appId: Option<string>,
    expiration: Option<nat>
  )

  datatype Reply = Reply(replyTo: string, correlationId: string, requestId: string, success: bool, code: string)

  /** How processing one request ends: with an answer or with one of the exceptions told apart. */
  datatype Outcome =
    | Answered
    | InvalidRequest
    | NoClientMessages
    | FactsExtractionFailed
    | DialogCommandFailed(code: string)
    | BackendTimeout
    | BackendFailed(backendCode: Option<string>)
    | TemporaryLlm
    | Unexpected

  datatype Settlement = Acked | Requeued | Rejected

  // ---------- reading a message ----------

  function ExtractRequestId(body: Body): (r: Option<string>)
    ensures r.Some? ==> r.value != ""
  {
    if body.NotAnObject? || body.requestId.None? then None
    else
      var id := TrimSpace(body.requestId.value);
      if id == "" then None else Some(id)
  }

  function RetryCount(m: Message): nat {
    CountIn(m.headers)
  }

  predicate IsRequest(m: Message) {
    && m.replyTo.Some? && m.replyTo.value != ""
    && m.correlationId.Some? && TrimSpace(m.correlationId.value) != ""
    && ExtractRequestId(m.body).Some?
  }

  predicate IsTemporary(outcome: Outcome) {
    match outcome
    case BackendTimeout => true
    case BackendFailed(Some(code)) => code in {"TIMEOUT", "PUBLISH_ERROR", "BACKEND_UNAVAILABLE"}
    case TemporaryLlm => true
    case _ => false
  }

  function FailureCode(outcome: Outcome): string {
    match outcome
    case Answered => ""
    case InvalidRequest => "VALIDATION_ERROR"
    case NoClientMessages => "NO_CLIENT_MESSAGES"
    case FactsExtractionFailed => "ANALYSIS_ERROR"
    case DialogCommandFailed(code) => code
    case BackendTimeout => "TIMEOUT"
    case BackendFailed(code) => if code.Some? && code.value != "" then code.value else "BACKEND_ERROR"
    case TemporaryLlm => "INTERNAL_ERROR"
    case Unexpected => "INTERNAL_ERROR"
  }

  /** publisher.retry: headers are copied and the counter set; the expiration is not carried over. */
  function RetryCopy(m: Message, retryCount: nat): Message {
    m.(headers := m.headers[RETRY_HEADER := IntLike(retryCount)], expiration := None)
  }

  function ReplyTo(m: Message, outcome: Outcome): Reply
    requires IsRequest(m)
  {
    Reply(m.replyTo.value, m.correlationId.value, ExtractRequestId(m.body).value, outcome.Answered?, FailureCode(outcome))
  }

  /** Whom a reply has to reach, and for which request. */
  datatype Ident = Ident(replyTo: string, correlationId: string, requestId: string)

  function IdentOf(m: Message): Ident
    requires IsRequest(m)
  {
    Ident(m.replyTo.value, m.correlationId.value, ExtractRequestId(m.body).value)
  }

  /** A retry copy is the same request, one attempt further on. */
  lemma RetryCopyIsSameRequest(m: Message)
    requires IsRequest(m)
    ensures var c := RetryCopy(m, RetryCount(m) + 1);
            && IsRequest(c) && IdentOf(c) == IdentOf(m) && RetryCount(c) == RetryCount(m) + 1
            && c == m.(headers := c.headers, expiration := None) && c.headers.Keys == m.headers.Keys + {RETRY_HEADER}
            && forall h :: h in m.headers && h != RETRY_HEADER ==> h in c.headers && c.headers[h] == m.headers[h]
  {
  }

  // ---------- one delivery ----------

  /** The broker as the consumer sees it: its queue, the replies published and how deliveries were settled. */
  datatype Broker = Broker(queue: seq<Message>, replies: seq<Reply>, settled: seq<Settlement>)

  /** What the broker holds once it has taken the one publish of a delivery. */
  function Taken(b: Broker, m: Message, outcome: Outcome): Broker
    requires IsRequest(m)
  {
    if IsTemporary(outcome) && RetryCount(m) < MAX_RETRY_ATTEMPTS
    then b.(queue := b.queue + [RetryCopy(m, RetryCount(m) + 1)])
    else b.(replies := b.replies + [ReplyTo(m, outcome)])
  }

  function Settled(b: Broker, settlement: Settlement): Broker {
    b.(settled := b.settled + [settlement])
  }

  function Requeue(b: Broker, m: Message): Broker {
    Settled(b.(queue := b.queue + [m]), Requeued)
  }

  /** What one delivery does to the broker; a delivered message is out of the queue until it is settled. */
  function Handled(b: Broker, m: Message, outcome: Outcome, publish: Publish): Broker {
    if !IsRequest(m) then Settled(b, Rejected)
    else
      match publish
      case Sent => Settled(Taken(b, m, outcome), Acked)
      case Refused => Requeue(b, m)
      case SentButRaised => Requeue(Taken(b, m, outcome), m)
  }

  /** A message is rejected exactly when it has no reply address, no correlation id, or no request id in an object. */
  lemma RejectedIff(b: Broker, m: Message, outcome: Outcome, publish: Publish)
    ensures Handled(b, m, outcome, publish) == b.(settled := b.settled + [Rejected]) <==>
            || m.replyTo.None? || m.replyTo == Some("")
            || m.correlationId.None? || TrimSpace(m.correlationId.value) == ""
            || m.body.NotAnObject? || m.body.requestId.None? || TrimSpace(m.body.requestId.value) == ""
  {
    assert (b.settled + [Rejected])[|b.settled|] == Rejected;
    var t := Handled(b, m, outcome, publish);
    assert IsRequest(m) ==> t.settled[|b.settled|] != Rejected;
  }

  /** The errors that are retried, while the count is below two: a timeout, a temporary error of the model, and three
      codes of the backend. The retry is a copy of the message, with the count one higher; everything else is answered
      at the message's own address, under its trimmed request id. */
  lemma RetriedIff(b: Broker, m: Message, outcome: Outcome)
    requires IsRequest(m)
    ensures var t := Handled(b, m, outcome, Sent);
            var temporary := || outcome == BackendTimeout || outcome == TemporaryLlm
                             || outcome == BackendFailed(Some("TIMEOUT")) || outcome == BackendFailed(Some("PUBLISH_ERROR"))
                             || outcome == BackendFailed(Some("BACKEND_UNAVAILABLE"));
            && t.settled == b.settled + [Acked]
            && (if temporary && CountIn(m.headers) < 2 then
                  && t.replies == b.replies && |t.queue| == |b.queue| + 1 && t.queue[..|b.queue|] == b.queue
                  && t.queue[|b.queue|] ==
                     m.(headers := m.headers["x-retry-count" := IntLike(CountIn(m.headers) + 1)], expiration := None)
                else
                  && t.queue == b.queue && |t.replies| == |b.replies| + 1 && t.replies[..|b.replies|] == b.replies
                  && var r := t.replies[|b.replies|];
                     && Some(r.replyTo) == m.replyTo && Some(r.correlationId) == m.correlationId
                     && r.requestId == TrimSpace(m.body.requestId.value)
                     && r.success == (outcome == Answered)
                     && (outcome == Answered ==> r.code == "")
                     && (outcome == InvalidRequest ==> r.code == "VALIDATION_ERROR")
                     && (outcome == NoClientMessages ==> r.code == "NO_CLIENT_MESSAGES")
                     && (outcome == FactsExtractionFailed ==> r.code == "ANALYSIS_ERROR")
                     && (outcome.DialogCommandFailed? ==> r.code == outcome.code)
                     && (outcome == BackendTimeout ==> r.code == "TIMEOUT")
                     && (outcome.BackendFailed? ==>
                           r.code == (if outcome.backendCode in {None, Some("")} then "BACKEND_ERROR"
                                      else outcome.backendCode.value))
                     && (outcome == TemporaryLlm || outcome == Unexpected ==> r.code == "INTERNAL_ERROR"))
  {
  }

  /** A request is acknowledged exactly when its one publish succeeds; otherwise the message itself is put back, besides
      whatever the publish has left with the broker all the same. */
  lemma AcknowledgedIff(b: Broker, m: Message, outcome: Outcome, publish: Publish)
    requires IsRequest(m)
    ensures var t, sent := Handled(b, m, outcome, publish), Handled(b, m, outcome, Sent);
            && t.settled == b.settled + [if publish.Sent? then Acked else Requeued]
            && (publish.Refused? ==> t.queue == b.queue + [m] && t.replies == b.replies)
            && (publish.SentButRaised? ==> t.queue == sent.queue + [m] && t.replies == sent.replies)
  {
  }

  class AgentConsumer {
    var queue: seq<Message>
    var replies: seq<Reply>
    var settled: seq<Settlement>

    ghost function View(): Broker
      reads this
    {
      Broker(queue, replies, settled)
    }

    constructor (start: seq<Message>)
      ensures View() == Broker(start, [], [])
    {
      queue, replies, settled := start, [], [];
    }

    /** Settles the delivery exactly once, on every path. */
    method HandleMessage(m: Message, outcome: Outcome, publish: Publish)
      modifies this
      ensures View() == Handled(old(View()), m, outcome, publish)
      ensures |settled| == |old(settled)| + 1
    {
      var requestId := ExtractRequestId(m.body);
      if m.replyTo.None? || m.replyTo.value == "" {
        settled := settled + [Rejected];
        return;
      }
      if m.correlationId.None? || TrimSpace(m.correlationId.value) == "" {
        settled := settled + [Rejected];
        return;
      }
      if requestId.None? {
        settled := settled + [Rejected];
        return;
      }
      Process(m, requestId.value, outcome, publish);
    }

    /** Processing a request and answering it, with the exceptions told apart. */
    method Process(m: Message, requestId: string, outcome: Outcome, publish: Publish)
      requires IsRequest(m) && ExtractRequestId(m.body) == Some(requestId)
      modifies this
      ensures View() == Handled(old(View()), m, outcome, publish)
      ensures |settled| == |old(settled)| + 1
    {
      var success, code := false, "";
      match outcome {
        case Answered => success := true;
        case InvalidRequest => code := "VALIDATION_ERROR";
        case NoClientMessages => code := "NO_CLIENT_MESSAGES";
        case FactsExtractionFailed => code := "ANALYSIS_ERROR";
        case DialogCommandFailed(c) => code := c;
        case BackendTimeout =>
          var retried := RetryTemporaryError(m, publish);
          if retried {
            return;
          }
          code := "TIMEOUT";
        case BackendFailed(c) =>
          if c.Some? && c.value in {"TIMEOUT", "PUBLISH_ERROR", "BACKEND_UNAVAILABLE"} {
            var retried := RetryTemporaryError(m, publish);
            if retried {
              return;
            }
          }
          code := if c.Some? && c.value != "" then c.value else "BACKEND_ERROR";
        case TemporaryLlm =>
          var retried := RetryTemporaryError(m, publish);
          if retried {
            return;
          }
          code := "INTERNAL_ERROR";
        case Unexpected => code := "INTERNAL_ERROR";
      }
      PublishReply(m, Reply(m.replyTo.value, m.correlationId.value, requestId, success, code), publish);
    }

    /** Publishes the response and settles the delivery. */
    method PublishReply(m: Message, reply: Reply, publish: Publish)
      modifies this
      ensures replies == if publish.Refused? then old(replies) else old(replies) + [reply]
      ensures queue == if publish.Sent? then old(queue) else old(queue) + [m]
      ensures settled == old(settled) + [if publish.Sent? then Acked else Requeued]
    {
      if !publish.Refused? {
        replies := replies + [reply];
      }
      if !publish.Sent? {
        queue := queue + [m];
        settled := settled + [Requeued];
        return;
      }
      settled := settled + [Acked];
    }

    /** True when the delivery has been settled here, by a retry copy or by a requeue. */
    method RetryTemporaryError(m: Message, publish: Publish) returns (handled: bool)
      modifies this
      ensures handled == (RetryCount(m) < MAX_RETRY_ATTEMPTS) && replies == old(replies)
      ensures !handled ==> queue == old(queue) && settled == old(settled)
      ensures handled ==>
                var copies := if publish.Refused? then [] else [RetryCopy(m, RetryCount(m) + 1)];
                && queue == old(queue) + copies + (if publish.Sent? then [] else [m])
                && settled == old(settled) + [if publish.Sent? then Acked else Requeued]
    {
      var retryCount := RetryCount(m);
      if retryCount >= MAX_RETRY_ATTEMPTS {
        return false;
      }
      if !publish.Refused? {
        queue := queue + [RetryCopy(m, retryCount + 1)];
      }
      if !publish.Sent? {
        queue := queue + [m];
        settled := settled + [Requeued];
        return true;
      }
      settled := settled + [Acked];
      return true;
    }
  }

  // ---------- runs ----------

  /** failures bounds the publishes that the broker will still refuse, doubtful those that will still raise
      although it has taken them. */
  datatype State = State(broker: Broker, failures: nat, doubtful: nat)

  /** The broker hands out any message of its queue. */
  datatype Delivery = Delivery(position: nat, outcome: Outcome, publish: Publish)

  predicate Enabled(s: State, d: Delivery) {
    && d.position < |s.broker.queue|
    && (!d.publish.Sent? ==> IsRequest(s.broker.queue[d.position]))
    && (d.publish.Refused? ==> s.failures > 0)
    && (d.publish.SentButRaised? ==> s.doubtful > 0)
  }

  function Next(s: State, d: Delivery): State
    requires Enabled(s, d)
  {
    var b, m := s.broker, s.broker.queue[d.position];
    State(Handled(b.(queue := Without(b.queue, d.position)), m, d.outcome, d.publish),
          if d.publish.Refused? then s.failures - 1 else s.failures,
          if d.publish.SentButRaised? then s.doubtful - 1 else s.doubtful)
  }

  predicate IsRun(s: State, run: seq<Delivery>)
    decreases |run|
  {
    run == [] || (Enabled(s, run[0]) && IsRun(Next(s, run[0]), run[1..]))
  }

  function Run(s: State, run: seq<Delivery>): State
    requires IsRun(s, run)
    decreases |run|
  {
    if run == [] then s else Run(Next(s, run[0]), run[1..])
  }

  // ---------- work left ----------

  function Weight(m: Message): nat {
    AttemptsLeft(m.headers)
  }

  function WeightOf(m: Message, who: Ident): nat {
    if IsRequest(m) && IdentOf(m) == who then Weight(m) else 0
  }

  function Budget(s: State): nat {
    s.failures + 3 * s.doubtful
  }

  /** A queue message replaced by nothing, by itself, by its retry copy, or by both. */
  lemma NextQueue(s: State, d: Delivery, f: Message -> nat)
    requires Enabled(s, d)
    ensures var m := s.broker.queue[d.position];
            var copied := IsRequest(m) && !d.publish.Refused? && IsTemporary(d.outcome) && RetryCount(m) < MAX_RETRY_ATTEMPTS;
            Sum(Next(s, d).broker.queue, f) ==
            Sum(s.broker.queue, f) - f(m) + (if copied then f(RetryCopy(m, RetryCount(m) + 1)) else 0)
            + (if IsRequest(m) && !d.publish.Sent? then f(m) else 0)
  {
    var m, rest := s.broker.queue[d.position], Without(s.broker.queue, d.position);
    var c := RetryCopy(m, RetryCount(m) + 1);
    SumTake(s.broker.queue, d.position, f);
    SumAppend(rest, c, f);
    SumAppend(rest, m, f);
    SumAppend(rest + [c], m, f);
  }

  /** Every delivery uses up a failure or an attempt; a doubtful failure may cost three attempts. */
  lemma NextUsesWork(s: State, d: Delivery)
    requires Enabled(s, d)
    ensures Budget(Next(s, d)) + Sum(Next(s, d).broker.queue, Weight) < Budget(s) + Sum(s.broker.queue, Weight)
  {
    NextQueue(s, d, Weight);
  }

  /** However deliveries, outcomes and failed publishes are chosen, there are at most
      failures + 3 * doubtful + (sum of the attempts left) of them. */
  lemma {:induction false} RunsAreBounded(s: State, run: seq<Delivery>)
    requires IsRun(s, run)
    ensures |run| <= Budget(s) + Sum(s.broker.queue, Weight)
    decreases |run|
  {
    if run != [] {
      NextUsesWork(s, run[0]);
      RunsAreBounded(Next(s, run[0]), run[1..]);
    }
  }

  /** A run that cannot go on has emptied the queue. */
  lemma StuckMeansDrained(s: State)
    requires forall d :: !Enabled(s, d)
    ensures s.broker.queue == []
  {
    if s.broker.queue != [] {
      var d := Delivery(0, Answered, Sent);
      assert Enabled(s, d);
    }
  }

  /** How often a run processes the request of one identity. */
  function Processed(s: State, run: seq<Delivery>, who: Ident): nat
    requires IsRun(s, run)
    decreases |run|
  {
    if run == [] then 0
    else
      var m := s.broker.queue[run[0].position];
      Processed(Next(s, run[0]), run[1..], who) + (if IsRequest(m) && IdentOf(m) == who then 1 else 0)
  }

  lemma NextUsesWorkOf(s: State, d: Delivery, who: Ident)
    requires Enabled(s, d)
    ensures var m, f := s.broker.queue[d.position], m => WeightOf(m, who);
            Budget(Next(s, d)) + Sum(Next(s, d).broker.queue, f) + (if IsRequest(m) && IdentOf(m) == who then 1 else 0)
            <= Budget(s) + Sum(s.broker.queue, f)
  {
    NextQueue(s, d, m => WeightOf(m, who));
    var m := s.broker.queue[d.position];
    if IsRequest(m) {
      RetryCopyIsSameRequest(m);
    }
  }

  /** One identity is processed at most once per failure and per attempt left on its own messages. */
  lemma {:induction false} ProcessedIsBounded(s: State, run: seq<Delivery>, who: Ident)
    requires IsRun(s, run)
    ensures Processed(s, run, who) <= Budget(s) + Sum(s.broker.queue, m => WeightOf(m, who))
    decreases |run|
  {
    if run != [] {
      NextUsesWorkOf(s, run[0], who);
      ProcessedIsBounded(Next(s, run[0]), run[1..], who);
    }
  }

  /** The message at i is the only request of its identity. */
  predicate OnlyRequest(q: seq<Message>, i: nat)
    requires i < |q|
  {
    && IsRequest(q[i])
    && forall j :: 0 <= j < |q| && j != i && IsRequest(q[j]) ==> IdentOf(q[j]) != IdentOf(q[i])
  }

  lemma OnlyRequestWeighs(q: seq<Message>, i: nat)
    requires i < |q| && OnlyRequest(q, i)
    ensures Sum(q, m => WeightOf(m, IdentOf(q[i]))) == Weight(q[i])
  {
    SumOnly(q, i, m => WeightOf(m, IdentOf(q[i])));
  }

  /** With no failed publish, a request that begins with count 0 is processed at most three times, whatever else is in
      the queue; and when the queue has run dry it has had exactly one reply. */
  lemma AtMostThreeAttempts(q: seq<Message>, i: nat, run: seq<Delivery>)
    requires i < |q| && OnlyRequest(q, i) && RetryCount(q[i]) == 0
    requires IsRun(State(Broker(q, [], []), 0, 0), run)
    ensures var s := State(Broker(q, [], []), 0, 0);
            && Processed(s, run, IdentOf(q[i])) <= 3
            && (Run(s, run).broker.queue == [] ==> AnsweredIn(Run(s, run).broker.replies)[IdentOf(q[i])] == 1)
  {
    var s, who := State(Broker(q, [], []), 0, 0), IdentOf(q[i]);
    ProcessedIsBounded(s, run, who);
    OnlyRequestWeighs(q, i);
    if Run(s, run).broker.queue == [] {
      DrainedMeansAnswered(q, 0, 0, run);
      DoubtsAreBounded(s, run);
      OnlyRequestCounts(q, i);
    }
  }

  // ---------- conservation of requests ----------

  function RequestsIn(q: seq<Message>): multiset<Ident> {
    if q == [] then multiset{}
    else
      var m := q[|q| - 1];
      RequestsIn(q[..|q| - 1]) + (if IsRequest(m) then multiset{IdentOf(m)} else multiset{})
  }

  function AnsweredIn(replies: seq<Reply>): multiset<Ident> {
    if replies == [] then multiset{}
    else
      var r := replies[|replies| - 1];
      AnsweredIn(replies[..|replies| - 1]) + multiset{Ident(r.replyTo, r.correlationId, r.requestId)}
  }

  lemma {:induction false} RequestsConcat(a: seq<Message>, b: seq<Message>)
    ensures RequestsIn(a + b) == RequestsIn(a) + RequestsIn(b)
  {
    if b == [] {
      assert a + b == a;
    } else {
      assert (a + b)[..|a + b| - 1] == a + b[..|b| - 1];
      RequestsConcat(a, b[..|b| - 1]);
    }
  }

  lemma RequestsOfOne(m: Message)
    ensures RequestsIn([m]) == if IsRequest(m) then multiset{IdentOf(m)} else multiset{}
  {
    assert [m][..0] == [];
  }

  lemma RequestsTakeOut(a: seq<Message>, m: Message, b: seq<Message>)
    ensures RequestsIn(a + ([m] + b)) == RequestsIn(a + b) + RequestsIn([m])
  {
    var right := [m] + b;
    RequestsConcat(a, right);
    RequestsConcat([m], b);
    RequestsConcat(a, b);
  }

  lemma CutAt(q: seq<Message>, i: nat)
    requires i < |q|
    ensures q == q[..i] + ([q[i]] + q[i + 1..]) && Without(q, i) == q[..i] + q[i + 1..]
  {
  }

  lemma RequestsWithout(q: seq<Message>, i: nat)
    requires i < |q|
    ensures RequestsIn(q) == RequestsIn(Without(q, i)) + RequestsIn([q[i]])
  {
    CutAt(q, i);
    RequestsTakeOut(q[..i], q[i], q[i + 1..]);
  }

  lemma RequestsMove(q: seq<Message>, i: nat, m: Message)
    requires i < |q|
    ensures RequestsIn(q) == RequestsIn(Without(q, i)) + RequestsIn([q[i]])
    ensures RequestsIn(Without(q, i) + [m]) == RequestsIn(Without(q, i)) + RequestsIn([m])
  {
    RequestsWithout(q, i);
    RequestsConcat(Without(q, i), [m]);
  }

  lemma AnsweredAppend(replies: seq<Reply>, r: Reply)
    ensures AnsweredIn(replies + [r]) == AnsweredIn(replies) + multiset{Ident(r.replyTo, r.correlationId, r.requestId)}
  {
    assert (replies + [r])[..|replies|] == replies;
  }

  lemma RetryCopyCountsSame(m: Message)
    requires IsRequest(m)
    ensures RequestsIn([RetryCopy(m, RetryCount(m) + 1)]) == RequestsIn([m])
  {
    RetryCopyIsSameRequest(m);
    RequestsOfOne(m);
    RequestsOfOne(RetryCopy(m, RetryCount(m) + 1));
  }

  lemma RequestStays(q: seq<Message>, i: nat, c: Message)
    requires i < |q| && RequestsIn([c]) == RequestsIn([q[i]])
    ensures RequestsIn(Without(q, i) + [c]) == RequestsIn(q)
  {
    RequestsMove(q, i, c);
  }

  lemma RequestAnswered(q: seq<Message>, i: nat, replies: seq<Reply>, r: Reply)
    requires i < |q| && RequestsIn([q[i]]) == multiset{Ident(r.replyTo, r.correlationId, r.requestId)}
    ensures RequestsIn(Without(q, i)) + AnsweredIn(replies + [r]) == RequestsIn(q) + AnsweredIn(replies)
  {
    RequestsMove(q, i, q[i]);
    AnsweredAppend(replies, r);
  }

  lemma NotRequestLeaves(q: seq<Message>, i: nat)
    requires i < |q| && !IsRequest(q[i])
    ensures RequestsIn(Without(q, i)) == RequestsIn(q)
  {
    RequestsMove(q, i, q[i]);
    RequestsOfOne(q[i]);
  }

  /** All requests of a broker: still queued, or answered. */
  function Requests(b: Broker): multiset<Ident> {
    RequestsIn(b.queue) + AnsweredIn(b.replies)
  }

  /** A taken publish stands for the delivered request: it was answered, or its copy is queued. */
  lemma TakenConserves(b: Broker, i: nat, outcome: Outcome)
    requires i < |b.queue| && IsRequest(b.queue[i])
    ensures Requests(Taken(b.(queue := Without(b.queue, i)), b.queue[i], outcome)) == Requests(b)
  {
    var q, m := b.queue, b.queue[i];
    if IsTemporary(outcome) && RetryCount(m) < MAX_RETRY_ATTEMPTS {
      RetryCopyCountsSame(m);
      RequestStays(q, i, RetryCopy(m, RetryCount(m) + 1));
    } else {
      RequestsOfOne(m);
      RequestAnswered(q, i, b.replies, ReplyTo(m, outcome));
    }
  }

  lemma RequeueAdds(b: Broker, m: Message)
    requires IsRequest(m)
    ensures Requests(Requeue(b, m)) == Requests(b) + multiset{IdentOf(m)}
  {
    RequestsConcat(b.queue, [m]);
    RequestsOfOne(m);
  }

  lemma RequeueConserves(b: Broker, i: nat)
    requires i < |b.queue|
    ensures Requests(Requeue(b.(queue := Without(b.queue, i)), b.queue[i])) == Requests(b)
  {
    RequestStays(b.queue, i, b.queue[i]);
  }

  /** The requests that a delivery doubles: that of a publish which raised although the broker had taken it. */
  function Doubt(s: State, d: Delivery): multiset<Ident>
    requires Enabled(s, d)
  {
    if d.publish.SentButRaised? then multiset{IdentOf(s.broker.queue[d.position])} else multiset{}
  }

  function Doubts(s: State, run: seq<Delivery>): multiset<Ident>
    requires IsRun(s, run)
    decreases |run|
  {
    if run == [] then multiset{} else Doubts(Next(s, run[0]), run[1..]) + Doubt(s, run[0])
  }

  lemma {:induction false} DoubtsAreBounded(s: State, run: seq<Delivery>)
    requires IsRun(s, run)
    ensures |Doubts(s, run)| <= s.doubtful
    decreases |run|
  {
    if run != [] {
      DoubtsAreBounded(Next(s, run[0]), run[1..]);
    }
  }

  /** A delivery neither loses nor invents a request, it is still queued or it has been answered; only a doubtful
      publish doubles it. */
  lemma NextConserves(s: State, d: Delivery)
    requires Enabled(s, d)
    ensures Requests(Next(s, d).broker) == Requests(s.broker) + Doubt(s, d)
  {
    var b, i := s.broker, d.position;
    var m, rest := b.queue[i], b.(queue := Without(b.queue, i));
    if !IsRequest(m) {
      NotRequestLeaves(b.queue, i);
    } else {
      match d.publish
      case Sent => TakenConserves(b, i, d.outcome);
      case Refused => RequeueConserves(b, i);
      case SentButRaised =>
        TakenConserves(b, i, d.outcome);
        RequeueAdds(Taken(rest, m, d.outcome), m);
    }
  }

  lemma {:induction false} RunConserves(s: State, run: seq<Delivery>)
    requires IsRun(s, run)
    ensures Requests(Run(s, run).broker) == Requests(s.broker) + Doubts(s, run)
    decreases |run|
  {
    if run != [] {
      var s1 := Next(s, run[0]);
      NextConserves(s, run[0]);
      RunConserves(s1, run[1..]);
      assert Run(s, run) == Run(s1, run[1..]);
    }
  }

  /** Every delivery of a run is settled exactly once. */
  lemma {:induction false} RunSettles(s: State, run: seq<Delivery>)
    requires IsRun(s, run)
    ensures |Run(s, run).broker.settled| == |s.broker.settled| + |run|
    decreases |run|
  {
    if run != [] {
      RunSettles(Next(s, run[0]), run[1..]);
    }
  }

  /** When the queue has run dry, through refused publishes too, every request that was in it has been answered at its
      own address and for its own request id: once, and once more for each doubtful publish; nothing else was. */
  lemma DrainedMeansAnswered(start: seq<Message>, failures: nat, doubtful: nat, run: seq<Delivery>)
    requires IsRun(State(Broker(start, [], []), failures, doubtful), run)
    requires Run(State(Broker(start, [], []), failures, doubtful), run).broker.queue == []
    ensures var s := State(Broker(start, [], []), failures, doubtful);
            && AnsweredIn(Run(s, run).broker.replies) == RequestsIn(start) + Doubts(s, run)
            && |Doubts(s, run)| <= doubtful
  {
    var s := State(Broker(start, [], []), failures, doubtful);
    RunConserves(s, run);
    DoubtsAreBounded(s, run);
    var replied := AnsweredIn(Run(s, run).broker.replies);
    assert multiset{} + replied == replied && RequestsIn(start) + multiset{} == RequestsIn(start);
    assert RequestsIn([]) == multiset{} && AnsweredIn([]) == multiset{};
  }

  lemma {:induction false} NoRequestOf(q: seq<Message>, who: Ident)
    requires forall j :: 0 <= j < |q| && IsRequest(q[j]) ==> IdentOf(q[j]) != who
    ensures RequestsIn(q)[who] == 0
  {
    if q != [] {
      NoRequestOf(q[..|q| - 1], who);
    }
  }

  lemma OnlyRequestCounts(q: seq<Message>, i: nat)
    requires i < |q| && OnlyRequest(q, i)
    ensures RequestsIn(q)[IdentOf(q[i])] == 1
  {
    RequestsMove(q, i, q[i]);
    RequestsOfOne(q[i]);
    var rest := Without(q, i);
    forall j | 0 <= j < |rest| && IsRequest(rest[j])
      ensures IdentOf(rest[j]) != IdentOf(q[i])
    {
      assert rest[j] == q[if j < i then j else j + 1];
    }
    NoRequestOf(rest, IdentOf(q[i]));
  }
}
