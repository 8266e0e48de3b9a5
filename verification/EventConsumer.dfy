/**
 The consumer of domain events: an invalid event is rejected, a crash or a refused retry drops the
 event, a retryable error republishes it with a higher count, and anything else acknowledges it.
 The broker does not redeliver what has been settled, so an event is handled at most three times.
 */
module EventConsumer {
  import opened Wrappers
  import opened Bag
  import opened Domain
  import opened Retry
  import opened ConstructionDelay

  datatype EventBody =
    | Unreadable
    | OfferApproved(offerId: int, dealId: int)
    | OfferRejected(offerId: int, dealId: int)
    | DelayDetected(buildingId: int)

  datatype EventMessage = EventMessage(eventId: string, routingKey: string, body: EventBody, headers: Headers)

  datatype Settlement = Acked | Dropped | Rejected

  /** How handling a valid event ends: a raised exception, the continuation graph's result, or the delay
      workflow fed with what the backend lists. */
  datatype Attempt =
    | Crash
    | Continuation(isError: bool, retryable: bool)
    | Delay(listing: Result<seq<Item>, Failure>)

  predicate IsEvent(m: EventMessage) {
    match m.body
    case Unreadable => false
    case OfferApproved(_, _) => m.routingKey == "event.offer.approved"
    case OfferRejected(_, _) => m.routingKey == "event.offer.rejected"
    case DelayDetected(_) => m.routingKey == "event.construction.delay_detected"
  }

  /** The attempts a valid event can meet: the delay workflow answers only delay events. */
  predicate Fits(m: EventMessage, a: Attempt) {
    match a
    case Crash => true
    case Continuation(_, _) => !m.body.DelayDetected?
    case Delay(_) => m.body.DelayDetected?
  }

  predicate WantsRetry(a: Attempt) {
    match a
    case Crash => false
    case Continuation(isError, retryable) => isError && retryable
    case Delay(Err(f)) => Retryable(f)
    case Delay(Ok(items)) => Interrupted(items)
  }

  /** The listing that the attempt works through. */
  function ItemsOf(a: Attempt): seq<Item> {
    if a.Delay? && a.listing.Ok? then a.listing.value else []
  }

  function CallsOfAttempt(a: Attempt): seq<int> {
    CreateCalls(Reached(ItemsOf(a)))
  }

  function RetryCopy(m: EventMessage): EventMessage {
    m.(headers := m.headers[RETRY_HEADER := IntLike(CountIn(m.headers) + 1)])
  }

  datatype State = State(queue: seq<EventMessage>, settled: seq<Settlement>, createCalls: seq<int>)

  function Handled(s: State, m: EventMessage, a: Attempt, publish: Publish): State {
    if !IsEvent(m) then s.(settled := s.settled + [Rejected])
    else
      var s' := s.(createCalls := s.createCalls + CallsOfAttempt(a));
      if a.Crash? then s'.(settled := s.settled + [Dropped])
      else if WantsRetry(a) && CountIn(m.headers) < MAX_RETRY_ATTEMPTS then
        s'.(queue := if publish.Refused? then s.queue else s.queue + [RetryCopy(m)],
            settled := s.settled + [if publish.Sent? then Acked else Dropped])
      else s'.(settled := s.settled + [Acked])
  }

  /** A message is an event only under the routing key of its kind. */
  lemma EventsAreRouted(m: EventMessage)
    ensures IsEvent(m) <==>
            || (m.body.OfferApproved? && m.routingKey == "event.offer.approved")
            || (m.body.OfferRejected? && m.routingKey == "event.offer.rejected")
            || (m.body.DelayDetected? && m.routingKey == "event.construction.delay_detected")
  {
  }

  /** What one delivery of an event does: a crash drops it; a retryable error with a count below two replaces it by a copy
      with the count one higher, which is lost if the broker refuses it; everything else ends it. */
  lemma DeliveriesMean(s: State, m: EventMessage, a: Attempt, publish: Publish)
    ensures var t := Handled(s, m, a, publish);
            var retryable := match a
                             case Crash => false
                             case Continuation(isError, again) => isError && again
                             case Delay(Err(f)) => ErrorResult(f).retryable
                             case Delay(Ok(items)) => exists i :: 0 <= i < |items| && StopsRun(items[i]);
            && (!IsEvent(m) ==> t == s.(settled := s.settled + [Rejected]))
            && (IsEvent(m) && a == Crash ==> t == s.(settled := s.settled + [Dropped]))
            && (IsEvent(m) && a != Crash && !(retryable && CountIn(m.headers) < 2) ==>
                  t.queue == s.queue && t.settled == s.settled + [Acked])
            && (IsEvent(m) && retryable && CountIn(m.headers) < 2 ==>
                  && t.settled == s.settled + [if publish.Sent? then Acked else Dropped]
                  && (publish.Refused? ==> t.queue == s.queue)
                  && (!publish.Refused? ==>
                        && |t.queue| == |s.queue| + 1 && t.queue[..|s.queue|] == s.queue
                        && t.queue[|s.queue|] == m.(headers := m.headers["x-retry-count" := IntLike(CountIn(m.headers) + 1)])))
  {
    if a.Delay? && a.listing.Ok? {
      ReachedIsPrefix(a.listing.value);
    }
    assert Crash == a ==> CreateCalls([]) == [] && s.createCalls + [] == s.createCalls;
  }

  class DomainEventConsumer {
    var queue: seq<EventMessage>
    var settled: seq<Settlement>
    const workflow: ConstructionDelayWorkflow

    ghost function View(): State
      reads this, workflow
    {
      State(queue, settled, workflow.createCalls)
    }

    constructor (workflow: ConstructionDelayWorkflow, start: seq<EventMessage>)
      ensures this.workflow == workflow && View() == State(start, [], workflow.createCalls)
    {
      this.workflow := workflow;
      queue, settled := start, [];
    }

    method HandleMessage(m: EventMessage, a: Attempt, publish: Publish)
      requires IsEvent(m) ==> Fits(m, a)
      modifies this, workflow
      ensures View() == Handled(old(View()), m, a, publish)
      ensures |settled| == |old(settled)| + 1
    {
      if !IsEvent(m) {
        settled := settled + [Rejected];
        return;
      }
      var isError, retryable := false, false;
      match a {
        case Crash =>
          settled := settled + [Dropped];
          assert View().createCalls == old(View()).createCalls + CallsOfAttempt(a);
          return;
        case Continuation(e, r) => isError, retryable := e, r;
        case Delay(listing) =>
          var result := workflow.Run(listing);
          isError, retryable := result.status == ERROR, result.retryable;
      }
      assert View().createCalls == old(View()).createCalls + CallsOfAttempt(a);
      if isError {
        if retryable && CountIn(m.headers) < MAX_RETRY_ATTEMPTS {
          PublishRetry(m, publish);
          return;
        }
      }
      settled := settled + [Acked];
    }

    method PublishRetry(m: EventMessage, publish: Publish)
      modifies this
      ensures queue == if publish.Refused? then old(queue) else old(queue) + [RetryCopy(m)]
      ensures settled == old(settled) + [if publish.Sent? then Acked else Dropped]
    {
      if !publish.Refused? {
        queue := queue + [RetryCopy(m)];
      }
      if !publish.Sent? {
        settled := settled + [Dropped];
        return;
      }
      settled := settled + [Acked];
    }
  }

  // ---------- runs ----------

  datatype Delivery = Delivery(position: nat, attempt: Attempt, publish: Publish)

  predicate Enabled(s: State, d: Delivery) {
    && d.position < |s.queue|
    && (IsEvent(s.queue[d.position]) ==> Fits(s.queue[d.position], d.attempt))
  }

  function Next(s: State, d: Delivery): State
    requires Enabled(s, d)
  {
    Handled(s.(queue := Without(s.queue, d.position)), s.queue[d.position], d.attempt, d.publish)
  }

  predicate IsRun(s: State, run: seq<Delivery>)
    decreases |run|
  {
    run == [] || (Enabled(s, run[0]) && IsRun(Next(s, run[0]), run[1..]))
  }

  predicate Handles(s: State, d: Delivery, eventId: string)
    requires Enabled(s, d)
  {
    IsEvent(s.queue[d.position]) && s.queue[d.position].eventId == eventId
  }

  function Run(s: State, run: seq<Delivery>): State
    requires IsRun(s, run)
    decreases |run|
  {
    if run == [] then s else Run(Next(s, run[0]), run[1..])
  }

  /** The deliveries of a run that handle an event, in order. */
  function Handling(s: State, run: seq<Delivery>, eventId: string): seq<Delivery>
    requires IsRun(s, run)
    decreases |run|
  {
    if run == [] then []
    else
      var rest := Handling(Next(s, run[0]), run[1..], eventId);
      if Handles(s, run[0], eventId) then [run[0]] + rest else rest
  }

  /** The recommendation.create calls of one delivery for a deal, and of several. */
  function CallsOf(d: Delivery, dealId: int): nat {
    Occurrences(CallsOfAttempt(d.attempt), dealId)
  }

  function CallsIn(h: seq<Delivery>, dealId: int): nat {
    if h == [] then 0 else CallsOf(h[0], dealId) + CallsIn(h[1..], dealId)
  }

  /** The calls that a run makes for a deal on behalf of an event. */
  function CallsFor(s: State, run: seq<Delivery>, eventId: string, dealId: int): nat
    requires IsRun(s, run)
  {
    CallsIn(Handling(s, run, eventId), dealId)
  }

  function WeightOf(eventId: string): EventMessage -> nat {
    (m: EventMessage) => if IsEvent(m) && m.eventId == eventId then AttemptsLeft(m.headers) else 0
  }

  lemma RetryCopyWeighsLess(m: EventMessage, eventId: string)
    requires IsEvent(m) && CountIn(m.headers) < MAX_RETRY_ATTEMPTS
    ensures WeightOf(eventId)(RetryCopy(m)) + (if m.eventId == eventId then 1 else 0) <= WeightOf(eventId)(m)
  {
  }

  lemma NextUsesAttempt(s: State, d: Delivery, eventId: string)
    requires Enabled(s, d)
    ensures Sum(Next(s, d).queue, WeightOf(eventId)) + (if Handles(s, d, eventId) then 1 else 0)
            <= Sum(s.queue, WeightOf(eventId))
  {
    var f, m, rest := WeightOf(eventId), s.queue[d.position], Without(s.queue, d.position);
    SumTake(s.queue, d.position, f);
    if Next(s, d).queue != rest {
      assert Next(s, d).queue == rest + [RetryCopy(m)];
      SumAppend(rest, RetryCopy(m), f);
      RetryCopyWeighsLess(m, eventId);
    }
  }

  lemma {:induction false} AttemptsAreBounded(s: State, run: seq<Delivery>, eventId: string)
    requires IsRun(s, run)
    ensures |Handling(s, run, eventId)| <= Sum(s.queue, WeightOf(eventId))
    decreases |run|
  {
    if run != [] {
      NextUsesAttempt(s, run[0], eventId);
      AttemptsAreBounded(Next(s, run[0]), run[1..], eventId);
    }
  }

  /** No listing of the run shows the deal live more than k times. */
  predicate ListedAtMost(run: seq<Delivery>, dealId: int, k: nat) {
    forall d :: d in run && d.attempt.Delay? && d.attempt.listing.Ok? ==>
      Count(d.attempt.listing.value, LiveDeal(dealId)) <= k
  }

  lemma {:induction false} CallsInBounded(h: seq<Delivery>, dealId: int, k: nat)
    requires forall j :: 0 <= j < |h| ==> CallsOf(h[j], dealId) <= k
    ensures CallsIn(h, dealId) <= k * |h|
  {
    if h != [] {
      var rest := h[1..];
      CallsInBounded(rest, dealId, k);
      MulStep(k, |rest|);
    }
  }

  lemma MulStep(k: nat, n: nat)
    ensures k * (n + 1) == k * n + k
  {
  }

  lemma CallsOfListed(d: Delivery, dealId: int, k: nat)
    requires ListedAtMost([d], dealId, k)
    ensures CallsOf(d, dealId) <= k
  {
    assert d in [d];
    if d.attempt.Delay? && d.attempt.listing.Ok? {
      CallsPerRun(d.attempt.listing.value, dealId);
    }
  }

  lemma {:induction false} HandlingIsPart(s: State, run: seq<Delivery>, eventId: string)
    requires IsRun(s, run)
    ensures forall d :: d in Handling(s, run, eventId) ==> d in run
    decreases |run|
  {
    if run != [] {
      HandlingIsPart(Next(s, run[0]), run[1..], eventId);
    }
  }

  lemma CallsPerAttempt(s: State, run: seq<Delivery>, eventId: string, dealId: int, k: nat)
    requires IsRun(s, run) && ListedAtMost(run, dealId, k)
    ensures CallsFor(s, run, eventId, dealId) <= k * |Handling(s, run, eventId)|
  {
    var h := Handling(s, run, eventId);
    HandlingIsPart(s, run, eventId);
    forall j | 0 <= j < |h|
      ensures CallsOf(h[j], dealId) <= k
    {
      assert h[j] in run;
      CallsOfListed(h[j], dealId, k);
    }
    CallsInBounded(h, dealId, k);
  }

  predicate Of(m: EventMessage, eventId: string) {
    IsEvent(m) && m.eventId == eventId
  }

  /** The message at i is the only one of its event. */
  predicate OnlyMessage(q: seq<EventMessage>, i: nat, eventId: string)
  {
    i < |q| && Of(q[i], eventId) && forall j :: 0 <= j < |q| && j != i ==> !Of(q[j], eventId)
  }

  predicate NoMessage(q: seq<EventMessage>, eventId: string) {
    forall j :: 0 <= j < |q| ==> !Of(q[j], eventId)
  }

  /** An event published once with count 0 is handled at most three times, whatever else is queued; so it
      causes at most three create calls for a deal that no listing repeats, and none for a deal that no
      listing shows pending or under contract. */
  lemma AtMostThreePerEvent(s: State, run: seq<Delivery>, i: nat, eventId: string, dealId: int, k: nat)
    requires IsRun(s, run) && OnlyMessage(s.queue, i, eventId) && CountIn(s.queue[i].headers) == 0
    requires ListedAtMost(run, dealId, k)
    ensures |Handling(s, run, eventId)| <= 3
    ensures CallsFor(s, run, eventId, dealId) <= 3 * k
  {
    AttemptsAreBounded(s, run, eventId);
    SumOnly(s.queue, i, WeightOf(eventId));
    CallsPerAttempt(s, run, eventId, dealId, k);
    MulLe(|Handling(s, run, eventId)|, 3, k);
  }

  lemma MulLe(a: nat, b: nat, k: nat)
    requires a <= b
    ensures k * a <= b * k
  {
  }

  // ---------- when an event repeats a recommendation ----------

  /** The attempt leads to another one: it asks for a retry, the count is not spent, and the broker takes the copy. */
  predicate GoesOn(d: Delivery, count: nat) {
    WantsRetry(d.attempt) && count < MAX_RETRY_ATTEMPTS && !d.publish.Refused?
  }

  lemma OthersStep(s: State, d: Delivery, i: nat, eventId: string) returns (i': nat)
    requires Enabled(s, d) && OnlyMessage(s.queue, i, eventId) && d.position != i
    ensures OnlyMessage(Next(s, d).queue, i', eventId) && Next(s, d).queue[i'] == s.queue[i]
    ensures !Handles(s, d, eventId)
  {
    i' := if d.position < i then i - 1 else i;
    var q, p, rest := s.queue, d.position, Without(s.queue, d.position);
    assert Next(s, d).queue == rest || Next(s, d).queue == rest + [RetryCopy(q[p])];
    assert forall j :: 0 <= j < |rest| ==> rest[j] == q[if j < p then j else j + 1];
  }

  lemma OwnStep(s: State, d: Delivery, eventId: string)
    requires Enabled(s, d) && OnlyMessage(s.queue, d.position, eventId)
    ensures Handles(s, d, eventId)
    ensures var q', m := Next(s, d).queue, s.queue[d.position];
            if GoesOn(d, CountIn(m.headers))
            then OnlyMessage(q', |q'| - 1, eventId) && CountIn(q'[|q'| - 1].headers) == CountIn(m.headers) + 1
            else NoMessage(q', eventId)
  {
    var q, p, rest := s.queue, d.position, Without(s.queue, d.position);
    assert forall j :: 0 <= j < |rest| ==> rest[j] == q[if j < p then j else j + 1];
    if GoesOn(d, CountIn(q[p].headers)) {
      assert Next(s, d).queue == rest + [RetryCopy(q[p])];
    } else {
      assert Next(s, d).queue == rest;
    }
  }

  lemma GoneStep(s: State, d: Delivery, eventId: string)
    requires Enabled(s, d) && NoMessage(s.queue, eventId)
    ensures NoMessage(Next(s, d).queue, eventId) && !Handles(s, d, eventId)
  {
    var q, p, rest := s.queue, d.position, Without(s.queue, d.position);
    assert Next(s, d).queue == rest || Next(s, d).queue == rest + [RetryCopy(q[p])];
    assert forall j :: 0 <= j < |rest| ==> rest[j] == q[if j < p then j else j + 1];
  }

  lemma {:induction false} GoneForGood(s: State, run: seq<Delivery>, eventId: string)
    requires IsRun(s, run) && NoMessage(s.queue, eventId)
    ensures Handling(s, run, eventId) == [] && NoMessage(Run(s, run).queue, eventId)
    decreases |run|
  {
    if run != [] {
      GoneStep(s, run[0], eventId);
      GoneForGood(Next(s, run[0]), run[1..], eventId);
    }
  }

  /** Every attempt but the last led on to the next, each with a count one higher. */
  predicate Chained(h: seq<Delivery>, count: nat) {
    forall j: nat :: j < |h| - 1 ==> GoesOn(h[j], count + j)
  }

  /** The event has come to its end with these attempts. */
  predicate Over(h: seq<Delivery>, count: nat) {
    h != [] && !GoesOn(h[|h| - 1], count + |h| - 1)
  }

  lemma ChainGrows(d: Delivery, rest: seq<Delivery>, count: nat)
    requires GoesOn(d, count) && Chained(rest, count + 1)
    ensures Chained([d] + rest, count) && (Over([d] + rest, count) <==> Over(rest, count + 1))
  {
    forall j: nat | j < |[d] + rest| - 1
      ensures GoesOn(([d] + rest)[j], count + j)
    {
      if j > 0 {
        assert GoesOn(rest[j - 1], count + 1 + (j - 1));
      }
    }
    if rest != [] {
      assert ([d] + rest)[|rest|] == rest[|rest| - 1];
    }
  }

  lemma ChainEnds(d: Delivery, count: nat)
    requires !GoesOn(d, count)
    ensures Chained([d], count) && Over([d], count)
  {
  }

  lemma ChainedFirst(h: seq<Delivery>, count: nat)
    requires Chained(h, count)
    ensures |h| > 1 ==> GoesOn(h[0], count)
  {
    assert |h| > 1 ==> GoesOn(h[0], count + 0);
  }

  /** The attempts of an event are a chain; and it is no longer queued at the end of the run exactly when it has been
      handled and the last attempt did not lead on. */
  lemma {:induction false} AttemptsAreChained(s: State, run: seq<Delivery>, i: nat, eventId: string)
    requires IsRun(s, run) && OnlyMessage(s.queue, i, eventId)
    ensures Chained(Handling(s, run, eventId), CountIn(s.queue[i].headers))
    ensures NoMessage(Run(s, run).queue, eventId) <==> Over(Handling(s, run, eventId), CountIn(s.queue[i].headers))
    decreases |run|, 1
  {
    if run == [] {
      assert Of(s.queue[i], eventId);
    } else if run[0].position != i {
      var i' := OthersStep(s, run[0], i, eventId);
      AttemptsAreChained(Next(s, run[0]), run[1..], i', eventId);
    } else {
      OwnAttempt(s, run, i, eventId);
    }
  }

  lemma {:induction false} OwnAttempt(s: State, run: seq<Delivery>, i: nat, eventId: string)
    requires IsRun(s, run) && OnlyMessage(s.queue, i, eventId) && run != [] && run[0].position == i
    ensures Chained(Handling(s, run, eventId), CountIn(s.queue[i].headers))
    ensures NoMessage(Run(s, run).queue, eventId) <==> Over(Handling(s, run, eventId), CountIn(s.queue[i].headers))
    decreases |run|, 0
  {
    var d, s', c := run[0], Next(s, run[0]), CountIn(s.queue[i].headers);
    OwnStep(s, d, eventId);
    if GoesOn(d, c) {
      AttemptsAreChained(s', run[1..], |s'.queue| - 1, eventId);
      ChainGrows(d, Handling(s', run[1..], eventId), c);
    } else {
      GoneForGood(s', run[1..], eventId);
      ChainEnds(d, c);
      assert [d] + [] == [d];
    }
  }

  /** The most calls for the deal that a single attempt made. */
  function Most(h: seq<Delivery>, dealId: int): nat {
    if h == [] then 0
    else if CallsOf(h[0], dealId) > Most(h[1..], dealId) then CallsOf(h[0], dealId) else Most(h[1..], dealId)
  }

  /** The number of attempts that called for the deal. */
  function CallingAttempts(h: seq<Delivery>, dealId: int): nat {
    if h == [] then 0 else CallingAttempts(h[1..], dealId) + (if CallsOf(h[0], dealId) > 0 then 1 else 0)
  }

  lemma {:induction false} ExceedsIff(h: seq<Delivery>, dealId: int)
    ensures CallsIn(h, dealId) > Most(h, dealId) <==> CallingAttempts(h, dealId) >= 2
    ensures CallsIn(h, dealId) > 0 <==> CallingAttempts(h, dealId) >= 1
    ensures CallsIn(h, dealId) >= Most(h, dealId)
  {
    if h != [] {
      ExceedsIff(h[1..], dealId);
    }
  }

  /** An event's calls for a deal exceed those of a single attempt exactly when two of its attempts reached the deal
      with a create call; and another attempt comes exactly after one that asks for a retry with a count not spent
      and a copy taken by the broker. */
  lemma RepeatsIff(s: State, run: seq<Delivery>, i: nat, eventId: string, dealId: int)
    requires IsRun(s, run) && OnlyMessage(s.queue, i, eventId)
    ensures var h, c := Handling(s, run, eventId), CountIn(s.queue[i].headers);
            && (CallsFor(s, run, eventId, dealId) > Most(h, dealId) <==> CallingAttempts(h, dealId) >= 2)
            && Chained(h, c)
            && (NoMessage(Run(s, run).queue, eventId) <==> Over(h, c))
  {
    AttemptsAreChained(s, run, i, eventId);
    ExceedsIff(Handling(s, run, eventId), dealId);
  }

  lemma {:induction false} SomeAttemptCalls(h: seq<Delivery>, dealId: int)
    ensures CallsIn(h, dealId) > 0 <==> exists k :: 0 <= k < |h| && Calls(ItemsOf(h[k].attempt), dealId)
  {
    if h != [] {
      var rest := h[1..];
      SomeAttemptCalls(rest, dealId);
      CallsIff(ItemsOf(h[0].attempt), dealId);
      if k :| 0 <= k < |rest| && Calls(ItemsOf(rest[k].attempt), dealId) {
        assert rest[k] == h[k + 1];
      }
      if k :| 0 <= k < |h| && Calls(ItemsOf(h[k].attempt), dealId) {
        assert k > 0 ==> h[k] == rest[k - 1];
      }
    }
  }

  /** The calls for the deal that follow item p of attempt j: behind it in the same attempt, and in later attempts. */
  function CallsAfter(h: seq<Delivery>, j: nat, p: nat, dealId: int): nat
    requires j < |h| && p < |ItemsOf(h[j].attempt)|
  {
    Occurrences(CreateCalls(Reached(ItemsOf(h[j].attempt)[p + 1..])), dealId) + CallsIn(h[j + 1..], dealId)
  }

  /** A later item of attempt j, behind p, or a later attempt calls for the deal. */
  ghost predicate CalledAgain(h: seq<Delivery>, j: nat, p: nat, dealId: int)
    requires j < |h| && p < |ItemsOf(h[j].attempt)|
  {
    || Calls(ItemsOf(h[j].attempt)[p + 1..], dealId)
    || exists k :: j < k < |h| && Calls(ItemsOf(h[k].attempt), dealId)
  }

  lemma CalledAgainIff(h: seq<Delivery>, j: nat, p: nat, dealId: int)
    requires j < |h| && p < |ItemsOf(h[j].attempt)|
    ensures CallsAfter(h, j, p, dealId) > 0 <==> CalledAgain(h, j, p, dealId)
  {
    var later := h[j + 1..];
    CallsIff(ItemsOf(h[j].attempt)[p + 1..], dealId);
    SomeAttemptCalls(later, dealId);
    if k :| 0 <= k < |later| && Calls(ItemsOf(later[k].attempt), dealId) {
      assert later[k] == h[k + j + 1];
    }
    if k :| j < k < |h| && Calls(ItemsOf(h[k].attempt), dealId) {
      assert h[k] == later[k - j - 1];
    }
  }

  /** A recommendation that attempt j got confirmed at its item p is repeated by a further attempt only if something
      behind p stops attempt j, the count is not spent and the copy is taken: exactly then there is a further attempt.
      It is repeated exactly when an item that a run gets to, behind p or in a further attempt, calls for the deal. */
  lemma ConfirmedRepeatedIff(s: State, run: seq<Delivery>, i: nat, eventId: string, dealId: int, j: nat, p: nat)
    requires IsRun(s, run) && OnlyMessage(s.queue, i, eventId) && NoMessage(Run(s, run).queue, eventId)
    requires j < |Handling(s, run, eventId)| && ConfirmedAt(ItemsOf(Handling(s, run, eventId)[j].attempt), p, dealId)
    ensures var h := Handling(s, run, eventId);
            && (j + 1 < |h| <==>
                && Interrupted(ItemsOf(h[j].attempt)[p + 1..])
                && CountIn(s.queue[i].headers) + j < MAX_RETRY_ATTEMPTS
                && !h[j].publish.Refused?)
            && (CallsAfter(h, j, p, dealId) > 0 <==> CalledAgain(h, j, p, dealId))
  {
    var h, c := Handling(s, run, eventId), CountIn(s.queue[i].headers);
    AttemptsAreChained(s, run, i, eventId);
    ConfirmedDoesNotStop(ItemsOf(h[j].attempt), p, dealId);
    assert j + 1 < |h| <==> GoesOn(h[j], c + j);
    CalledAgainIff(h, j, p, dealId);
  }

  /** Without an attempt that leads on, because none asks for a retry, the count is spent or no copy is taken, the
      event is handled at most once and repeats nothing. */
  lemma NothingRepeated(s: State, run: seq<Delivery>, i: nat, eventId: string, dealId: int, k: nat)
    requires IsRun(s, run) && OnlyMessage(s.queue, i, eventId) && ListedAtMost(run, dealId, k)
    requires forall d :: d in run ==> !GoesOn(d, CountIn(s.queue[i].headers))
    ensures |Handling(s, run, eventId)| <= 1 && CallsFor(s, run, eventId, dealId) <= k
  {
    var h := Handling(s, run, eventId);
    AttemptsAreChained(s, run, i, eventId);
    HandlingIsPart(s, run, eventId);
    assert forall j :: 0 <= j < |h| ==> h[j] in h;
    ChainedFirst(h, CountIn(s.queue[i].headers));
    CallsPerAttempt(s, run, eventId, dealId, k);
    MulLe(|h|, 1, k);
  }

  lemma TimeoutAttempt()
    ensures WantsRetry(TimeoutDelivery().attempt) && Occurrences(CallsOfAttempt(TimeoutDelivery().attempt), 1) == 1
  {
    FirstConfirmed(TimeoutDelivery().attempt.listing.value);
  }

  lemma OnlyEventRetried(s: State, m: EventMessage, d: Delivery)
    requires s.queue == [m] && IsEvent(m) && d.position == 0 && Fits(m, d.attempt)
    requires WantsRetry(d.attempt) && d.publish.Sent?
    ensures Enabled(s, d) && Handles(s, d, m.eventId)
    ensures Next(s, d).queue == if CountIn(m.headers) < MAX_RETRY_ATTEMPTS then [RetryCopy(m)] else []
  {
    assert Without(s.queue, 0) == [];
  }

  lemma CallsForStep(s: State, d: Delivery, rest: seq<Delivery>, eventId: string, dealId: int)
    requires Enabled(s, d) && Handles(s, d, eventId) && IsRun(Next(s, d), rest)
    ensures IsRun(s, [d] + rest)
    ensures CallsFor(s, [d] + rest, eventId, dealId) == CallsOf(d, dealId) + CallsFor(Next(s, d), rest, eventId, dealId)
  {
    assert ([d] + rest)[1..] == rest;
    var h := Handling(Next(s, d), rest, eventId);
    assert ([d] + h)[1..] == h;
  }

  function Repeated(d: Delivery, n: nat): seq<Delivery> {
    if n == 0 then [] else [d] + Repeated(d, n - 1)
  }

  /** An attempt that creates for a deal and asks for a retry can be repeated as often as the count allows. */
  lemma {:induction false} AttemptRepeats(s: State, m: EventMessage, d: Delivery, dealId: int, n: nat)
    requires s.queue == [m] && IsEvent(m) && n + CountIn(m.headers) <= 3
    requires d.position == 0 && Fits(m, d.attempt) && WantsRetry(d.attempt) && d.publish.Sent? && CallsOf(d, dealId) == 1
    ensures IsRun(s, Repeated(d, n)) && CallsFor(s, Repeated(d, n), m.eventId, dealId) == n
    decreases n
  {
    if n > 0 {
      OnlyEventRetried(s, m, d);
      if n > 1 {
        AttemptRepeats(Next(s, d), RetryCopy(m), d, dealId, n - 1);
      }
      CallsForStep(s, d, Repeated(d, n - 1), m.eventId, dealId);
    }
  }

  /** Retries repeat confirmed work: a deal confirmed each time gets a recommendation per attempt, three in
      all, when the deal after it keeps timing out. */
  lemma RetriesDuplicateRecommendations(s: State, m: EventMessage, n: nat)
    requires s.queue == [m] && IsEvent(m) && m.body.DelayDetected? && n + CountIn(m.headers) <= 3
    ensures IsRun(s, Repeated(TimeoutDelivery(), n))
    ensures CallsFor(s, Repeated(TimeoutDelivery(), n), m.eventId, 1) == n
  {
    TimeoutAttempt();
    AttemptRepeats(s, m, TimeoutDelivery(), 1, n);
  }

  function TimeoutDelivery(): Delivery {
    Delivery(0, Delay(Ok([Item(AffectedDeal(1, Pending), Confirmed),
                          Item(AffectedDeal(2, Pending), ReadFailed(BackendTimeout))])), Sent)
  }

  lemma FirstConfirmed(items: seq<Item>)
    requires items == [Item(AffectedDeal(1, Pending), Confirmed), Item(AffectedDeal(2, Pending), ReadFailed(BackendTimeout))]
    ensures Interrupted(items) && Occurrences(CreateCalls(Reached(items)), 1) == 1
  {
    StopAt(items, 1);
    assert items[..2] == items;
    PrefixStep(items, 0);
    PrefixStep(items, 1);
    assert items[..0] == [];
    assert CreateCalls(items) == [1];
    assert [1][..0] == [];
  }
}
