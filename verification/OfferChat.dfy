/**
 A chat request on its way through the offer agent: the pending offer, the discount, the graph, and what the request
 consumer makes of the outcome. The router, the model and the backend may do anything.
 */
module OfferChat {
  import opened Wrappers
  import opened Text
  import opened Domain
  import opened Retry
  import A = AgentConsumer
  import D = DiscountExtraction
  import G = OfferGraph
  import P = PendingOffers

  /** message stands for the text; hasWord and explicit are what is found in it. */
  datatype Chat = Chat(
    userId: int,
    sessionId: int,
    dealId: Option<int>,
    message: string,
    hasWord: bool,
    explicit: seq<D.Decimal>,
    selection: Selection
  )

  /** The router's choice: the offer agent, another agent with whatever comes of it, or an exception. */
  datatype Route = ToOffer(intent: G.Intent) | Elsewhere(outcome: A.Outcome) | RouteFails(temporary: bool)

  /** All that happens around one request. others are operations of other requests on the pending offers while the model
      is asked for the discount; now and stamp are readings of the clock. */
  datatype Surroundings = Surroundings(
    route: Route,
    direct: Result<string, bool>,
    answers: seq<D.ModelAnswer>,
    others: seq<P.Event>,
    world: G.World,
    now: real,
    stamp: real
  )

  predicate WellAnswered(answers: seq<D.ModelAnswer>) {
    |answers| == 2 && forall k :: 0 <= k < 2 && answers[k].Answer? ==> D.MeetsSchema(answers[k].extracted)
  }

  /** What the consumer sees of an exception of the model. */
  function ModelFailure(temporary: bool): A.Outcome {
    if temporary then A.TemporaryLlm else A.Unexpected
  }

  /** What the consumer sees of a run of the graph: an answer, or the one error that leaves it. */
  predicate FromGraph(outcome: A.Outcome) {
    outcome == A.Answered || outcome == A.BackendFailed(Some("FORBIDDEN"))
  }

  /** Nothing that comes out of the graph is retried. */
  lemma GraphIsNotRetried(outcome: A.Outcome)
    requires FromGraph(outcome)
    ensures !A.IsTemporary(outcome)
  {
  }

  function IntentFor(creates: bool): G.Intent {
    if creates then G.CreateToo else G.CalculateOnly
  }

  function RequestOf(c: Chat, intent: G.Intent, dealId: int): P.Request {
    P.Request(intent == G.CreateToo, dealId, c.message, c.selection.parking, c.selection.storage)
  }

  /** A hundred times an accepted discount. */
  function Points(value: D.Decimal): int {
    (100 * value.coefficient) / Pow10(value.places)
  }

  lemma PointsAre(value: D.Decimal, points: int)
    requires D.IsHundredfold(value, points)
    ensures Points(value) == points
  {
    D.RemainderIsZero(100 * value.coefficient, Pow10(value.places), points);
  }

  /** The decided discount can be sent: zero, or the percentage of the text. */
  lemma DecidedPoints(context: bool, explicit: seq<D.Decimal>, e: D.Extracted, value: D.Decimal)
    requires D.Settles(context, explicit, e) && value == if e.mentioned then e.requested.value else D.ZERO
    ensures Points(value) >= 0 && D.IsHundredfold(value, Points(value))
  {
    if e.mentioned {
      var points := D.DiscountReachesBackend(value, explicit);
      PointsAre(value, points);
    } else {
      PointsAre(D.ZERO, 0);
    }
  }

  /** The offer.create calls among some tool calls. */
  function Creations(calls: seq<G.Call>): nat {
    if calls == [] then 0
    else Creations(calls[..|calls| - 1]) + (if calls[|calls| - 1].CreateOffer? then 1 else 0)
  }

  lemma {:induction false} OneCreationInOrder(calls: seq<G.Call>, s: G.State, w: G.World)
    requires G.InOrder(calls, s, w)
    ensures Creations(calls) == if |calls| >= 5 then 1 else 0
  {
    if calls != [] {
      OneCreationInOrder(calls[..|calls| - 1], s, w);
      assert G.KindOf(calls[|calls| - 1]) == G.CALL_ORDER[|calls| - 1];
    }
  }

  /** Every call is about this deal, manager, discount and selection, and only a request to create an offer creates one. */
  predicate About(calls: seq<G.Call>, userId: int, dealId: int, points: int, creates: bool, selection: Selection) {
    forall k :: 0 <= k < |calls| ==>
      match calls[k]
      case GetDeal(d) => d == dealId
      case CalculateOffer(d, u, p, s) => d == dealId && u == userId && p == points && s == selection
      case CreateOffer(d, u, _, _, s) => creates && d == dealId && u == userId && s == selection
      case RequestApproval(_, u) => creates && u == userId
      case _ => true
  }

  /** The calls of a run in terms of its inputs: the offer is calculated with the given discount, and created with the
      one that the calculation echoed and the text that the model wrote. */
  lemma CallsAreAbout(calls: seq<G.Call>, userId: int, dealId: int, intent: G.Intent, points: nat, selection: Selection,
                      w: G.World)
    requires G.InOrder(calls, G.InitialState(userId, dealId, intent, points, selection), w)
    ensures About(calls, userId, dealId, points, intent == G.CreateToo, selection)
    ensures forall k :: 0 <= k < |calls| && calls[k].CreateOffer? ==>
              && w.calculation.Got? && calls[k].discount == w.calculation.value.discount && w.text == Some(calls[k].text)
  {
    forall k | 0 <= k < |calls|
      ensures G.KindOf(calls[k]) == G.CALL_ORDER[k]
    {
    }
  }

  /** points is a hundred times the discount that the model's last word settles: the one it found, or zero. */
  ghost predicate SentPoints(points: nat, last: D.ModelAnswer) {
    && last.Answer?
    && (if last.extracted.mentioned
        then last.extracted.requested.Some? && D.IsHundredfold(last.extracted.requested.value, points) else points == 0)
  }

  /** The graph was run with the manager's own discount: its calls are those of such a run, and it was answered with
      FORBIDDEN exactly when the backend said so. */
  ghost predicate RanWith(calls: seq<G.Call>, x: Surroundings, userId: int, dealId: int, creates: bool, selection: Selection,
                          outcome: A.Outcome)
    requires |x.answers| == 2
  {
    exists points: nat :: SentPoints(points, D.LastWord(x.answers))
                          && Ran(calls, x.world, userId, dealId, creates, points, selection, outcome)
  }

  ghost predicate Ran(calls: seq<G.Call>, w: G.World, userId: int, dealId: int, creates: bool, points: nat,
                      selection: Selection, outcome: A.Outcome) {
    var s0 := G.InitialState(userId, dealId, IntentFor(creates), points, selection);
    && About(calls, userId, dealId, points, creates, selection) && G.InOrder(calls, s0, w)
    && outcome == (if G.MeetsForbidden(w, s0) then A.BackendFailed(Some("FORBIDDEN")) else A.Answered)
    && (outcome == A.Answered ==> |calls| == G.CallCount(s0, w))
  }

  /** One operation was added to the history: the message stays pending for its key with its intent, deal and units. */
  predicate Remembered(history: seq<P.Event>, before: seq<P.Event>, c: Chat, creates: bool, dealId: int, x: Surroundings) {
    && |history| == |before| + 1 && history[..|before|] == before
    && var e := history[|before|];
       && e.Remember? && e.k == P.Key(c.userId, c.sessionId) && e.now == x.now && e.stamp == x.stamp
       && e.request.createOffer == creates && e.request.dealId == dealId && e.request.message == c.message
       && e.request.parkingUnitId == c.selection.parking && e.request.storageUnitId == c.selection.storage
  }

  /** What a new offer request comes to: before and after are the histories of the pending offers, calls the new calls. */
  ghost predicate Generated(c: Chat, creates: bool, x: Surroundings, before: seq<P.Event>, after: seq<P.Event>,
                            calls: seq<G.Call>, outcome: A.Outcome)
    requires |x.answers| == 2
  {
    var h, last, asked := before + x.others, D.LastWord(x.answers), !D.RejectedAtOnce(c.hasWord, c.explicit);
    if c.dealId.None? then
      after == h && calls == []
      && outcome == (if x.direct.Ok? then A.Answered else if x.direct.error then A.TemporaryLlm else A.Unexpected)
    else if asked && last.Raises? then
      after == h && calls == [] && outcome == (if last.temporary then A.TemporaryLlm else A.Unexpected)
    else if asked && last.Answer? && D.Settles(c.hasWord, c.explicit, last.extracted) then
      && after == h + [P.Clear(P.Key(c.userId, c.sessionId))] && FromGraph(outcome)
      && RanWith(calls, x, c.userId, c.dealId.value, creates, c.selection, outcome)
    else
      outcome == A.Answered && calls == [] && Remembered(after, h, c, creates, c.dealId.value, x)
  }

  /** What a follow-up comes to for the pending offer found: the discount is the follow-up's, deal, units and intent are
      those of the pending request. */
  ghost predicate Resumed(c: Chat, found: P.PendingOffer, x: Surroundings, before: seq<P.Event>, after: seq<P.Event>,
                          calls: seq<G.Call>, outcome: A.Outcome)
    requires |x.answers| == 2
  {
    var k, r := P.Key(c.userId, c.sessionId), found.request;
    var h, last, asked := before + [P.Get(k, x.now)] + x.others, D.LastWord(x.answers), !D.RejectedAtOnce(true, c.explicit);
    if asked && last.Raises? then
      after == h && calls == [] && outcome == (if last.temporary then A.TemporaryLlm else A.Unexpected)
    else if asked && last.Answer? && D.Settles(true, c.explicit, last.extracted) then
      && after == h + [P.Clear(k)] && FromGraph(outcome)
      && RanWith(calls, x, c.userId, r.dealId, r.createOffer, Selection(r.parkingUnitId, r.storageUnitId), outcome)
    else
      outcome == A.Answered && calls == [] && after == h
  }

  /** calls has grown from before by at most one offer.create. */
  predicate Extends(calls: seq<G.Call>, before: seq<G.Call>) {
    |calls| >= |before| && calls[..|before|] == before && Creations(calls[|before|..]) <= 1
  }

  /** A pending offer is resumed; without one the router's choice decides. */
  ghost predicate Answers(c: Chat, x: Surroundings, table: P.Table, before: seq<P.Event>, after: seq<P.Event>,
                          calls: seq<G.Call>, outcome: A.Outcome)
    requires |x.answers| == 2
  {
    var k := P.Key(c.userId, c.sessionId);
    var found := P.Lookup(P.Purged(table, x.now), k);
    if found.Some? then Resumed(c, found.value, x, before, after, calls, outcome)
    else
      match x.route
      case ToOffer(intent) => Generated(c, intent == G.CreateToo, x, before + [P.Get(k, x.now)], after, calls, outcome)
      case Elsewhere(other) => after == before + [P.Get(k, x.now)] && calls == [] && outcome == other
      case RouteFails(temporary) =>
        after == before + [P.Get(k, x.now)] && calls == [] && outcome == (if temporary then A.TemporaryLlm else A.Unexpected)
  }

  lemma TakenByClear(before: seq<P.Event>, others: seq<P.Event>, k: P.Key)
    ensures var table, cleared := P.TableAfter(before + others), P.TableAfter(before + others + [P.Clear(k)]);
            P.Monotonic(before + others) ==>
              P.ClearFinds(before, others, k, P.Lookup(table, k)) && P.Lookup(cleared, k).None?
  {
    if P.Monotonic(before + others) {
      P.ResumeDropsNewerIff(before, others, k);
    }
  }

  lemma PointsAreSent(value: D.Decimal, answers: seq<D.ModelAnswer>)
    requires |answers| == 2 && D.LastWord(answers).Answer?
    requires var e := D.LastWord(answers).extracted;
             (e.mentioned ==> e.requested.Some?) && value == (if e.mentioned then e.requested.value else D.ZERO)
    requires Points(value) >= 0 && D.IsHundredfold(value, Points(value))
    ensures SentPoints(Points(value), D.LastWord(answers))
  {
    PointsAre(D.ZERO, 0);
  }

  class OfferChatAgent {
    const pending: P.OfferAgent
    const graph: G.OfferGraph

    constructor (pending: P.OfferAgent, graph: G.OfferGraph)
      ensures this.pending == pending && this.graph == graph
    {
      this.pending, this.graph := pending, graph;
    }

    /** The graph for every world: its outcome is an answer, or FORBIDDEN exactly when the backend said so. */
    method RunGraph(userId: int, dealId: int, intent: G.Intent, value: D.Decimal, selection: Selection, w: G.World)
      returns (outcome: A.Outcome)
      requires Points(value) >= 0 && D.IsHundredfold(value, Points(value))
      modifies graph
      ensures FromGraph(outcome) && !A.IsTemporary(outcome)
      ensures outcome == A.BackendFailed(Some("FORBIDDEN")) <==>
              G.MeetsForbidden(w, G.InitialState(userId, dealId, intent, Points(value), selection))
      ensures Extends(graph.calls, old(graph.calls))
      ensures G.InOrder(graph.calls[|old(graph.calls)|..], G.InitialState(userId, dealId, intent, Points(value), selection), w)
      ensures Ran(graph.calls[|old(graph.calls)|..], w, userId, dealId, intent == G.CreateToo, Points(value), selection, outcome)
    {
      var s0 := G.InitialState(userId, dealId, intent, Points(value), selection);
      var r := graph.Run(s0, w);
      OneCreationInOrder(graph.calls[|old(graph.calls)|..], s0, w);
      CallsAreAbout(graph.calls[|old(graph.calls)|..], userId, dealId, intent, Points(value), selection, w);
      outcome := if r.Some? then A.Answered else A.BackendFailed(Some("FORBIDDEN"));
    }

    /** OfferAgent.generate. */
    method Generate(c: Chat, intent: G.Intent, x: Surroundings) returns (outcome: A.Outcome)
      requires pending.Valid() && WellAnswered(x.answers)
      modifies pending, graph
      ensures pending.Valid()
      ensures Extends(graph.calls, old(graph.calls))
      ensures graph.calls != old(graph.calls) ==> FromGraph(outcome)
      ensures A.IsTemporary(outcome) ==>
                graph.calls == old(graph.calls) && pending.pendingOffers == P.AfterAll(old(pending.pendingOffers), x.others)
      ensures Generated(c, intent == G.CreateToo, x, old(pending.history), pending.history,
                        graph.calls[|old(graph.calls)|..], outcome)
    {
      if c.dealId.None? {
        pending.RunOthers(x.others);
        return if x.direct.Ok? then A.Answered else ModelFailure(x.direct.error);
      }
      var decision, _ := D.ExtractDiscount(c.hasWord, false, c.explicit, x.answers);
      pending.RunOthers(x.others);
      match decision {
        case Fails(temporary) => outcome := ModelFailure(temporary);
        case Respond(_) =>
          pending.RememberPending(c.userId, Some(c.sessionId), RequestOf(c, intent, c.dealId.value), x.now, x.stamp);
          outcome := A.Answered;
        case Discount(value) =>
          DecidedPoints(c.hasWord, c.explicit, D.LastWord(x.answers).extracted, value);
          pending.ClearPending(c.userId, Some(c.sessionId));
          outcome := RunGraph(c.userId, c.dealId.value, intent, value, c.selection, x.world);
          PointsAreSent(value, x.answers);
      }
    }

    /** OfferAgent.resume_pending; None when no offer is pending. taken is what its clear takes out of the table: the
        offer found, or one that others have put there since. */
    method ResumePending(c: Chat, x: Surroundings) returns (outcome: Option<A.Outcome>, ghost taken: Option<P.PendingOffer>)
      requires pending.Valid() && WellAnswered(x.answers)
      modifies pending, graph
      ensures pending.Valid()
      ensures var purged := P.Purged(old(pending.pendingOffers), x.now);
              && (outcome.None? <==> P.Lookup(purged, P.Key(c.userId, c.sessionId)).None?)
              && (outcome.None? ==> pending.pendingOffers == purged && graph.calls == old(graph.calls))
              && (outcome.Some? && A.IsTemporary(outcome.value) ==>
                    pending.pendingOffers == P.AfterAll(purged, x.others) && graph.calls == old(graph.calls))
      ensures Extends(graph.calls, old(graph.calls))
      ensures graph.calls != old(graph.calls) ==> outcome.Some? && FromGraph(outcome.value)
      ensures var k := P.Key(c.userId, c.sessionId);
              var before := old(pending.history) + [P.Get(k, x.now)];
              && (outcome.None? ==> pending.history == before)
              && (outcome.Some? ==>
                    Resumed(c, P.Lookup(P.Purged(old(pending.pendingOffers), x.now), k).value, x, old(pending.history),
                            pending.history, graph.calls[|old(graph.calls)|..], outcome.value))
              && (outcome.Some? ==> pending.history == before + x.others
                                    || pending.history == before + x.others + [P.Clear(k)])
              && (graph.calls != old(graph.calls) ==> pending.history == before + x.others + [P.Clear(k)])
              && (P.Monotonic(before + x.others) && pending.history == before + x.others + [P.Clear(k)] ==>
                    P.ClearFinds(before, x.others, k, taken) && P.Lookup(pending.pendingOffers, k).None?)
    {
      taken := None;
      var found := pending.GetPending(c.userId, c.sessionId, x.now);
      if found.None? {
        return None, None;
      }
      var request := found.value.request;
      var decision, _ := D.ExtractDiscount(c.hasWord, true, c.explicit, x.answers);
      pending.RunOthers(x.others);
      match decision {
        case Fails(temporary) => outcome := Some(ModelFailure(temporary));
        case Respond(_) => outcome := Some(A.Answered);
        case Discount(value) =>
          DecidedPoints(true, c.explicit, D.LastWord(x.answers).extracted, value);
          taken := P.Lookup(pending.pendingOffers, P.Key(c.userId, c.sessionId));
          TakenByClear(old(pending.history) + [P.Get(P.Key(c.userId, c.sessionId), x.now)], x.others,
                       P.Key(c.userId, c.sessionId));
          pending.ClearPending(c.userId, Some(c.sessionId));
          var selection := Selection(request.parkingUnitId, request.storageUnitId);
          var answered := RunGraph(c.userId, request.dealId, IntentFor(request.createOffer), value, selection, x.world);
          PointsAreSent(value, x.answers);
          outcome := Some(answered);
      }
    }

    /** The chat branch of the consumer: a pending offer first, then the router. */
    method Chatted(c: Chat, x: Surroundings) returns (outcome: A.Outcome)
      requires pending.Valid() && WellAnswered(x.answers)
      modifies pending, graph
      ensures pending.Valid()
      ensures Extends(graph.calls, old(graph.calls))
      ensures graph.calls != old(graph.calls) ==> FromGraph(outcome)
      ensures A.IsTemporary(outcome) ==> graph.calls == old(graph.calls)
                                         && OnlyOthers(old(pending.pendingOffers), pending.pendingOffers, x)
      ensures Answers(c, x, old(pending.pendingOffers), old(pending.history), pending.history,
                      graph.calls[|old(graph.calls)|..], outcome)
    {
      var resumed, _ := ResumePending(c, x);
      if resumed.Some? {
        return resumed.value;
      }
      match x.route {
        case RouteFails(temporary) => outcome := ModelFailure(temporary);
        case Elsewhere(other) => outcome := other;
        case ToOffer(intent) => outcome := Generate(c, intent, x);
      }
    }

    /** One delivery of a chat request. If it has called the backend for an offer, wherever the backend may have failed,
        it is answered and no retry copy is published; it is handled again exactly if publishing that answer failed. So a
        copy is published only of a request that has called nothing and left the pending offers alone. */
    method HandleChat(consumer: A.AgentConsumer, m: A.Message, c: Chat, x: Surroundings, publish: Publish)
      returns (ghost outcome: A.Outcome)
      requires A.IsRequest(m) && pending.Valid() && WellAnswered(x.answers)
      modifies consumer, pending, graph
      ensures Extends(graph.calls, old(graph.calls))
      ensures Answers(c, x, old(pending.pendingOffers), old(pending.history), pending.history,
                      graph.calls[|old(graph.calls)|..], outcome)
      ensures consumer.View() == A.Handled(old(consumer.View()), m, outcome, publish)
      ensures graph.calls != old(graph.calls) ==>
                && consumer.queue == old(consumer.queue) + (if publish.Sent? then [] else [m])
                && |consumer.replies| == |old(consumer.replies)| + (if publish.Refused? then 0 else 1)
      ensures |consumer.queue| > |old(consumer.queue)|
              && consumer.queue[|old(consumer.queue)|] == A.RetryCopy(m, A.RetryCount(m) + 1) ==>
                graph.calls == old(graph.calls) && OnlyOthers(old(pending.pendingOffers), pending.pendingOffers, x)
    {
      A.RetryCopyIsSameRequest(m);
      var answer := Chatted(c, x);
      outcome := answer;
      consumer.HandleMessage(m, answer, publish);
    }
  }

  /** The request itself has done no more to the pending offers than to purge the expired ones. */
  predicate OnlyOthers(before: P.Table, after: P.Table, x: Surroundings) {
    var purged := P.Purged(before, x.now);
    after == purged || after == P.AfterAll(purged, x.others)
  }
}
