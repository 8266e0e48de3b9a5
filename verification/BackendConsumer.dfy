/**
 The Go side of the RPC: dispatch of a decoded request, settlement of its delivery, and redelivery.
 Only the branches that write the offers and the recommendations table are spelled out; every other
 action is answered by an oracle.
 */
module BackendConsumer {
  import opened Wrappers
  import opened Text
  import opened Domain
  import opened OfferStore
  import opened OfferService
  import Percent
  import R = Recommendations

  datatype Action = OfferCreate | OfferRequestApproval | RecommendationCreate | OtherAction(name: string)

  datatype Payload =
    | Undecodable
    | CreateOfferPayload(dealId: int, createdBy: int, percent: string, text: string, selection: Selection)
    | RequestApprovalPayload(offerId: int, requestedBy: int)
    | RecommendationPayload(dealId: int, kind: string, text: string)
    | OtherPayload

  /** A body that is not a strict RPC request may still show a request id. action is None when the text
      names no action; routingKey is None when the key is not a supported one. */
  datatype Body =
    | Malformed(requestId: string)
    | Envelope(requestId: string, action: Option<Action>, payload: Payload)

  datatype Delivery = Delivery(replyTo: string, correlationId: string, routingKey: Option<Action>, body: Body)

  datatype Code =
    | VALIDATION_ERROR | OFFER_NOT_FOUND | DEAL_NOT_FOUND | APARTMENT_NOT_FOUND | USER_NOT_FOUND
    | INVALID_DISCOUNT | INVALID_OFFER_STATE | FORBIDDEN | BACKEND_UNAVAILABLE | INTERNAL_ERROR

  datatype Data =
    | OfferCreated(offerId: nat, status: Status)
    | ApprovalRequested(offerId: nat, status: Status)
    | RecommendationCreated(id: nat)
    | OtherData(text: string)

  datatype Response = Response(requestId: string, outcome: Result<Data, Code>)

  /** A reply as the broker gets it. */
  datatype Publication = Publication(queue: string, correlationId: string, response: Response)

  datatype Settlement = Acked | Rejected | Requeued

  /** What the world does during one delivery: the statements of others before it, the answers of the reads, the
      statements of others between its own steps, and the faults. A publish that reports an error may have reached the
      broker all the same. */
  datatype Attempt = Attempt(
    meanwhile: seq<Statement>,
    meanwhileDrafts: seq<R.Draft>,
    facts: Facts,
    readers: Readers,
    gaps: Gaps,
    others: seq<R.Draft>,
    fault: Fault,
    cancelled: bool,
    otherOutcome: Result<string, Code>,
    encodes: bool,
    publishError: bool,
    publishedAllTheSame: bool
  )

  function OfferFailure(e: OfferError, cancelled: bool): Code {
    match e
    case OfferNotFound => OFFER_NOT_FOUND
    case DealNotFound => DEAL_NOT_FOUND
    case ApartmentNotFound => APARTMENT_NOT_FOUND
    case UserNotFound => USER_NOT_FOUND
    case InvalidDiscount => INVALID_DISCOUNT
    case InvalidPrice => INVALID_DISCOUNT
    case InvalidOfferState => INVALID_OFFER_STATE
    case OfferForbidden => FORBIDDEN
    case StoreFailed => if cancelled then BACKEND_UNAVAILABLE else INTERNAL_ERROR
    case _ => INTERNAL_ERROR
  }

  /** Which failures a caller can tell apart by the code. */
  lemma FailureCodesTell(e: OfferError, cancelled: bool)
    ensures OfferFailure(e, cancelled) == FORBIDDEN <==> e == OfferForbidden
    ensures OfferFailure(e, cancelled) == OFFER_NOT_FOUND <==> e == OfferNotFound
    ensures OfferFailure(e, cancelled) == DEAL_NOT_FOUND <==> e == DealNotFound
    ensures OfferFailure(e, cancelled) == APARTMENT_NOT_FOUND <==> e == ApartmentNotFound
    ensures OfferFailure(e, cancelled) == USER_NOT_FOUND <==> e == UserNotFound
    ensures OfferFailure(e, cancelled) == INVALID_DISCOUNT <==> e == InvalidDiscount || e == InvalidPrice
    ensures OfferFailure(e, cancelled) == INVALID_OFFER_STATE <==> e == InvalidOfferState
    ensures OfferFailure(e, cancelled) == BACKEND_UNAVAILABLE <==> e == StoreFailed && cancelled
    ensures OfferFailure(e, cancelled) == INTERNAL_ERROR <==>
            e == InvalidAncillary || e == AncillaryNotFound || (e == StoreFailed && !cancelled)
  {
  }

  /** The envelope passes: it has an id, and its action is the one its routing key stands for. */
  predicate Routed(routingKey: Option<Action>, body: Body) {
    body.Envelope? && TrimSpace(body.requestId) != "" && routingKey.Some? && body.action == routingKey
  }

  predicate Addressed(d: Delivery) {
    TrimSpace(d.replyTo) != "" && TrimSpace(d.correlationId) != ""
  }

  predicate NamesRecommendation(t: R.Table, requestId: string, id: nat) {
    var i := R.IndexOf(t.rows, requestId);
    i.Some? && t.rows[i.value].id == id
  }

  /** The row of the request id, or of the offer id, has this id and now this status. */
  predicate OfferIs(t: Table, requestId: string, id: nat, status: Status) {
    var i := IndexOfRequest(t.rows, requestId);
    i.Some? && t.rows[i.value].id == id && t.rows[i.value].status == status
  }

  predicate ApprovalIs(t: Table, id: nat, status: Status) {
    var i := IndexOfId(t.rows, id);
    i.Some? && t.rows[i.value].status == status && status != DRAFT
  }

  /** The row had this status once, and has at most moved forward since. */
  predicate MovedOn(status: Status, r: Row) {
    r.status == status || (Rank(status) < Rank(r.status) && r.offer.approvalRequired)
  }

  predicate OfferWas(t: Table, requestId: string, id: nat, status: Status) {
    var i := IndexOfRequest(t.rows, requestId);
    i.Some? && t.rows[i.value].id == id && MovedOn(status, t.rows[i.value])
  }

  predicate ApprovalWas(t: Table, id: nat, status: Status) {
    var i := IndexOfId(t.rows, id);
    i.Some? && status != DRAFT && MovedOn(status, t.rows[i.value])
  }

  /** A successful answer says what is in the tables now. */
  predicate Exact(response: Response, offers: Table, recommendations: R.Table) {
    match response.outcome
    case Ok(OfferCreated(id, status)) => OfferIs(offers, response.requestId, id, status)
    case Ok(ApprovalRequested(id, status)) => ApprovalIs(offers, id, status)
    case Ok(RecommendationCreated(id)) => NamesRecommendation(recommendations, response.requestId, id)
    case _ => true
  }

  /** A successful answer names the row of its request, which has at most moved forward from the reported status. */
  predicate Truthful(response: Response, offers: Table, recommendations: R.Table) {
    match response.outcome
    case Ok(OfferCreated(id, status)) => OfferWas(offers, response.requestId, id, status)
    case Ok(ApprovalRequested(id, status)) => ApprovalWas(offers, id, status)
    case Ok(RecommendationCreated(id)) => NamesRecommendation(recommendations, response.requestId, id)
    case _ => true
  }

  lemma MovesOn(status: Status, r: Row, r': Row)
    requires MovedOn(status, r) && RowEvolves(r, r')
    ensures MovedOn(status, r')
  {
  }

  /** Later statements of anyone never make an answer untrue. */
  lemma TruthLasts(response: Response, t: Table, run: seq<Statement>, u: R.Table, drafts: seq<R.Draft>)
    requires Inv(t) && AllGuarded(run) && R.Inv(u)
    requires Truthful(response, t, u)
    ensures Truthful(response, ApplyAll(t, run), R.InsertAll(u, drafts))
  {
    var t' := ApplyAll(t, run);
    match response.outcome
    case Ok(OfferCreated(id, status)) =>
      var i := IndexOfRequest(t.rows, response.requestId).value;
      RowsAreKept(t, run, i);
      MovesOn(status, t.rows[i], t'.rows[i]);
    case Ok(ApprovalRequested(id, status)) =>
      var i := IndexOfId(t.rows, id).value;
      RowsAreKept(t, run, i);
      MovesOn(status, t.rows[i], t'.rows[i]);
    case Ok(RecommendationCreated(id)) =>
      R.NameIsForEver(u, drafts, response.requestId, u.rows[R.IndexOf(u.rows, response.requestId).value]);
    case _ =>
  }

  /** The reads of an attempt answer for the ids they are asked for, and others send only what the services send. */
  ghost predicate Suits(a: Attempt, body: Body) {
    && AllGuarded(a.meanwhile) && OthersGuarded(a.gaps) && ById(a.readers)
    && (body.Envelope? && body.payload.CreateOfferPayload? ==>
          Answers(a.facts, body.payload.dealId, body.payload.createdBy, body.payload.selection))
  }

  predicate ValidCreation(p: Payload) {
    p.CreateOfferPayload? && p.dealId > 0 && p.createdBy > 0 && p.percent != "" && TrimSpace(p.text) != ""
  }

  predicate ValidApproval(p: Payload) {
    p.RequestApprovalPayload? && p.offerId > 0 && p.requestedBy > 0
  }

  predicate ValidRecommendation(p: Payload) {
    p.RecommendationPayload? && p.dealId > 0 && TrimSpace(p.kind) != "" && TrimSpace(p.text) != ""
  }

  function Unavailable(cancelled: bool): Code {
    if cancelled then BACKEND_UNAVAILABLE else INTERNAL_ERROR
  }

  /** What offer.create does with its payload: t is the table before, t' the table after. */
  ghost predicate CreationDone(limits: Limits, requestId: string, p: Payload, a: Attempt, t: Table, t': Table,
                               outcome: Result<Data, Code>) {
    if !ValidCreation(p) then outcome == Err(VALIDATION_ERROR)
    else
      var refusal := Refusal(limits, p.percent, p.selection, a.facts);
      var u := ApplyAll(t, a.gaps.beforeLook);
      var found, late := IndexOfRequest(u.rows, requestId), IndexOfRequest(ApplyAll(u, a.gaps.beforeStatement).rows, requestId);
      && (outcome.Ok? ==> outcome.value.OfferCreated? && OfferIs(t', requestId, outcome.value.offerId, outcome.value.status))
      && (refusal.Some? ==> outcome == Err(OfferFailure(refusal.value, a.cancelled)))
      // a request id that is there is answered with its row, or refused if the row is another request's
      && (refusal.None? && a.fault == NoFault && found.Some? ==>
            var r := u.rows[found.value];
            if r.offer.dealId == p.dealId && r.offer.createdBy == p.createdBy
               && r.offer.parkingUnitId == p.selection.parking && r.offer.storageUnitId == p.selection.storage
            then outcome == Ok(OfferCreated(r.id, r.status)) else outcome == Err(FORBIDDEN))
      // a free one succeeds, and the row says what the payload said
      && (refusal.None? && a.fault == NoFault && found.None? ==>
            && outcome.Ok?
            && (late.None? ==>
                  var i := IndexOfRequest(t'.rows, requestId);
                  && i.Some? && t'.rows[i.value].offer.dealId == p.dealId && t'.rows[i.value].offer.createdBy == p.createdBy
                  && Percent.ParsePercent(p.percent) == Some(t'.rows[i.value].offer.discount)
                  && t'.rows[i.value].offer.generatedText == TrimSpace(p.text)
                  && t'.rows[i.value].offer.parkingUnitId == p.selection.parking
                  && t'.rows[i.value].offer.storageUnitId == p.selection.storage))
  }

  /** What offer.request_approval does with its payload. */
  ghost predicate ApprovalDone(p: Payload, a: Attempt, t: Table, t': Table, outcome: Result<Data, Code>) {
    if !ValidApproval(p) then outcome == Err(VALIDATION_ERROR)
    else
      var row := Lookup(ApplyAll(t, a.gaps.beforeLook), p.offerId);
      var refusal := ApprovalRefusal(a.readers, p.requestedBy, row);
      && (outcome.Ok? ==>
            && outcome.value.ApprovalRequested? && outcome.value.offerId == p.offerId
            && ApprovalIs(t', outcome.value.offerId, outcome.value.status)
            && Lookup(t', p.offerId).Some?
            && MayActOn(a.readers, p.requestedBy, Lookup(t', p.offerId).value.offer.dealId))
      && (refusal.Some? && a.fault != LookFails ==> outcome == Err(OfferFailure(refusal.value, a.cancelled)))
      && (refusal.None? && a.fault == NoFault ==>
            outcome.Ok? || (outcome == Err(OFFER_NOT_FOUND) && Lookup(t', p.offerId).Some?
                            && IsFinal(Lookup(t', p.offerId).value.status)))
  }

  /** What recommendation.create does with its payload; drafts are the inserts that reached the table. */
  ghost predicate RecommendationDone(requestId: string, p: Payload, a: Attempt, u: R.Table, u': R.Table,
                                     outcome: Result<Data, Code>, drafts: seq<R.Draft>) {
    if !ValidRecommendation(p) then outcome == Err(VALIDATION_ERROR) && drafts == []
    else
      var deal := a.readers.deal(p.dealId);
      var lost := a.fault == StatementFails || a.fault == StatementUnacknowledged || a.fault == ReadBackFails;
      var draft := R.Draft(requestId, p.dealId, TrimSpace(p.kind), TrimSpace(p.text));
      && (deal.Err? ==>
            outcome == Err(if deal.error == DealNotFound then DEAL_NOT_FOUND else Unavailable(a.cancelled)) && drafts == [])
      && (deal.Ok? && lost ==> outcome == Err(Unavailable(a.cancelled)))
      && (deal.Ok? && !lost ==> outcome.Ok?)
      && (outcome.Ok? ==>
            && outcome.value.RecommendationCreated? && NamesRecommendation(u', requestId, outcome.value.id)
            && drafts != [] && drafts[0] == draft
            && (R.StoredDraft(u, requestId).None? ==> R.Names(u', requestId, R.Recommendation(outcome.value.id, draft))))
  }

  /** What became of a request that has passed its envelope. */
  ghost predicate Done(limits: Limits, body: Body, a: Attempt, t: Table, t': Table, u: R.Table, u': R.Table,
                       outcome: Result<Data, Code>, drafts: seq<R.Draft>)
    requires body.Envelope? && body.action.Some?
  {
    match body.action.value
    case OfferCreate => CreationDone(limits, body.requestId, body.payload, a, t, t', outcome)
    case OfferRequestApproval => ApprovalDone(body.payload, a, t, t', outcome)
    case RecommendationCreate => RecommendationDone(body.requestId, body.payload, a, u, u', outcome, drafts)
    case OtherAction(_) =>
      t' == t && u' == u
      && (if a.otherOutcome.Ok? then outcome == Ok(OtherData(a.otherOutcome.value)) else outcome == Err(a.otherOutcome.error))
  }

  class BackendRpcConsumer {
    const offers: OfferRepository
    const recommendations: R.RecommendationRepository
    const limits: Limits
    /** Replies taken by the broker, in order. */
    var sent: seq<Publication>

    constructor (offers: OfferRepository, recommendations: R.RecommendationRepository, limits: Limits)
      ensures this.offers == offers && this.recommendations == recommendations && this.limits == limits && sent == []
    {
      this.offers, this.recommendations, this.limits, sent := offers, recommendations, limits, [];
    }

    ghost predicate Good()
      reads offers, recommendations
    {
      Inv(offers.View()) && R.Inv(recommendations.View())
    }

    method CreateOffer(requestId: string, p: Payload, a: Attempt)
      returns (outcome: Result<Data, Code>, ghost run: seq<Statement>)
      requires Inv(offers.View()) && OthersGuarded(a.gaps)
      requires p.CreateOfferPayload? ==> Answers(a.facts, p.dealId, p.createdBy, p.selection)
      modifies offers
      ensures AllGuarded(run) && offers.View() == ApplyAll(old(offers.View()), run)
      ensures outcome.Ok? ==> outcome.value.OfferCreated?
                              && OfferIs(offers.View(), requestId, outcome.value.offerId, outcome.value.status)
      ensures !ValidCreation(p) ==> outcome == Err(VALIDATION_ERROR) && run == []
      ensures CreationDone(limits, requestId, p, a, old(offers.View()), offers.View(), outcome)
    {
      run := [];
      if !p.CreateOfferPayload? || p.dealId <= 0 || p.createdBy <= 0 || p.percent == "" || TrimSpace(p.text) == "" {
        return Err(VALIDATION_ERROR), run;
      }
      var r, looked, own := Create(offers, limits, a.facts, requestId, p.dealId, p.createdBy, p.percent, p.text,
                                   p.selection, a.gaps, a.fault);
      run := Interleaved(a.gaps, looked, own);
      match r
      case Ok(row) => outcome := Ok(OfferCreated(row.id, row.status));
      case Err(e) => outcome := Err(OfferFailure(e, a.cancelled));
    }

    method ApproveOffer(p: Payload, a: Attempt) returns (outcome: Result<Data, Code>, ghost run: seq<Statement>)
      requires Inv(offers.View()) && OthersGuarded(a.gaps) && ById(a.readers)
      modifies offers
      ensures AllGuarded(run) && offers.View() == ApplyAll(old(offers.View()), run)
      ensures outcome.Ok? ==> outcome.value.ApprovalRequested? && p.RequestApprovalPayload?
                              && outcome.value.offerId == p.offerId
                              && ApprovalIs(offers.View(), outcome.value.offerId, outcome.value.status)
      ensures !ValidApproval(p) ==> outcome == Err(VALIDATION_ERROR) && run == []
      ensures ApprovalDone(p, a, old(offers.View()), offers.View(), outcome)
    {
      run := [];
      if !p.RequestApprovalPayload? || p.offerId <= 0 || p.requestedBy <= 0 {
        return Err(VALIDATION_ERROR), run;
      }
      var r, looked, own := RequestApproval(offers, a.readers, p.offerId, p.requestedBy, a.gaps, a.fault);
      InterleavedGuarded(a.gaps, looked, own);
      run := Interleaved(a.gaps, looked, own);
      match r
      case Ok(row) => outcome := Ok(ApprovalRequested(row.id, row.status));
      case Err(e) => outcome := Err(OfferFailure(e, a.cancelled));
    }

    method CreateRecommendation(requestId: string, p: Payload, a: Attempt)
      returns (outcome: Result<Data, Code>, ghost drafts: seq<R.Draft>)
      requires R.Inv(recommendations.View())
      modifies recommendations
      ensures recommendations.View() == R.InsertAll(old(recommendations.View()), drafts)
      ensures RecommendationDone(requestId, p, a, old(recommendations.View()), recommendations.View(), outcome, drafts)
      ensures outcome.Ok? ==>
                p.RecommendationPayload? && drafts != []
                && drafts[0] == R.Draft(requestId, p.dealId, TrimSpace(p.kind), TrimSpace(p.text))
    {
      drafts := [];
      if !p.RecommendationPayload? || p.dealId <= 0 || TrimSpace(p.kind) == "" || TrimSpace(p.text) == "" {
        return Err(VALIDATION_ERROR), drafts;
      }
      var deal := a.readers.deal(p.dealId);
      if deal.Err? {
        var code := if deal.error == DealNotFound then DEAL_NOT_FOUND
                    else if a.cancelled then BACKEND_UNAVAILABLE else INTERNAL_ERROR;
        return Err(code), drafts;
      }
      if a.fault == StatementFails {
        return Err(if a.cancelled then BACKEND_UNAVAILABLE else INTERNAL_ERROR), drafts;
      }
      var draft := R.Draft(requestId, p.dealId, TrimSpace(p.kind), TrimSpace(p.text));
      var created := recommendations.Create(draft, a.others);
      drafts := [draft] + a.others;
      if created.None? || a.fault == StatementUnacknowledged || a.fault == ReadBackFails {
        return Err(if a.cancelled then BACKEND_UNAVAILABLE else INTERNAL_ERROR), drafts;
      }
      outcome := Ok(RecommendationCreated(created.value.id));
    }

    /** run and drafts are the statements that reached the two tables meanwhile. */
    method Dispatch(routingKey: Option<Action>, body: Body, a: Attempt)
      returns (response: Response, ghost run: seq<Statement>, ghost drafts: seq<R.Draft>)
      requires Good() && Suits(a, body)
      modifies offers, recommendations
      ensures response.requestId == body.requestId
      ensures AllGuarded(run) && offers.View() == ApplyAll(old(offers.View()), run)
      ensures recommendations.View() == R.InsertAll(old(recommendations.View()), drafts)
      ensures !Routed(routingKey, body) ==> response.outcome == Err(VALIDATION_ERROR) && run == [] && drafts == []
      ensures Routed(routingKey, body) ==>
                Done(limits, body, a, old(offers.View()), offers.View(), old(recommendations.View()), recommendations.View(),
                     response.outcome, drafts)
      ensures Exact(response, offers.View(), recommendations.View())
      ensures response.outcome.Ok? ==> Fits(body.action.value, response.outcome.value)
    {
      run, drafts := [], [];
      if body.Malformed? {
        return Response(body.requestId, Err(VALIDATION_ERROR)), run, drafts;
      }
      if TrimSpace(body.requestId) == "" || body.action.None? {
        return Response(body.requestId, Err(VALIDATION_ERROR)), run, drafts;
      }
      if routingKey.None? || body.action != routingKey {
        return Response(body.requestId, Err(VALIDATION_ERROR)), run, drafts;
      }
      var outcome: Result<Data, Code>;
      match routingKey.value {
        case OfferCreate => outcome, run := CreateOffer(body.requestId, body.payload, a);
        case OfferRequestApproval => outcome, run := ApproveOffer(body.payload, a);
        case RecommendationCreate => outcome, drafts := CreateRecommendation(body.requestId, body.payload, a);
        case OtherAction(_) =>
          outcome := match a.otherOutcome case Ok(text) => Ok(OtherData(text)) case Err(code) => Err(code);
      }
      response := Response(body.requestId, outcome);
    }

    /** One delivery: a reply to its own queue and correlation id, and exactly one settlement. */
    method HandleDelivery(d: Delivery, a: Attempt)
      returns (settlement: Settlement, ghost run: seq<Statement>, ghost drafts: seq<R.Draft>)
      requires Good() && Suits(a, d.body)
      modifies this`sent, offers, recommendations
      ensures AllGuarded(run) && offers.View() == ApplyAll(old(offers.View()), run)
      ensures recommendations.View() == R.InsertAll(old(recommendations.View()), drafts)
      ensures settlement == Rejected <==> !Addressed(d) || TrimSpace(d.body.requestId) == ""
      ensures settlement == Rejected ==> sent == old(sent) && run == [] && drafts == []
      ensures settlement == Acked <==> settlement != Rejected && a.encodes && !a.publishError
      ensures sent == old(sent) || (|sent| == |old(sent)| + 1 && sent[..|old(sent)|] == old(sent))
      ensures settlement == Acked ==> |sent| == |old(sent)| + 1
      ensures |sent| > |old(sent)| ==> AnswersOf(sent[|old(sent)|], d, offers.View(), recommendations.View())
                                       && Exact(sent[|old(sent)|].response, offers.View(), recommendations.View())
      ensures |sent| > |old(sent)| && !Routed(d.routingKey, d.body) ==>
                sent[|old(sent)|].response.outcome == Err(VALIDATION_ERROR)
      ensures |sent| > |old(sent)| && Routed(d.routingKey, d.body) ==>
                Done(limits, d.body, a, old(offers.View()), offers.View(), old(recommendations.View()), recommendations.View(),
                     sent[|old(sent)|].response.outcome, drafts)
    {
      run, drafts := [], [];
      if TrimSpace(d.replyTo) == "" || TrimSpace(d.correlationId) == "" {
        return Rejected, run, drafts;
      }
      var response;
      response, run, drafts := Dispatch(d.routingKey, d.body, a);
      if TrimSpace(response.requestId) == "" {
        return Rejected, run, drafts;
      }
      if !a.encodes {
        return Requeued, run, drafts;
      }
      if !a.publishError || a.publishedAllTheSame {
        sent := sent + [Publication(d.replyTo, d.correlationId, response)];
      }
      settlement := if a.publishError then Requeued else Acked;
    }

    /** Other actors' statements, and one more delivery of a request some replies to which have been sent before: they
        stay true. */
    method HandleAgain(d: Delivery, a: Attempt, ghost start: nat) returns (settlement: Settlement)
      requires Good() && Suits(a, d.body) && start <= |sent|
      requires forall k :: start <= k < |sent| ==> AnswersOf(sent[k], d, offers.View(), recommendations.View())
      modifies this`sent, offers, recommendations
      ensures Good()
      ensures |old(sent)| <= |sent| <= |old(sent)| + 1 && sent[..|old(sent)|] == old(sent)
      ensures forall k :: start <= k < |sent| ==> AnswersOf(sent[k], d, offers.View(), recommendations.View())
      ensures settlement == Acked ==> |sent| == |old(sent)| + 1
      ensures settlement == Requeued ==> !a.encodes || a.publishError
    {
      Meanwhile(d, a, start);
      ghost var before, t, u := sent, offers.View(), recommendations.View();
      ghost var run, drafts;
      settlement, run, drafts := HandleDelivery(d, a);
      RunKeeps(t, run);
      R.InsertAllKeeps(u, drafts);
      AnswersLast(before, start, d, t, run, u, drafts);
      AnswersExtend(before, sent, start, d, offers.View(), recommendations.View());
    }

    method Meanwhile(d: Delivery, a: Attempt, ghost start: nat)
      requires Good() && AllGuarded(a.meanwhile) && start <= |sent|
      requires forall k :: start <= k < |sent| ==> AnswersOf(sent[k], d, offers.View(), recommendations.View())
      modifies offers, recommendations
      ensures Good()
      ensures forall k :: start <= k < |sent| ==> AnswersOf(sent[k], d, offers.View(), recommendations.View())
      ensures offers.View() == ApplyAll(old(offers.View()), a.meanwhile)
      ensures recommendations.View() == R.InsertAll(old(recommendations.View()), a.meanwhileDrafts)
    {
      ghost var t, u := offers.View(), recommendations.View();
      RunKeeps(t, a.meanwhile);
      R.InsertAllKeeps(u, a.meanwhileDrafts);
      AnswersLast(sent, start, d, t, a.meanwhile, u, a.meanwhileDrafts);
      offers.RunOthers(a.meanwhile);
      recommendations.RunOthers(a.meanwhileDrafts);
    }

    /** The broker redelivers until the request is settled or the attempts are over. Every reply that went out is
        true at the end: so all successful ones name one and the same row, however often the request was executed. */
    method Redeliver(d: Delivery, attempts: seq<Attempt>) returns (settlement: Settlement)
      requires Good() && forall a :: a in attempts ==> Suits(a, d.body)
      modifies this`sent, offers, recommendations
      ensures Good()
      ensures |sent| >= |old(sent)| && sent[..|old(sent)|] == old(sent)
      ensures |sent| - |old(sent)| <= |attempts|
      ensures forall k :: |old(sent)| <= k < |sent| ==> AnswersOf(sent[k], d, offers.View(), recommendations.View())
      ensures settlement == Acked ==> |sent| > |old(sent)|
      ensures settlement == Requeued ==> forall a :: a in attempts ==> !a.encodes || a.publishError
    {
      settlement := Requeued;
      ghost var start := |sent|;
      var n := 0;
      while n < |attempts| && settlement == Requeued
        invariant n <= |attempts| && Good()
        invariant start <= |sent| <= start + n && sent[..start] == old(sent)
        invariant forall k :: start <= k < |sent| ==> AnswersOf(sent[k], d, offers.View(), recommendations.View())
        invariant settlement == Acked ==> |sent| > start
        invariant settlement == Requeued ==> forall k :: 0 <= k < n ==> !attempts[k].encodes || attempts[k].publishError
      {
        settlement := HandleAgain(d, attempts[n], start);
        n := n + 1;
      }
    }
  }

  /** A reply that belongs to the delivery and whose content is true of the tables. */
  predicate AnswersOf(p: Publication, d: Delivery, offers: Table, recommendations: R.Table) {
    && p.queue == d.replyTo && p.correlationId == d.correlationId && p.response.requestId == d.body.requestId
    && Truthful(p.response, offers, recommendations)
  }

  lemma AnswersLast(sent: seq<Publication>, start: nat, d: Delivery, t: Table, run: seq<Statement>,
                    u: R.Table, drafts: seq<R.Draft>)
    requires Inv(t) && AllGuarded(run) && R.Inv(u)
    requires forall k :: start <= k < |sent| ==> AnswersOf(sent[k], d, t, u)
    ensures forall k :: start <= k < |sent| ==> AnswersOf(sent[k], d, ApplyAll(t, run), R.InsertAll(u, drafts))
  {
    forall k | start <= k < |sent|
      ensures AnswersOf(sent[k], d, ApplyAll(t, run), R.InsertAll(u, drafts))
    {
      TruthLasts(sent[k].response, t, run, u, drafts);
    }
  }

  lemma AnswersExtend(before: seq<Publication>, sent: seq<Publication>, start: nat, d: Delivery, t: Table, u: R.Table)
    requires |before| <= |sent| <= |before| + 1 && sent[..|before|] == before
    requires forall k :: start <= k < |before| ==> AnswersOf(before[k], d, t, u)
    requires |sent| > |before| ==> AnswersOf(sent[|before|], d, t, u)
    ensures forall k :: start <= k < |sent| ==> AnswersOf(sent[k], d, t, u)
  {
    forall k | start <= k < |sent|
      ensures AnswersOf(sent[k], d, t, u)
    {
      assert k < |before| ==> sent[k] == sent[..|before|][k];
    }
  }

  /** The data of an answer is of its action's kind. */
  predicate Fits(action: Action, data: Data) {
    match action
    case OfferCreate => data.OfferCreated?
    case OfferRequestApproval => data.ApprovalRequested?
    case RecommendationCreate => data.RecommendationCreated?
    case OtherAction(_) => data.OtherData?
  }

  /** Two successful answers to one request, at any two moments, name the same row, and its status only moves forward. */
  lemma SuccessfulAnswersAgree(p: Publication, q: Publication, d: Delivery, t: Table, run: seq<Statement>,
                               u: R.Table, drafts: seq<R.Draft>)
    requires Inv(t) && AllGuarded(run) && R.Inv(u)
    requires AnswersOf(p, d, t, u) && AnswersOf(q, d, ApplyAll(t, run), R.InsertAll(u, drafts))
    requires Exact(q.response, ApplyAll(t, run), R.InsertAll(u, drafts))
    requires p.response.outcome.Ok? && q.response.outcome.Ok?
    ensures var a, b := p.response.outcome.value, q.response.outcome.value;
            && (a.OfferCreated? && b.OfferCreated? ==>
                  a.offerId == b.offerId && (a.status == b.status || Rank(a.status) < Rank(b.status)))
            && (a.RecommendationCreated? && b.RecommendationCreated? ==> a.id == b.id)
  {
    TruthLasts(p.response, t, run, u, drafts);
  }
}
