/**
 An offer from the manager's sentence to the stored row: the pieces proved in the other modules, put
 together across the JSON boundary between the agent and the backend.
 */
module OfferChain {
  import opened Wrappers
  import opened Text
  import opened Percent
  import opened Domain
  import opened OfferStore
  import opened OfferService
  import D = DiscountExtraction
  import T = DiscountTimeline
  import B = BackendConsumer
  import G = OfferGraph
  import R = Recommendations

  /** The limit that a calculation applies is that of the policy in force in the plain history of policies,
      whatever the closing times in the table say. */
  lemma LimitIsPolicyInForce(history: seq<T.Input>, buildingId: int, role: Role, now: int, limits: Limits, f: Facts)
    requires T.InForce(history, buildingId, role, now).Some?
    requires var p := T.ActiveRow(T.TableOf(history), buildingId, role, now);
             p.Some? ==> p.value.percent <= MAX_BASIS_POINTS && f.activePolicy == Ok(Some(NumericColumnText(p.value.percent)))
    ensures MaxDiscount(limits, f, role) == Ok(history[T.InForce(history, buildingId, role, now).value].percent)
  {
    T.QueryAnswersHistory(history, buildingId, role, now);
    ForeignTextsParse(T.ActiveRow(T.TableOf(history), buildingId, role, now).value.percent);
  }

  lemma PointsOfTyped(value: D.Decimal, explicit: seq<D.Decimal>, points: nat)
    requires explicit != [] && D.AllSame(explicit, value) && D.AllAcceptable(explicit) && D.IsHundredfold(value, points)
    ensures ParsePercent(JsonNumberText(points)) == Some(points) && ParsePercent(JsonFloatText(points)) == Some(points)
  {
    var p := D.DiscountReachesBackend(value, explicit);
    D.MulCancel(p, points, Pow10(value.places));
  }

  /** The agent first sends the discount that it found, and then, to create the offer, the one that the calculation
      echoed. The row built from the second request holds exactly the percentage of the text; and if nothing was changed
      in between it holds the very figures that the manager was shown. */
  lemma ShownFiguresAreStored(value: D.Decimal, explicit: seq<D.Decimal>, points: nat, shown: Calculation, echoed: nat,
                              row: Row, limits: Limits, requestId: string, dealId: int, actorId: int, generated: string,
                              selection: Selection, f: Facts, f': Facts)
    requires explicit != [] && D.AllSame(explicit, value) && D.AllAcceptable(explicit) && D.IsHundredfold(value, points)
    requires Sound(shown, limits, JsonNumberText(points), dealId, selection, f) && echoed == shown.discount
    requires BuiltFrom(row.offer, limits, requestId, dealId, actorId, JsonFloatText(echoed), generated, selection, f')
    ensures shown.discount == points && row.offer.discount == points
    ensures f' == f ==> CalculationOf(row.offer, selection, f') == shown
    ensures f' == f ==>
              && row.offer.basePrice == shown.priced.basePrice && row.offer.finalPrice == shown.finalPrice
              && row.offer.apartmentPrice == shown.priced.apartmentPrice
              && row.offer.parkingPrice == (if shown.priced.parking.Some? then shown.priced.parking.value.price else 0)
              && row.offer.storagePrice == (if shown.priced.storage.Some? then shown.priced.storage.value.price else 0)
              && row.offer.approvalRequired == shown.requiresApproval
  {
    PointsOfTyped(value, explicit, points);
    var stored := CalculationOf(row.offer, selection, f');
    DiscountOf(shown, limits, JsonNumberText(points), dealId, selection, f, points);
    DiscountOf(stored, limits, JsonFloatText(points), dealId, selection, f', points);
    if f' == f {
      SoundIsUnique(stored, shown, limits, JsonFloatText(points), JsonNumberText(points), dealId, selection, f);
    }
  }

  lemma DiscountOf(c: Calculation, limits: Limits, text: string, dealId: int, selection: Selection, f: Facts, points: int)
    requires Sound(c, limits, text, dealId, selection, f) && ParsePercent(text) == Some(points)
    ensures c.discount == points
  {
  }

  /** The row began as a draft exactly when the percentage typed exceeds the limit in force at its creation. */
  lemma DraftIffAboveLimit(points: nat, row: Row, limits: Limits, requestId: string, dealId: int, actorId: int,
                           generated: string, selection: Selection, f: Facts)
    requires BuiltFrom(row.offer, limits, requestId, dealId, actorId, JsonFloatText(points), generated, selection, f)
    requires row.offer.discount == points
    ensures f.user.Ok? && MaxDiscount(limits, f, f.user.value.role).Ok?
    ensures var limit := MaxDiscount(limits, f, f.user.value.role).value;
            && (row.offer.status == DRAFT <==> points > limit)
            && (row.offer.status == APPROVED <==> points <= limit)
            && row.offer.approvalRequired == (points > limit)
            && (f.activePolicy == Ok(None) ==>
                  limit == (if f.user.value.role == RoleManager then limits.manager else limits.supervisor))
  {
    SoundMeans(CalculationOf(row.offer, selection, f), limits, JsonFloatText(points), dealId, selection, f);
  }

  /** offer.create as the graph sends it after a calculation, for every interleaving and every fault: a row that is the
      request's own holds the percentage typed, is a draft exactly above the limit, and shows the figures shown. */
  method StoreShownOffer(store: OfferRepository, value: D.Decimal, explicit: seq<D.Decimal>, points: nat, shown: Calculation,
                         limits: Limits, requestId: string, dealId: int, actorId: int, generated: string,
                         selection: Selection, ghost f: Facts, f': Facts, gaps: Gaps, fault: Fault)
    returns (r: Answer<Row>)
    requires explicit != [] && D.AllSame(explicit, value) && D.AllAcceptable(explicit) && D.IsHundredfold(value, points)
    requires Sound(shown, limits, JsonNumberText(points), dealId, selection, f) && shown.discount >= 0
    requires Inv(store.View()) && OthersGuarded(gaps) && Answers(f', dealId, actorId, selection)
    modifies store
    ensures r.Ok? ==> RowOfRequest(store.View(), requestId, r.value)
    ensures var t := ApplyAll(ApplyAll(old(store.View()), gaps.beforeLook), gaps.beforeStatement);
            r.Ok? && IndexOfRequest(ApplyAll(old(store.View()), gaps.beforeLook).rows, requestId).None?
            && IndexOfRequest(t.rows, requestId).None? && fault == NoFault ==>
              && r.value.offer.discount == points
              && f'.user.Ok? && MaxDiscount(limits, f', f'.user.value.role).Ok?
              && (r.value.offer.status == DRAFT <==> points > MaxDiscount(limits, f', f'.user.value.role).value)
              && (f' == f ==> CalculationOf(r.value.offer, selection, f') == shown)
  {
    ghost var looked, sent;
    r, looked, sent := Create(store, limits, f', requestId, dealId, actorId, JsonFloatText(shown.discount), generated,
                              selection, gaps, fault);
    if r.Ok? && sent.Some? && r.value.offer == sent.value.offer {
      ShownFiguresAreStored(value, explicit, points, shown, shown.discount, r.value, limits, requestId, dealId, actorId,
                            generated, selection, f, f');
      DraftIffAboveLimit(points, r.value, limits, requestId, dealId, actorId, generated, selection, f');
    }
  }

  /** The backend's answer to offer.create or to offer.request_approval, as the agent decodes it. */
  function ReplyOf(outcome: Result<B.Data, B.Code>): G.Answer<G.OfferReply> {
    match outcome
    case Ok(OfferCreated(id, status)) => G.Got(G.OfferReply(id, G.StatusText(status)))
    case Ok(ApprovalRequested(id, status)) => G.Got(G.OfferReply(id, G.StatusText(status)))
    case Err(FORBIDDEN) => G.Forbidden
    case _ => G.Failed
  }

  /** The agent reads FORBIDDEN and the offers, and takes everything else for a failure. */
  lemma RepliesMean(outcome: Result<B.Data, B.Code>)
    ensures ReplyOf(outcome) == G.Forbidden <==> outcome == Err(B.FORBIDDEN)
    ensures ReplyOf(outcome).Got? <==> outcome.Ok? && (outcome.value.OfferCreated? || outcome.value.ApprovalRequested?)
  {
  }

  /** An exact answer of the backend reports a row, as the graph's results assume. */
  lemma ExactAnswersReport(response: B.Response, t: Table, u: R.Table) returns (i: nat)
    requires Inv(t) && B.Exact(response, t, u)
    requires response.outcome.Ok? && (response.outcome.value.OfferCreated? || response.outcome.value.ApprovalRequested?)
    ensures G.Reports(ReplyOf(response.outcome), t, i)
  {
    match response.outcome.value
    case OfferCreated(_, _) => i := IndexOfRequest(t.rows, response.requestId).value;
    case ApprovalRequested(id, _) => i := IndexOfId(t.rows, id).value;
  }

  /** Through the whole chain: what the manager reads as saved is an approved row for ever, and what he reads as sent
      awaits a supervisor until exactly one decides. */
  lemma ManagerReadsTheTruth(s0: G.State, w: G.World, created: B.Response, approval: B.Response, t: Table, u: R.Table,
                             run: seq<Statement>) returns (i: nat)
    requires Inv(t) && AllGuarded(run)
    requires G.OfferSaved in G.FinalMessage(s0, w) ==>
               w.created == ReplyOf(created.outcome) && created.outcome.Ok? && created.outcome.value.OfferCreated?
               && B.Exact(created, t, u)
    requires G.ApprovalSent in G.FinalMessage(s0, w) ==>
               w.approval == ReplyOf(approval.outcome) && approval.outcome.Ok? && approval.outcome.value.ApprovalRequested?
               && B.Exact(approval, t, u)
    ensures G.OfferSaved in G.FinalMessage(s0, w) ==>
              i < |t.rows| && i < |ApplyAll(t, run).rows| && t.rows[i].id == w.created.value.offerId
              && ApplyAll(t, run).rows[i] == t.rows[i] && t.rows[i].status == APPROVED
    ensures G.ApprovalSent in G.FinalMessage(s0, w) ==>
              i < |t.rows| && i < |ApplyAll(t, run).rows| && t.rows[i].id == w.approval.value.offerId
              && var taken, r := DecisionsTaken(t, run, t.rows[i].id), ApplyAll(t, run).rows[i];
                 (taken == [] && r.status == PENDING_APPROVAL) || (|taken| == 1 && DecidedBy(r, taken[0]))
  {
    i := 0;
    G.NotesAreTrue(s0, w);
    if G.OfferSaved in G.FinalMessage(s0, w) {
      i := ExactAnswersReport(created, t, u);
      G.SavedIsFinal(s0, w, t, run, i);
    } else if G.ApprovalSent in G.FinalMessage(s0, w) {
      i := ExactAnswersReport(approval, t, u);
      G.SentAwaitsSupervisor(s0, w, t, run, i);
    }
  }
}
