/**
 The agent's offer workflow: a graph of nodes that call the backend and the language model, both of
 which may answer anything. Nodes extend a state; routing functions choose the next node.
 */
module OfferGraph {
  import opened Domain
  import opened Wrappers
  import opened OfferStore

  datatype Intent = CalculateOnly | CreateToo

  /** The answer to a tool call: decoded data, the error code FORBIDDEN, or any other failure. */
  datatype Answer<+T> = Got(value: T) | Forbidden | Failed

  datatype DealFacts = DealFacts(clientId: Option<int>, apartmentId: int)

  datatype Calculation = Calculation(dealId: int, basePrice: nat, discount: nat, finalPrice: nat, requiresApproval: bool)

  /** The reply to offer.create and to offer.request_approval. */
  datatype OfferReply = OfferReply(offerId: int, status: string)

  /** What the backend and the model answer in one run; each is asked at most once. */
  datatype World = World(
    deal: Answer<DealFacts>,
    client: Answer<int>,
    apartment: Answer<int>,
    calculation: Answer<Calculation>,
    text: Option<string>,
    created: Answer<OfferReply>,
    approval: Answer<OfferReply>
  )

  datatype Call =
    | GetDeal(dealId: int)
    | GetClient(clientId: int)
    | GetApartment(apartmentId: int)
    | CalculateOffer(dealId: int, userId: int, discount: nat, selection: Selection)
    | CreateOffer(dealId: int, userId: int, discount: nat, text: string, selection: Selection)
    | RequestApproval(offerId: int, userId: int)

  datatype GraphError = BACKEND_DATA_ERROR | OFFER_GENERATION_ERROR | OFFER_CREATE_ERROR | APPROVAL_REQUEST_ERROR

  /** The paragraphs of the message to the manager. */
  datatype Part =
    | BackendDataFailed | GenerationFailed
    | Prepared(text: string) | Figures(calculation: Calculation)
    | OfferSaved | SaveFailed | ApprovalSent | ApprovalFailed

  datatype State = State(
    userId: int,
    dealId: int,
    intent: Intent,
    discount: nat,
    selection: Selection,
    approvalRequired: bool,
    deal: Option<DealFacts>,
    client: Option<int>,
    apartment: Option<int>,
    calculation: Option<Calculation>,
    generatedText: Option<string>,
    offerId: Option<int>,
    awaitsApproval: bool,
    error: Option<GraphError>,
    message: Option<seq<Part>>
  )

  function InitialState(userId: int, dealId: int, intent: Intent, discount: nat, selection: Selection): State {
    State(userId, dealId, intent, discount, selection, false, None, None, None, None, None, None, false, None, None)
  }

  predicate IsInitial(s: State) {
    s == InitialState(s.userId, s.dealId, s.intent, s.discount, s.selection)
  }

  // ---------- the world, as far as a run is concerned ----------

  predicate DealUsable(w: World) {
    w.deal.Got? && w.deal.value.clientId.Some?
  }

  predicate FactsUsable(w: World) {
    DealUsable(w) && w.client.Got? && w.apartment.Got?
  }

  /** The backend calculated an offer for the right deal. */
  predicate Priced(w: World, s: State) {
    FactsUsable(w) && w.calculation.Got? && w.calculation.value.dealId == s.dealId
  }

  /** An offer is to be created. */
  predicate Submits(w: World, s: State) {
    Priced(w, s) && s.intent == CreateToo && w.text.Some?
  }

  function ExpectedStatus(required: bool): string {
    if required then "draft" else "approved"
  }

  predicate CreatedAsExpected(w: World, s: State) {
    Submits(w, s) && w.created.Got? && w.created.value.status == ExpectedStatus(w.calculation.value.requiresApproval)
  }

  predicate Escalates(w: World, s: State) {
    CreatedAsExpected(w, s) && w.calculation.value.requiresApproval
  }

  predicate Escalated(w: World, s: State) {
    Escalates(w, s) && w.approval.Got? && w.approval.value == OfferReply(w.created.value.offerId, "pending_approval")
  }

  /** Somewhere on the way the backend answered FORBIDDEN. */
  predicate MeetsForbidden(w: World, s: State) {
    || w.deal.Forbidden?
    || (DealUsable(w) && w.client.Forbidden?)
    || (DealUsable(w) && w.client.Got? && w.apartment.Forbidden?)
    || (FactsUsable(w) && w.calculation.Forbidden?)
    || (Submits(w, s) && w.created.Forbidden?)
    || (Escalates(w, s) && w.approval.Forbidden?)
  }

  /** The calls a run makes, in this order and each at most once. */
  datatype CallKind = DealCall | ClientCall | ApartmentCall | CalculationCall | CreationCall | ApprovalCall

  const CALL_ORDER := [DealCall, ClientCall, ApartmentCall, CalculationCall, CreationCall, ApprovalCall]

  function KindOf(c: Call): CallKind {
    match c
    case GetDeal(_) => DealCall
    case GetClient(_) => ClientCall
    case GetApartment(_) => ApartmentCall
    case CalculateOffer(_, _, _, _) => CalculationCall
    case CreateOffer(_, _, _, _, _) => CreationCall
    case RequestApproval(_, _) => ApprovalCall
  }

  /** A prefix of the fixed order, each call with the arguments that the earlier answers give it; in particular
      the offer is created with the calculated discount and the generated text, and approval is asked for the
      offer that was created. */
  ghost predicate InOrder(calls: seq<Call>, s: State, w: World) {
    && |calls| <= |CALL_ORDER|
    && (forall k :: 0 <= k < |calls| ==> KindOf(calls[k]) == CALL_ORDER[k])
    && (|calls| >= 1 ==> calls[0] == GetDeal(s.dealId))
    && (|calls| >= 2 ==> DealUsable(w) && calls[1] == GetClient(w.deal.value.clientId.value))
    && (|calls| >= 3 ==> w.client.Got? && calls[2] == GetApartment(w.deal.value.apartmentId))
    && (|calls| >= 4 ==> FactsUsable(w) && calls[3] == CalculateOffer(s.dealId, s.userId, s.discount, s.selection))
    && (|calls| >= 5 ==> Submits(w, s)
                         && calls[4] == CreateOffer(s.dealId, s.userId, w.calculation.value.discount, w.text.value, s.selection))
    && (|calls| >= 6 ==> Escalates(w, s) && calls[5] == RequestApproval(w.created.value.offerId, s.userId))
  }

  // ---------- nodes and routes ----------

  datatype Node = LoadDealNode | LoadClientNode | LoadApartmentNode | CalculateNode | GenerateNode | CreateNode | ApprovalNode | End

  function RouteError(s: State, next: Node): Node {
    if s.error.Some? then End else next
  }

  function RouteAfterCalculation(s: State): Node {
    if s.error.Some? || s.intent == CalculateOnly then End else GenerateNode
  }

  function RouteAfterCreate(s: State): Node {
    if s.error.Some? then End else if s.approvalRequired then ApprovalNode else End
  }

  function Route(node: Node, s: State): Node {
    match node
    case LoadDealNode => RouteError(s, LoadClientNode)
    case LoadClientNode => RouteError(s, LoadApartmentNode)
    case LoadApartmentNode => RouteError(s, CalculateNode)
    case CalculateNode => RouteAfterCalculation(s)
    case GenerateNode => RouteError(s, CreateNode)
    case CreateNode => RouteAfterCreate(s)
    case _ => End
  }

  function StepsLeft(node: Node): nat {
    match node
    case LoadDealNode => 7
    case LoadClientNode => 6
    case LoadApartmentNode => 5
    case CalculateNode => 4
    case GenerateNode => 3
    case CreateNode => 2
    case ApprovalNode => 1
    case End => 0
  }

  /** A step's new state, or None when FORBIDDEN is raised out of the graph. */
  type Step = Option<State>

  function BackendError(s: State, forbidden: bool): Step {
    if forbidden then None
    else Some(s.(error := Some(BACKEND_DATA_ERROR), message := Some([BackendDataFailed])))
  }

  // ---------- how far a run has come ----------

  function WithFacts(s0: State, w: World): State
    requires FactsUsable(w)
  {
    s0.(deal := Some(w.deal.value), client := Some(w.client.value), apartment := Some(w.apartment.value))
  }

  function WithCalculation(s0: State, w: World): State
    requires Priced(w, s0)
  {
    var s := WithFacts(s0, w).(calculation := Some(w.calculation.value), approvalRequired := w.calculation.value.requiresApproval);
    if s0.intent == CalculateOnly then s.(message := Some([Figures(w.calculation.value)])) else s
  }

  function PreparedParts(w: World): seq<Part>
    requires w.text.Some? && w.calculation.Got?
  {
    [Prepared(w.text.value), Figures(w.calculation.value)]
  }

  function CreatedParts(prepared: seq<Part>, required: bool): seq<Part> {
    if required then prepared else prepared + [OfferSaved]
  }

  function WithOffer(s0: State, w: World): State
    requires CreatedAsExpected(w, s0)
  {
    WithCalculation(s0, w).(
      generatedText := w.text,
      offerId := Some(w.created.value.offerId),
      message := Some(CreatedParts(PreparedParts(w), w.calculation.value.requiresApproval)))
  }

  /** The state and the calls with which a run arrives at a node. */
  ghost predicate Arrived(node: Node, s: State, s0: State, w: World, calls: seq<Call>) {
    && InOrder(calls, s0, w)
    && match node
       case LoadDealNode => s == s0 && calls == []
       case LoadClientNode => DealUsable(w) && s == s0.(deal := Some(w.deal.value)) && |calls| == 1
       case LoadApartmentNode =>
         DealUsable(w) && w.client.Got? && s == s0.(deal := Some(w.deal.value), client := Some(w.client.value)) && |calls| == 2
       case CalculateNode => FactsUsable(w) && s == WithFacts(s0, w) && |calls| == 3
       case GenerateNode => Priced(w, s0) && s0.intent == CreateToo && s == WithCalculation(s0, w) && |calls| == 4
       case CreateNode => Submits(w, s0) && s == WithCalculation(s0, w).(generatedText := w.text) && |calls| == 4
       case ApprovalNode => Escalates(w, s0) && s == WithOffer(s0, w) && |calls| == 5
       case End => Finished(s, s0, w, calls)
  }

  /** How a run that was not forbidden ends. */
  ghost predicate Finished(s: State, s0: State, w: World, calls: seq<Call>) {
    && !MeetsForbidden(w, s0)
    && s.message == Some(FinalMessage(s0, w))
    && (s.error.None? <==> Succeeded(s0, w))
    && (s.awaitsApproval <==> Escalated(w, s0))
    && (s.offerId.Some? <==> CreatedAsExpected(w, s0))
    && |calls| == CallCount(s0, w)
  }

  predicate Succeeded(s0: State, w: World) {
    Priced(w, s0) && (s0.intent == CreateToo ==> CreatedAsExpected(w, s0) && (Escalates(w, s0) ==> Escalated(w, s0)))
  }

  function FinalMessage(s0: State, w: World): seq<Part> {
    if !Priced(w, s0) then [BackendDataFailed]
    else if s0.intent == CalculateOnly then [Figures(w.calculation.value)]
    else if w.text.None? then [GenerationFailed]
    else if !CreatedAsExpected(w, s0) then PreparedParts(w) + [SaveFailed]
    else if !Escalates(w, s0) then PreparedParts(w) + [OfferSaved]
    else if Escalated(w, s0) then PreparedParts(w) + [ApprovalSent]
    else PreparedParts(w) + [ApprovalFailed]
  }

  /** How many calls are made: one more for each stage that is reached. */
  function CallCount(s0: State, w: World): nat {
    if !DealUsable(w) then 1
    else if !w.client.Got? then 2
    else if !w.apartment.Got? then 3
    else if !Submits(w, s0) then 4
    else if !Escalates(w, s0) then 5
    else 6
  }

  class OfferGraph {
    /** The tool calls made, in order. */
    var calls: seq<Call>

    constructor ()
      ensures calls == []
    {
      calls := [];
    }

    method LoadDeal(s: State, w: World) returns (r: Step)
      modifies this
      ensures calls == old(calls) + [GetDeal(s.dealId)]
      ensures r == if DealUsable(w) then Some(s.(deal := Some(w.deal.value))) else BackendError(s, w.deal.Forbidden?)
    {
      calls := calls + [GetDeal(s.dealId)];
      if !w.deal.Got? {
        return BackendError(s, w.deal.Forbidden?);
      }
      if w.deal.value.clientId.None? {
        return BackendError(s, false);
      }
      return Some(s.(deal := Some(w.deal.value)));
    }

    method LoadClient(s: State, w: World) returns (r: Step)
      requires s.deal.Some? && s.deal.value.clientId.Some?
      modifies this
      ensures calls == old(calls) + [GetClient(s.deal.value.clientId.value)]
      ensures r == if w.client.Got? then Some(s.(client := Some(w.client.value))) else BackendError(s, w.client.Forbidden?)
    {
      calls := calls + [GetClient(s.deal.value.clientId.value)];
      if !w.client.Got? {
        return BackendError(s, w.client.Forbidden?);
      }
      return Some(s.(client := Some(w.client.value)));
    }

    method LoadApartment(s: State, w: World) returns (r: Step)
      requires s.deal.Some?
      modifies this
      ensures calls == old(calls) + [GetApartment(s.deal.value.apartmentId)]
      ensures r == if w.apartment.Got? then Some(s.(apartment := Some(w.apartment.value)))
                   else BackendError(s, w.apartment.Forbidden?)
    {
      calls := calls + [GetApartment(s.deal.value.apartmentId)];
      if !w.apartment.Got? {
        return BackendError(s, w.apartment.Forbidden?);
      }
      return Some(s.(apartment := Some(w.apartment.value)));
    }

    method Calculate(s: State, w: World) returns (r: Step)
      modifies this
      ensures calls == old(calls) + [CalculateOffer(s.dealId, s.userId, s.discount, s.selection)]
      ensures !w.calculation.Got? || w.calculation.value.dealId != s.dealId ==> r == BackendError(s, w.calculation.Forbidden?)
      ensures w.calculation.Got? && w.calculation.value.dealId == s.dealId ==>
                var c := w.calculation.value;
                r == Some(s.(calculation := Some(c), approvalRequired := c.requiresApproval,
                             message := if s.intent == CalculateOnly then Some([Figures(c)]) else s.message))
    {
      calls := calls + [CalculateOffer(s.dealId, s.userId, s.discount, s.selection)];
      if !w.calculation.Got? {
        return BackendError(s, w.calculation.Forbidden?);
      }
      var calculation := w.calculation.value;
      if calculation.dealId != s.dealId {
        return BackendError(s, false);
      }
      var update := s.(calculation := Some(calculation), approvalRequired := calculation.requiresApproval);
      if s.intent == CalculateOnly {
        update := update.(message := Some([Figures(calculation)]));
      }
      return Some(update);
    }

    method GenerateText(s: State, w: World) returns (r: Step)
      ensures r == Some(if w.text.Some? then s.(generatedText := w.text)
                        else s.(error := Some(OFFER_GENERATION_ERROR), message := Some([GenerationFailed])))
    {
      if w.text.Some? {
        return Some(s.(generatedText := w.text));
      }
      return Some(s.(error := Some(OFFER_GENERATION_ERROR), message := Some([GenerationFailed])));
    }

    method Create(s: State, w: World) returns (r: Step)
      requires s.calculation.Some? && s.generatedText.Some?
      modifies this
      ensures calls == old(calls)
                       + [CreateOffer(s.dealId, s.userId, s.calculation.value.discount, s.generatedText.value, s.selection)]
      ensures r.None? <==> w.created.Forbidden?
      ensures var prepared := [Prepared(s.generatedText.value), Figures(s.calculation.value)];
              !w.created.Forbidden? ==>
                if w.created.Got? && w.created.value.status == ExpectedStatus(s.approvalRequired)
                then r == Some(s.(offerId := Some(w.created.value.offerId),
                                  message := Some(CreatedParts(prepared, s.approvalRequired))))
                else r == Some(s.(error := Some(OFFER_CREATE_ERROR), message := Some(prepared + [SaveFailed])))
    {
      var response := [Prepared(s.generatedText.value), Figures(s.calculation.value)];
      calls := calls + [CreateOffer(s.dealId, s.userId, s.calculation.value.discount, s.generatedText.value, s.selection)];
      if w.created.Forbidden? {
        return None;
      }
      if w.created.Got? {
        var expected := if s.approvalRequired then "draft" else "approved";
        if w.created.value.status == expected {
          if !s.approvalRequired {
            response := response + [OfferSaved];
          }
          return Some(s.(offerId := Some(w.created.value.offerId), message := Some(response)));
        }
      }
      return Some(s.(error := Some(OFFER_CREATE_ERROR), message := Some(response + [SaveFailed])));
    }

    method AskApproval(s: State, w: World) returns (r: Step)
      requires s.offerId.Some? && s.message.Some?
      modifies this
      ensures calls == old(calls) + [RequestApproval(s.offerId.value, s.userId)]
      ensures r.None? <==> w.approval.Forbidden?
      ensures !w.approval.Forbidden? ==>
                if w.approval == Got(OfferReply(s.offerId.value, "pending_approval"))
                then r == Some(s.(awaitsApproval := true, message := Some(s.message.value + [ApprovalSent])))
                else r == Some(s.(error := Some(APPROVAL_REQUEST_ERROR), message := Some(s.message.value + [ApprovalFailed])))
    {
      calls := calls + [RequestApproval(s.offerId.value, s.userId)];
      if w.approval.Forbidden? {
        return None;
      }
      if w.approval.Got? && w.approval.value.offerId == s.offerId.value && w.approval.value.status == "pending_approval" {
        return Some(s.(awaitsApproval := true, message := Some(s.message.value + [ApprovalSent])));
      }
      return Some(s.(error := Some(APPROVAL_REQUEST_ERROR), message := Some(s.message.value + [ApprovalFailed])));
    }

    method ExecuteLoad(node: Node, s: State, s0: State, w: World, ghost start: nat) returns (r: Step)
      requires IsInitial(s0) && start <= |calls| && Arrived(node, s, s0, w, calls[start..])
      requires node.LoadDealNode? || node.LoadClientNode? || node.LoadApartmentNode?
      modifies this
      ensures |calls| >= |old(calls)| && calls[..|old(calls)|] == old(calls)
      ensures |calls| > start
      ensures r.None? ==> MeetsForbidden(w, s0) && InOrder(calls[start..], s0, w)
      ensures r.Some? ==> Arrived(Route(node, r.value), r.value, s0, w, calls[start..])
    {
      ghost var made := calls[start..];
      match node {
        case LoadDealNode => r := LoadDeal(s, w);
        case LoadClientNode => r := LoadClient(s, w);
        case LoadApartmentNode => r := LoadApartment(s, w);
      }
      assert calls[start..] == made + calls[|old(calls)|..];
    }

    method ExecutePrice(node: Node, s: State, s0: State, w: World, ghost start: nat) returns (r: Step)
      requires IsInitial(s0) && start <= |calls| && Arrived(node, s, s0, w, calls[start..])
      requires node.CalculateNode? || node.GenerateNode?
      modifies this
      ensures |calls| >= |old(calls)| && calls[..|old(calls)|] == old(calls)
      ensures |calls| > start
      ensures r.None? ==> MeetsForbidden(w, s0) && InOrder(calls[start..], s0, w)
      ensures r.Some? ==> Arrived(Route(node, r.value), r.value, s0, w, calls[start..])
    {
      ghost var made := calls[start..];
      match node {
        case CalculateNode =>
          r := Calculate(s, w);
          assert calls[start..] == made + [CalculateOffer(s.dealId, s.userId, s.discount, s.selection)];
        case GenerateNode => r := GenerateText(s, w);
      }
    }

    method ExecuteOffer(node: Node, s: State, s0: State, w: World, ghost start: nat) returns (r: Step)
      requires IsInitial(s0) && start <= |calls| && Arrived(node, s, s0, w, calls[start..])
      requires node.CreateNode? || node.ApprovalNode?
      modifies this
      ensures |calls| >= |old(calls)| && calls[..|old(calls)|] == old(calls)
      ensures |calls| > start
      ensures r.None? ==> MeetsForbidden(w, s0) && InOrder(calls[start..], s0, w)
      ensures r.Some? ==> Arrived(Route(node, r.value), r.value, s0, w, calls[start..])
    {
      ghost var made := calls[start..];
      match node {
        case CreateNode =>
          r := Create(s, w);
          assert calls[start..] == made + calls[|old(calls)|..];
        case ApprovalNode =>
          r := AskApproval(s, w);
          assert calls[start..] == made + calls[|old(calls)|..];
      }
    }

    method Execute(node: Node, s: State, s0: State, w: World, ghost start: nat) returns (r: Step)
      requires IsInitial(s0) && start <= |calls| && Arrived(node, s, s0, w, calls[start..])
      requires node != End
      modifies this
      ensures |calls| >= |old(calls)| && calls[..|old(calls)|] == old(calls)
      ensures |calls| > start
      ensures r.None? ==> MeetsForbidden(w, s0) && InOrder(calls[start..], s0, w)
      ensures r.Some? ==> Arrived(Route(node, r.value), r.value, s0, w, calls[start..])
    {
      match node {
        case LoadDealNode | LoadClientNode | LoadApartmentNode => r := ExecuteLoad(node, s, s0, w, start);
        case CalculateNode | GenerateNode => r := ExecutePrice(node, s, s0, w, start);
        case CreateNode | ApprovalNode => r := ExecuteOffer(node, s, s0, w, start);
      }
    }

    method Run(s0: State, w: World) returns (r: Step)
      requires IsInitial(s0)
      modifies this
      ensures |calls| > |old(calls)| && calls[..|old(calls)|] == old(calls)
      ensures InOrder(calls[|old(calls)|..], s0, w)
      ensures r.None? <==> MeetsForbidden(w, s0)
      ensures r.Some? ==> Finished(r.value, s0, w, calls[|old(calls)|..])
    {
      var s := s0;
      var node := LoadDealNode;
      ghost var start := |calls|;
      while node != End
        invariant start <= |calls| && calls[..start] == old(calls)
        invariant Arrived(node, s, s0, w, calls[start..])
        invariant node != LoadDealNode ==> |calls| > start
        decreases StepsLeft(node)
      {
        var step := Execute(node, s, s0, w, start);
        if step.None? {
          return None;
        }
        s := step.value;
        node := Route(node, s);
      }
      return Some(s);
    }
  }

  // ---------- the message and the stored offer ----------

  /** How far a run gets, in terms of the answers alone: the deal must name its client, the calculation must be for the
      deal asked about, and only a request to create an offer, with a generated text, creates one. */
  lemma StagesMean(s0: State, w: World)
    ensures DealUsable(w) <==> w.deal.Got? && w.deal.value.clientId.Some?
    ensures Priced(w, s0) <==>
            && w.deal.Got? && w.deal.value.clientId.Some? && w.client.Got? && w.apartment.Got?
            && w.calculation.Got? && w.calculation.value.dealId == s0.dealId
    ensures Submits(w, s0) <==> Priced(w, s0) && s0.intent == CreateToo && w.text.Some?
    ensures CreatedAsExpected(w, s0) <==>
            && Submits(w, s0) && w.created.Got?
            && w.created.value.status == (if w.calculation.value.requiresApproval then "draft" else "approved")
    ensures Escalates(w, s0) <==> CreatedAsExpected(w, s0) && w.calculation.value.requiresApproval
  {
  }

  /** The notes appear exactly when they are true of what the backend answered. */
  lemma NotesAreTrue(s0: State, w: World)
    ensures OfferSaved in FinalMessage(s0, w) <==> CreatedAsExpected(w, s0) && w.created.value.status == "approved"
    ensures ApprovalSent in FinalMessage(s0, w) <==>
            Escalates(w, s0) && w.approval == Got(OfferReply(w.created.value.offerId, "pending_approval"))
    ensures ApprovalFailed in FinalMessage(s0, w) ==> w.created.Got? && w.created.value.status == "draft"
    ensures SaveFailed in FinalMessage(s0, w) <==> Submits(w, s0) && !CreatedAsExpected(w, s0)
    ensures BackendDataFailed in FinalMessage(s0, w) <==> !Priced(w, s0)
    ensures GenerationFailed in FinalMessage(s0, w) <==> Priced(w, s0) && s0.intent == CreateToo && w.text.None?
    ensures forall text :: Prepared(text) in FinalMessage(s0, w) <==> Submits(w, s0) && w.text == Some(text)
    ensures forall c :: Figures(c) in FinalMessage(s0, w) <==>
              Priced(w, s0) && (s0.intent == CalculateOnly || w.text.Some?) && w.calculation == Got(c)
    ensures FinalMessage(s0, w) != []
  {
  }

  function StatusText(status: Status): string {
    match status
    case DRAFT => "draft"
    case PENDING_APPROVAL => "pending_approval"
    case APPROVED => "approved"
    case REJECTED => "rejected"
  }

  /** The reply names row i of the table and reports its status. */
  predicate Reports(reply: Answer<OfferReply>, t: Table, i: nat) {
    reply.Got? && i < |t.rows| && reply.value == OfferReply(t.rows[i].id, StatusText(t.rows[i].status))
  }

  /** An offer reported to the manager as saved is approved, and stays so with all its prices. */
  lemma SavedIsFinal(s0: State, w: World, t: Table, run: seq<Statement>, i: nat)
    requires Inv(t) && AllGuarded(run) && Reports(w.created, t, i)
    requires OfferSaved in FinalMessage(s0, w)
    ensures i < |ApplyAll(t, run).rows| && ApplyAll(t, run).rows[i] == t.rows[i] && t.rows[i].status == APPROVED
  {
    NotesAreTrue(s0, w);
    FinalStays(t, run, i);
  }

  /** An offer reported as sent for approval awaits a supervisor: it stays pending until exactly one decides. */
  lemma SentAwaitsSupervisor(s0: State, w: World, t: Table, run: seq<Statement>, i: nat)
    requires Inv(t) && AllGuarded(run) && Reports(w.approval, t, i)
    requires ApprovalSent in FinalMessage(s0, w)
    ensures t.rows[i].status == PENDING_APPROVAL && i < |ApplyAll(t, run).rows|
    ensures var taken, r := DecisionsTaken(t, run, t.rows[i].id), ApplyAll(t, run).rows[i];
            (taken == [] && r.status == PENDING_APPROVAL) || (|taken| == 1 && DecidedBy(r, taken[0]))
  {
    NotesAreTrue(s0, w);
    assert RowOk(t.rows[i]);
    OneDecision(t, run, i);
    RunKeeps(t, run);
    assert RowEvolves(t.rows[i], ApplyAll(t, run).rows[i]);
  }

  /** The manager is told that saving failed exactly when the reply to offer.create is lost or unusable, or reports
      another status than the shown calculation leads one to expect. */
  lemma SaveErrorIff(s0: State, w: World)
    requires Submits(w, s0) && !w.created.Forbidden?
    ensures SaveFailed in FinalMessage(s0, w) <==>
            w.created.Failed? || w.created.value.status != ExpectedStatus(w.calculation.value.requiresApproval)
  {
    NotesAreTrue(s0, w);
  }

  /** So although row i of the table is the stored offer, the manager reads that saving failed exactly if the reply was
      lost, or the row is not the draft, or not the approved offer, that the shown calculation led one to expect. For an
      offer that has not moved on since its insert that means: exactly if the two calculations disagree. */
  lemma SaveErrorDespiteRowIff(s0: State, w: World, t: Table, i: nat)
    requires Submits(w, s0) && Inv(t) && i < |t.rows|
    requires w.created == Failed || Reports(w.created, t, i)
    ensures var r, required := t.rows[i], w.calculation.value.requiresApproval;
            && (SaveFailed in FinalMessage(s0, w) <==>
                  w.created == Failed || (if required then r.status != DRAFT else r.status != APPROVED))
            && (r.status == r.offer.status ==>
                  (SaveFailed in FinalMessage(s0, w) <==> w.created == Failed || r.offer.approvalRequired != required))
  {
    SaveErrorIff(s0, w);
    assert RowOk(t.rows[i]);
  }
}
