/**
 The offer service: a calculation from several reads, and three operations that read a row and then
 issue a guarded statement. Whatever other actors do in the gaps between the reads and the statement
 is a parameter, so each contract holds for every interleaving.
 */
module OfferService {
  import opened Wrappers
  import opened Text
  import opened Percent
  import opened Pricing
  import opened Domain
  import opened OfferStore

  datatype OfferError =
    | InvalidDiscount | InvalidOfferState | OfferForbidden | InvalidPrice | InvalidAncillary
    | OfferNotFound | DealNotFound | ApartmentNotFound | UserNotFound | AncillaryNotFound | StoreFailed

  type Answer<+T> = Result<T, OfferError>

  datatype Deal = Deal(id: int, apartmentId: int, employeeId: int, clientId: int)

  datatype Apartment = Apartment(priceText: string, buildingId: int)

  /** The configured limits, in basis points. */
  datatype Limits = Limits(manager: nat, supervisor: nat)

  /** What the reads of one call answer; another call may be answered differently. activePolicy is
      Ok(None) when no policy is in force or no policy reader is configured. */
  datatype Facts = Facts(
    user: Answer<User>,
    deal: Answer<Deal>,
    activePolicy: Answer<Option<string>>,
    apartment: Answer<Apartment>,
    parking: Answer<Unit>,
    storage: Answer<Unit>
  )

  datatype Calculation = Calculation(
    dealId: int,
    priced: Priced,
    discount: int,
    discountAmount: int,
    finalPrice: int,
    limit: int,
    requiresApproval: bool
  )

  /** Reads by id answer with the row of that id. */
  predicate Answers(f: Facts, dealId: int, actorId: int, selection: Selection) {
    && (f.user.Ok? ==> f.user.value.id == actorId)
    && (f.deal.Ok? ==> f.deal.value.id == dealId)
    && (f.parking.Ok? ==> Some(f.parking.value.id) == selection.parking)
    && (f.storage.Ok? ==> Some(f.storage.value.id) == selection.storage)
  }

  // ---------- when a calculation is refused, and with which error ----------

  predicate MayActFor(user: User, deal: Deal) {
    user.role == RoleSupervisor || (user.role == RoleManager && deal.employeeId == user.id)
  }

  function First(a: Option<OfferError>, b: Option<OfferError>): Option<OfferError> {
    if a.Some? then a else b
  }

  function Failure<T>(a: Answer<T>): Option<OfferError> {
    if a.Err? then Some(a.error) else None
  }

  function Unless(ok: bool, error: OfferError): Option<OfferError> {
    if ok then None else Some(error)
  }

  function AccessRefusal(f: Facts): Option<OfferError> {
    First(Failure(f.user), First(Failure(f.deal),
      Unless(f.user.Ok? && f.deal.Ok? && MayActFor(f.user.value, f.deal.value), OfferForbidden)))
  }

  /** The limit in force for the actor: the active policy, or else the configured one of the role. */
  function MaxDiscount(limits: Limits, f: Facts, role: Role): Answer<int> {
    match f.activePolicy
    case Err(e) => Err(e)
    case Ok(Some(text)) => (match ParsePercent(text) case Some(v) => Ok(v) case None => Err(InvalidDiscount))
    case Ok(None) =>
      match role
      case RoleManager => Ok(limits.manager)
      case RoleSupervisor => Ok(limits.supervisor)
      case RoleUser => Err(OfferForbidden)
  }

  function ApartmentPrice(f: Facts): Answer<int> {
    match f.apartment
    case Err(e) => Err(e)
    case Ok(a) => match MoneyRounded(a.priceText) case Some(p) => Ok(p) case None => Err(StoreFailed)
  }

  predicate Available(unit: Unit, buildingId: int, parking: bool) {
    unit.buildingId == buildingId && unit.parking == parking && unit.free
  }

  function AncillaryRefusal(id: Option<int>, unit: Answer<Unit>, buildingId: int, parking: bool): Option<OfferError> {
    if id.None? then None
    else
      First(Unless(id.value > 0, InvalidAncillary),
            First(Failure(unit), Unless(unit.Ok? && Available(unit.value, buildingId, parking), InvalidAncillary)))
  }

  function Chosen(id: Option<int>, unit: Answer<Unit>): Option<Unit> {
    if id.Some? && unit.Ok? then Some(unit.value) else None
  }

  function Total(f: Facts, selection: Selection): int {
    (if ApartmentPrice(f).Ok? then ApartmentPrice(f).value else 0)
    + UnitPrice(Chosen(selection.parking, f.parking)) + UnitPrice(Chosen(selection.storage, f.storage))
  }

  function PriceRefusal(f: Facts, selection: Selection): Option<OfferError> {
    var buildingId := if f.apartment.Ok? then f.apartment.value.buildingId else 0;
    First(Failure(ApartmentPrice(f)),
    First(Unless(ApartmentPrice(f).Ok? && ApartmentPrice(f).value > 0, InvalidPrice),
    First(AncillaryRefusal(selection.parking, f.parking, buildingId, true),
    First(AncillaryRefusal(selection.storage, f.storage, buildingId, false),
          Unless(Total(f, selection) <= MAX_INT64, InvalidPrice)))))
  }

  function LimitOf(limits: Limits, f: Facts): Answer<int> {
    match f.user
    case Ok(user) => MaxDiscount(limits, f, user.role)
    case Err(e) => Err(e)
  }

  /** The first of the checks that fails. */
  function Refusal(limits: Limits, text: string, selection: Selection, f: Facts): Option<OfferError> {
    First(Unless(ParsePercent(text).Some?, InvalidDiscount),
    First(AccessRefusal(f),
    First(Unless(f.deal.Ok? && f.deal.value.apartmentId > 0, ApartmentNotFound),
    First(Failure(LimitOf(limits, f)),
          PriceRefusal(f, selection)))))
  }

  /** The checks and their errors in the order in which they are made, in terms of the reads alone. */
  lemma RefusalSpelledOut(limits: Limits, text: string, selection: Selection, f: Facts)
    ensures Refusal(limits, text, selection, f) ==
            if ParsePercent(text).None? then Some(InvalidDiscount)
            else if f.user.Err? then Some(f.user.error)
            else if f.deal.Err? then Some(f.deal.error)
            else if f.user.value.role == RoleUser then Some(OfferForbidden)
            else if f.user.value.role == RoleManager && f.deal.value.employeeId != f.user.value.id then Some(OfferForbidden)
            else if f.deal.value.apartmentId <= 0 then Some(ApartmentNotFound)
            else if f.activePolicy.Err? then Some(f.activePolicy.error)
            else if f.activePolicy.value.Some? && ParsePercent(f.activePolicy.value.value).None? then Some(InvalidDiscount)
            else if f.apartment.Err? then Some(f.apartment.error)
            else if MoneyRounded(f.apartment.value.priceText).None? then Some(StoreFailed)
            else if MoneyRounded(f.apartment.value.priceText).value <= 0 then Some(InvalidPrice)
            else if selection.parking.Some? && selection.parking.value <= 0 then Some(InvalidAncillary)
            else if selection.parking.Some? && f.parking.Err? then Some(f.parking.error)
            else if selection.parking.Some?
                    && (f.parking.value.buildingId != f.apartment.value.buildingId || !f.parking.value.parking
                        || !f.parking.value.free) then Some(InvalidAncillary)
            else if selection.storage.Some? && selection.storage.value <= 0 then Some(InvalidAncillary)
            else if selection.storage.Some? && f.storage.Err? then Some(f.storage.error)
            else if selection.storage.Some?
                    && (f.storage.value.buildingId != f.apartment.value.buildingId || f.storage.value.parking
                        || !f.storage.value.free) then Some(InvalidAncillary)
            else if MoneyRounded(f.apartment.value.priceText).value
                    + (if selection.parking.Some? then f.parking.value.price else 0)
                    + (if selection.storage.Some? then f.storage.value.price else 0) > MAX_INT64 then Some(InvalidPrice)
            else None
  {
  }

  predicate SelectionHonoured(id: Option<int>, unit: Option<Unit>, buildingId: int, parking: bool) {
    && unit.Some? == id.Some?
    && (id.Some? ==> id.value > 0 && unit.value.id == id.value && Available(unit.value, buildingId, parking))
  }

  datatype Priced = Priced(apartmentPrice: Price, basePrice: Price, parking: Option<Unit>, storage: Option<Unit>)

  /** The base price is the sum of the apartment's rounded price and of the free units selected in its building. */
  predicate PricedFrom(p: Priced, selection: Selection, f: Facts) {
    && f.apartment.Ok? && MoneyRounded(f.apartment.value.priceText) == Some(p.apartmentPrice) && p.apartmentPrice > 0
    && p.parking == Chosen(selection.parking, f.parking) && p.storage == Chosen(selection.storage, f.storage)
    && SelectionHonoured(selection.parking, p.parking, f.apartment.value.buildingId, true)
    && SelectionHonoured(selection.storage, p.storage, f.apartment.value.buildingId, false)
    && p.basePrice == p.apartmentPrice + UnitPrice(p.parking) + UnitPrice(p.storage)
  }

  /** What an answered calculation says, whatever the order in which it was computed. */
  predicate Sound(c: Calculation, limits: Limits, text: string, dealId: int, selection: Selection, f: Facts) {
    && c.dealId == dealId
    && ParsePercent(text) == Some(c.discount)
    && f.user.Ok? && f.deal.Ok? && MayActFor(f.user.value, f.deal.value)
    && PricedFrom(c.priced, selection, f)
    && c.discountAmount == DiscountAmount(c.priced.basePrice, c.discount)
    && c.finalPrice == FinalPrice(c.priced.basePrice, c.discount)
    && MaxDiscount(limits, f, f.user.value.role) == Ok(c.limit)
    && c.requiresApproval == (c.discount > c.limit)
  }

  /** A sound answer in terms of the reads alone: who may ask, which limit applies, which units are priced and how. */
  lemma SoundMeans(c: Calculation, limits: Limits, text: string, dealId: int, selection: Selection, f: Facts)
    requires Sound(c, limits, text, dealId, selection, f)
    ensures f.user.Ok? && f.deal.Ok? && f.user.value.role != RoleUser
    ensures f.user.value.role == RoleManager ==> f.deal.value.employeeId == f.user.value.id
    ensures f.activePolicy == Ok(None) ==>
              c.limit == (if f.user.value.role == RoleManager then limits.manager else limits.supervisor)
    ensures f.activePolicy != Ok(None) ==>
              f.activePolicy.Ok? && ParsePercent(f.activePolicy.value.value) == Some(c.limit)
    ensures f.apartment.Ok? && MoneyRounded(f.apartment.value.priceText) == Some(c.priced.apartmentPrice)
    ensures selection.parking.Some? ==>
              f.parking.Ok? && c.priced.parking == Some(f.parking.value) && f.parking.value.parking && f.parking.value.free
              && f.parking.value.buildingId == f.apartment.value.buildingId
    ensures selection.storage.Some? ==>
              f.storage.Ok? && c.priced.storage == Some(f.storage.value) && !f.storage.value.parking && f.storage.value.free
              && f.storage.value.buildingId == f.apartment.value.buildingId
    ensures c.priced.basePrice == c.priced.apartmentPrice
                                  + (if selection.parking.Some? then f.parking.value.price else 0)
                                  + (if selection.storage.Some? then f.storage.value.price else 0)
    ensures c.requiresApproval <==> c.discount > c.limit
  {
  }

  /** Sound leaves nothing open: two sound answers from the same data and equal discounts are equal. */
  lemma SoundIsUnique(c: Calculation, c': Calculation, limits: Limits, text: string, text': string, dealId: int,
                      selection: Selection, f: Facts)
    requires Sound(c, limits, text, dealId, selection, f) && Sound(c', limits, text', dealId, selection, f)
    requires c.discount == c'.discount
    ensures c == c'
  {
    assert c.priced == c'.priced;
  }

  method AncillarySelection(id: Option<int>, unit: Answer<Unit>, buildingId: int, parking: bool)
    returns (r: Answer<Option<Unit>>)
    requires unit.Ok? ==> Some(unit.value.id) == id
    ensures r.Err? <==> AncillaryRefusal(id, unit, buildingId, parking).Some?
    ensures r.Err? ==> Some(r.error) == AncillaryRefusal(id, unit, buildingId, parking)
    ensures r.Ok? ==> r.value == Chosen(id, unit) && SelectionHonoured(id, r.value, buildingId, parking)
  {
    if id.None? {
      return Ok(None);
    }
    if id.value <= 0 {
      return Err(InvalidAncillary);
    }
    if unit.Err? {
      return Err(unit.error);
    }
    var u := unit.value;
    if u.buildingId != buildingId || u.parking != parking || !u.free {
      return Err(InvalidAncillary);
    }
    return Ok(Some(u));
  }

  method PriceSelection(selection: Selection, f: Facts) returns (r: Answer<Priced>)
    requires f.parking.Ok? ==> Some(f.parking.value.id) == selection.parking
    requires f.storage.Ok? ==> Some(f.storage.value.id) == selection.storage
    ensures r.Err? <==> PriceRefusal(f, selection).Some?
    ensures r.Err? ==> Some(r.error) == PriceRefusal(f, selection)
    ensures r.Ok? ==> PricedFrom(r.value, selection, f)
  {
    if f.apartment.Err? {
      return Err(f.apartment.error);
    }
    var apartmentPrice := DecimalMoneyToInteger(f.apartment.value.priceText);
    if apartmentPrice.None? {
      return Err(StoreFailed);
    }
    if apartmentPrice.value <= 0 {
      return Err(InvalidPrice);
    }
    var buildingId := f.apartment.value.buildingId;
    var parking := AncillarySelection(selection.parking, f.parking, buildingId, true);
    if parking.Err? {
      return Err(parking.error);
    }
    var storage := AncillarySelection(selection.storage, f.storage, buildingId, false);
    if storage.Err? {
      return Err(storage.error);
    }
    MoneyFits(f.apartment.value.priceText);
    var basePrice := BasePrice(apartmentPrice.value, parking.value, storage.value);
    if basePrice.None? {
      return Err(InvalidPrice);
    }
    return Ok(Priced(apartmentPrice.value, basePrice.value, parking.value, storage.value));
  }

  method Calculate(limits: Limits, dealId: int, actorId: int, text: string, selection: Selection, f: Facts)
    returns (r: Answer<Calculation>)
    requires Answers(f, dealId, actorId, selection)
    ensures r.Err? <==> Refusal(limits, text, selection, f).Some?
    ensures r.Err? ==> Some(r.error) == Refusal(limits, text, selection, f)
    ensures r.Ok? ==> Sound(r.value, limits, text, dealId, selection, f)
    // Without a policy in force the limit is the configured one of the actor's role.
    ensures r.Ok? && f.activePolicy == Ok(None) ==>
              f.user.Ok? && f.user.value.role != RoleUser
              && r.value.limit == (if f.user.value.role == RoleManager then limits.manager else limits.supervisor)
    ensures r.Ok? && f.activePolicy != Ok(None) ==>
              f.activePolicy.Ok? && ParsePercent(f.activePolicy.value.value) == Some(r.value.limit)
    ensures r.Ok? ==> (r.value.requiresApproval <==> r.value.discount > r.value.limit)
  {
    var discount := PercentStringToBasisPoints(text);
    if discount.None? {
      return Err(InvalidDiscount);
    }
    if f.user.Err? {
      return Err(f.user.error);
    }
    if f.deal.Err? {
      return Err(f.deal.error);
    }
    var user, deal := f.user.value, f.deal.value;
    if !MayActFor(user, deal) {
      return Err(OfferForbidden);
    }
    if deal.apartmentId <= 0 {
      return Err(ApartmentNotFound);
    }
    var limit := MaxDiscount(limits, f, user.role);
    if limit.Err? {
      return Err(limit.error);
    }
    var priced := PriceSelection(selection, f);
    if priced.Err? {
      return Err(priced.error);
    }
    var discountAmount, finalPrice := TakeDiscount(priced.value.basePrice, discount.value);
    return Ok(Calculation(
      deal.id, priced.value, discount.value, discountAmount, finalPrice, limit.value, discount.value > limit.value));
  }

  method TakeDiscount(basePrice: Price, discount: int) returns (discountAmount: int, finalPrice: int)
    ensures discountAmount == DiscountAmount(basePrice, discount) && finalPrice == FinalPrice(basePrice, discount)
  {
    discountAmount := RoundedRatio(basePrice, discount, 10000);
    finalPrice := Wrap64(basePrice - discountAmount);
  }

  /** The money parser answers an int64. */
  lemma MoneyFits(text: string)
    ensures MoneyRounded(text).Some? ==> MoneyRounded(text).value <= MAX_INT64
  {
  }

  // ---------- interleaving ----------

  /** Statements of other actors: before the first look at the row, between that look and the operation's
      own statement, and between the statement and the read that answers the caller. */
  datatype Gaps = Gaps(beforeLook: seq<Statement>, beforeStatement: seq<Statement>, beforeReadBack: seq<Statement>)

  /** A database error at one of the steps; an unacknowledged statement has taken effect. */
  datatype Fault = NoFault | LookFails | StatementFails | StatementUnacknowledged | ReadBackFails

  predicate OthersGuarded(gaps: Gaps) {
    AllGuarded(gaps.beforeLook) && AllGuarded(gaps.beforeStatement) && AllGuarded(gaps.beforeReadBack)
  }

  /** All statements of one operation's life: its own, if it was sent, with those of others around it. */
  function Interleaved(gaps: Gaps, looked: bool, own: Option<Statement>): seq<Statement> {
    if !looked then gaps.beforeLook
    else
      gaps.beforeLook + gaps.beforeStatement
      + match own case None => [] case Some(s) => [s] + gaps.beforeReadBack
  }

  lemma InterleavedGuarded(gaps: Gaps, looked: bool, own: Option<Statement>)
    requires OthersGuarded(gaps) && (own.Some? ==> Guarded(own.value))
    ensures AllGuarded(Interleaved(gaps, looked, own))
  {
  }

  lemma InterleavedSteps(t: Table, gaps: Gaps, s: Statement)
    ensures ApplyAll(t, Interleaved(gaps, true, None)) == ApplyAll(ApplyAll(t, gaps.beforeLook), gaps.beforeStatement)
    ensures ApplyAll(t, Interleaved(gaps, true, Some(s))) ==
            ApplyAll(Apply(ApplyAll(ApplyAll(t, gaps.beforeLook), gaps.beforeStatement), s), gaps.beforeReadBack)
  {
    var a, b, c := gaps.beforeLook, gaps.beforeStatement, [s] + gaps.beforeReadBack;
    ApplyAllConcat(t, a, b);
    ApplyAllConcat(t, a + b, c);
    assert a + b + [] == a + b;
    assert c[1..] == gaps.beforeReadBack;
  }

  /** The stored row of a request id, or of an offer id. */
  predicate RowOfRequest(t: Table, requestId: string, r: Row) {
    var i := IndexOfRequest(t.rows, requestId);
    i.Some? && t.rows[i.value] == r
  }

  predicate RowOfId(t: Table, id: nat, r: Row) {
    var i := IndexOfId(t.rows, id);
    i.Some? && t.rows[i.value] == r
  }

  /** A row once found under a key is found under it, evolved, after every run. */
  lemma RowsAreKept(t: Table, run: seq<Statement>, i: nat)
    requires Inv(t) && AllGuarded(run) && i < |t.rows|
    ensures Inv(ApplyAll(t, run)) && i < |ApplyAll(t, run).rows|
    ensures RowEvolves(t.rows[i], ApplyAll(t, run).rows[i]) && RowOk(ApplyAll(t, run).rows[i])
    ensures IndexOfId(ApplyAll(t, run).rows, t.rows[i].id) == Some(i)
    ensures IndexOfRequest(ApplyAll(t, run).rows, t.rows[i].offer.requestId) == Some(i)
  {
    RunKeeps(t, run);
    var t' := ApplyAll(t, run);
    IndexOfIdIs(t', i);
    IndexFinds(t'.rows, i);
    var k := IndexOfRequest(t'.rows, t'.rows[i].offer.requestId).value;
    assert k < i || i < k || k == i;
  }

  // ---------- Create ----------

  predicate SameRequest(o: NewOffer, dealId: int, actorId: int, selection: Selection) {
    o.dealId == dealId && o.createdBy == actorId && o.parkingUnitId == selection.parking && o.storageUnitId == selection.storage
  }

  function UnitId(unit: Option<Unit>): Option<int> {
    if unit.Some? then Some(unit.value.id) else None
  }

  function OfferFrom(c: Calculation, requestId: string, dealId: int, actorId: int, generatedText: string): NewOffer {
    NewOffer(
      requestId, dealId, actorId, c.priced.apartmentPrice, c.priced.basePrice, c.discount, c.finalPrice,
      UnitId(c.priced.parking), UnitPrice(c.priced.parking), UnitId(c.priced.storage), UnitPrice(c.priced.storage),
      TrimSpace(generatedText), if c.requiresApproval then DRAFT else APPROVED, c.requiresApproval, c.limit)
  }

  /** The calculation that an offer's columns stand for. */
  function CalculationOf(o: NewOffer, selection: Selection, f: Facts): Calculation {
    Calculation(
      o.dealId, Priced(o.apartmentPrice, o.basePrice, Chosen(selection.parking, f.parking), Chosen(selection.storage, f.storage)),
      o.discount, DiscountAmount(o.basePrice, o.discount), o.finalPrice, o.creatorLimit, o.approvalRequired)
  }

  /** The offer holds a sound calculation for this very request: column by column. */
  predicate BuiltFrom(o: NewOffer, limits: Limits, requestId: string, dealId: int, actorId: int, text: string,
                      generatedText: string, selection: Selection, f: Facts) {
    && Sound(CalculationOf(o, selection, f), limits, text, dealId, selection, f)
    && o.requestId == requestId && o.dealId == dealId && o.createdBy == actorId
    && o.parkingUnitId == selection.parking && o.storageUnitId == selection.storage
    && o.parkingPrice == (if selection.parking.Some? && f.parking.Ok? then f.parking.value.price else 0)
    && o.storagePrice == (if selection.storage.Some? && f.storage.Ok? then f.storage.value.price else 0)
    && o.generatedText == TrimSpace(generatedText)
    && o.status == (if o.discount > o.creatorLimit then DRAFT else APPROVED)
  }

  lemma OfferFromIsWellFormed(c: Calculation, limits: Limits, requestId: string, dealId: int, actorId: int,
                              text: string, generatedText: string, selection: Selection, f: Facts)
    requires Sound(c, limits, text, dealId, selection, f)
    ensures var o := OfferFrom(c, requestId, dealId, actorId, generatedText);
            && WellFormed(o) && WellPriced(o) && SameRequest(o, dealId, actorId, selection)
            && BuiltFrom(o, limits, requestId, dealId, actorId, text, generatedText, selection, f)
  {
    assert CalculationOf(OfferFrom(c, requestId, dealId, actorId, generatedText), selection, f) == c;
  }

  /** Insert and read back; statements of others come in between. */
  method StoreOffer(store: OfferRepository, offer: NewOffer, others: seq<Statement>, fault: Fault) returns (r: Answer<Row>)
    requires Inv(store.View()) && AllGuarded(others) && WellFormed(offer)
    modifies store
    ensures store.View() == ApplyAll(Apply(old(store.View()), Insert(offer)), others) && Inv(store.View())
    ensures r.Ok? ==> RowOfRequest(store.View(), offer.requestId, r.value)
    ensures fault == NoFault ==> r.Ok?
    ensures fault == StatementUnacknowledged || fault == ReadBackFails ==> r == Err(StoreFailed)
    ensures r.Ok? && IndexOfRequest(old(store.rows), offer.requestId).None? ==> r.value.offer == offer
  {
    ghost var t := store.View();
    ApplyKeeps(t, Insert(offer));
    var id := store.InsertOffer(offer);
    ghost var i := RequestIsStored(t, offer);
    RowsAreKept(store.View(), others, i);
    store.RunOthers(others);
    if fault == StatementUnacknowledged || fault == ReadBackFails {
      return Err(StoreFailed);
    }
    var row: Option<Row>;
    if id.Some? {
      row := store.GetByID(id.value);
    } else {
      row := store.GetByRequestID(offer.requestId);
    }
    r := FoundOr(row);
  }

  /** The insert itself, after the look. */
  method SendInsert(store: OfferRepository, offer: NewOffer, gaps: Gaps, fault: Fault)
    returns (r: Answer<Row>, ghost sent: Option<Statement>)
    requires Inv(store.View()) && OthersGuarded(gaps) && WellFormed(offer)
    modifies store
    ensures sent.Some? ==> sent == Some(Insert(offer))
    ensures var u := ApplyAll(old(store.View()), gaps.beforeStatement);
            && store.View() == (if sent.None? then u else ApplyAll(Apply(u, Insert(offer)), gaps.beforeReadBack))
            && Inv(store.View())
            && (r.Ok? && IndexOfRequest(u.rows, offer.requestId).None? ==> r.value.offer == offer)
    ensures r.Ok? ==> sent.Some? && RowOfRequest(store.View(), offer.requestId, r.value)
    ensures fault == NoFault ==> r.Ok?
    ensures fault == StatementFails || fault == StatementUnacknowledged || fault == ReadBackFails ==>
              r == Err(StoreFailed) && (sent.Some? <==> fault != StatementFails)
  {
    sent := None;
    RunKeeps(store.View(), gaps.beforeStatement);
    store.RunOthers(gaps.beforeStatement);
    if fault == StatementFails {
      return Err(StoreFailed), sent;
    }
    sent := Some(Insert(offer));
    r := StoreOffer(store, offer, gaps.beforeReadBack, fault);
  }

  method Create(store: OfferRepository, limits: Limits, f: Facts, requestId: string, dealId: int, actorId: int,
                text: string, generatedText: string, selection: Selection, gaps: Gaps, fault: Fault)
    returns (r: Answer<Row>, ghost looked: bool, ghost sent: Option<Statement>)
    requires Inv(store.View()) && OthersGuarded(gaps) && Answers(f, dealId, actorId, selection)
    modifies store
    ensures store.View() == ApplyAll(old(store.View()), Interleaved(gaps, looked, sent))
    ensures AllGuarded(Interleaved(gaps, looked, sent)) && Inv(store.View())
    // An answer is the stored row of the request id.
    ensures r.Ok? ==> RowOfRequest(store.View(), requestId, r.value)
    ensures sent.Some? ==> sent.value.Insert? && SameRequest(sent.value.offer, dealId, actorId, selection)
                           && Issued(sent.value)
                           && BuiltFrom(sent.value.offer, limits, requestId, dealId, actorId, text, generatedText, selection, f)
    // Each price goes into its own column, with the text, the discount and the limit of this request.
    ensures sent.Some? ==>
              var o := sent.value.offer;
              && o.requestId == requestId && o.dealId == dealId && o.createdBy == actorId
              && f.apartment.Ok? && MoneyRounded(f.apartment.value.priceText) == Some(o.apartmentPrice)
              && o.parkingUnitId == selection.parking && o.storageUnitId == selection.storage
              && (if selection.parking.Some? then f.parking.Ok? && o.parkingPrice == f.parking.value.price
                  else o.parkingPrice == 0)
              && (if selection.storage.Some? then f.storage.Ok? && o.storagePrice == f.storage.value.price
                  else o.storagePrice == 0)
              && o.basePrice == o.apartmentPrice + o.parkingPrice + o.storagePrice
              && ParsePercent(text) == Some(o.discount) && o.generatedText == TrimSpace(generatedText)
              && o.approvalRequired == (o.discount > o.creatorLimit)
              && o.status == (if o.approvalRequired then DRAFT else APPROVED)
    // A refused calculation is the answer, even when the request id already has a row.
    ensures var refusal := Refusal(limits, text, selection, f);
            refusal.Some? ==> r == Err(refusal.value) && !looked
    ensures var refusal, t := Refusal(limits, text, selection, f), ApplyAll(old(store.View()), gaps.beforeLook);
            var found := IndexOfRequest(t.rows, requestId);
            refusal.None? && fault == NoFault ==>
              if found.None? then r.Ok? && sent.Some?
              else
                var o := t.rows[found.value].offer;
                if o.dealId == dealId && o.createdBy == actorId
                   && o.parkingUnitId == selection.parking && o.storageUnitId == selection.storage
                then r == Ok(t.rows[found.value]) && sent.None?
                else r == Err(OfferForbidden) && sent.None?
    // A database error is reported as such, whether or not the insert took effect.
    ensures var t := ApplyAll(old(store.View()), gaps.beforeLook);
            Refusal(limits, text, selection, f).None? && fault != NoFault ==>
              && (fault == LookFails ==> r == Err(StoreFailed) && !looked)
              && (fault != LookFails && IndexOfRequest(t.rows, requestId).None? ==>
                    r == Err(StoreFailed) && (sent.Some? <==> fault != StatementFails))
    // The row is the caller's own request unless another insert of the id came between look and insert.
    ensures var t := ApplyAll(ApplyAll(old(store.View()), gaps.beforeLook), gaps.beforeStatement);
            r.Ok? && sent.Some? && IndexOfRequest(t.rows, requestId).None? ==> r.value.offer == sent.value.offer
  {
    looked, sent := false, None;
    ghost var before := store.View();
    RunKeeps(before, gaps.beforeLook);
    store.RunOthers(gaps.beforeLook);
    var calculation := Calculate(limits, dealId, actorId, text, selection, f);
    if calculation.Err? {
      return Err(calculation.error), looked, sent;
    }
    if fault == LookFails {
      return Err(StoreFailed), looked, sent;
    }
    var existing := store.GetByRequestID(requestId);
    if existing.Some? {
      var o := existing.value.offer;
      if o.dealId != dealId || o.createdBy != actorId
         || o.parkingUnitId != selection.parking || o.storageUnitId != selection.storage {
        return Err(OfferForbidden), looked, sent;
      }
      return Ok(existing.value), looked, sent;
    }
    SoundMeans(calculation.value, limits, text, dealId, selection, f);
    var offer := OfferFrom(calculation.value, requestId, dealId, actorId, generatedText);
    OfferFromIsWellFormed(calculation.value, limits, requestId, dealId, actorId, text, generatedText, selection, f);
    looked := true;
    InterleavedSteps(before, gaps, Insert(offer));
    r, sent := SendInsert(store, offer, gaps, fault);
    InterleavedGuarded(gaps, looked, sent);
  }

  function FoundOr(r: Option<Row>): Answer<Row> {
    if r.Some? then Ok(r.value) else Err(OfferNotFound)
  }

  /** After the insert the request id has a row: the new one, or the one that caused the conflict. */
  lemma RequestIsStored(t: Table, offer: NewOffer) returns (i: nat)
    requires Inv(t) && WellFormed(offer)
    ensures var t' := Apply(t, Insert(offer));
            && i < |t'.rows| && t'.rows[i].offer.requestId == offer.requestId
            && (IndexOfRequest(t.rows, offer.requestId).None? ==> t'.rows[i].id == t.nextId && t'.rows[i].offer == offer)
  {
    var found := IndexOfRequest(t.rows, offer.requestId);
    return if found.Some? then found.value else |t.rows|;
  }

  /** Two answers for one request id, however far apart, are the same offer, at most moved forward. */
  lemma AnswersAgree(t: Table, run: seq<Statement>, requestId: string, r: Row, r': Row)
    requires Inv(t) && AllGuarded(run)
    requires RowOfRequest(t, requestId, r) && RowOfRequest(ApplyAll(t, run), requestId, r')
    ensures r'.id == r.id && r'.version == r.version && RowEvolves(r, r')
  {
    RowsAreKept(t, run, IndexOfRequest(t.rows, requestId).value);
  }

  // ---------- RequestApproval ----------

  /** Reads by id: the answer for an id is the row of that id, or an error. */
  datatype Readers = Readers(user: int -> Answer<User>, deal: int -> Answer<Deal>)

  ghost predicate ById(readers: Readers) {
    && (forall id :: readers.user(id).Ok? ==> readers.user(id).value.id == id)
    && (forall id :: readers.deal(id).Ok? ==> readers.deal(id).value.id == id)
  }

  /** The actor is a supervisor, or the manager of the deal. */
  predicate MayActOn(readers: Readers, actorId: int, dealId: int) {
    && readers.user(actorId).Ok? && readers.deal(dealId).Ok?
    && MayActFor(readers.user(actorId).value, readers.deal(dealId).value)
  }

  /** The checks before the statement, on the row as first read and on the deal of that row. */
  function ApprovalRefusal(readers: Readers, actorId: int, row: Option<Row>): Option<OfferError> {
    First(Failure(readers.user(actorId)),
    match row
    case None => Some(OfferNotFound)
    case Some(r) =>
      First(Failure(readers.deal(r.offer.dealId)),
      First(Unless(MayActOn(readers, actorId, r.offer.dealId), OfferForbidden),
            Unless(r.offer.approvalRequired && !IsFinal(r.status), InvalidOfferState))))
  }

  /** The checks and their errors in order, in terms of the row and of the reads. */
  lemma ApprovalRefusalSpelledOut(readers: Readers, actorId: int, row: Option<Row>)
    ensures ApprovalRefusal(readers, actorId, row) ==
            var user := readers.user(actorId);
            if user.Err? then Some(user.error)
            else if row.None? then Some(OfferNotFound)
            else
              var deal := readers.deal(row.value.offer.dealId);
              if deal.Err? then Some(deal.error)
              else if user.value.role == RoleUser then Some(OfferForbidden)
              else if user.value.role == RoleManager && deal.value.employeeId != user.value.id then Some(OfferForbidden)
              else if !row.value.offer.approvalRequired then Some(InvalidOfferState)
              else if row.value.status == APPROVED || row.value.status == REJECTED then Some(InvalidOfferState)
              else None
  {
  }

  function Lookup(t: Table, id: nat): Option<Row> {
    match IndexOfId(t.rows, id) case None => None case Some(i) => Some(t.rows[i])
  }

  /** Update and read back; statements of others come in between. */
  method MarkPendingApproval(store: OfferRepository, id: nat, others: seq<Statement>, fault: Fault)
    returns (r: Answer<Row>)
    requires Inv(store.View()) && AllGuarded(others)
    modifies store
    ensures store.View() == ApplyAll(Apply(old(store.View()), MarkPending(id)), others) && Inv(store.View())
    ensures r.Ok? ==> RowOfId(store.View(), id, r.value) && r.value.offer.approvalRequired && r.value.status != DRAFT
    ensures var row := Lookup(old(store.View()), id);
            var marked := row.Some? && CanMark(row.value);
            && (fault == NoFault ==> if marked then r.Ok? else r == Err(OfferNotFound))
            && (fault == StatementUnacknowledged ==> r == Err(StoreFailed))
            && (fault == ReadBackFails ==> r == Err(if marked then StoreFailed else OfferNotFound))
  {
    ghost var t := store.View();
    ApplyKeeps(t, MarkPending(id));
    var updated := store.UpdateToPending(id);
    ghost var u := store.View();
    RunKeeps(u, others);
    if updated {
      RowsAreKept(u, others, IndexOfId(t.rows, id).value);
    }
    store.RunOthers(others);
    if fault == StatementUnacknowledged {
      return Err(StoreFailed);
    }
    if !updated {
      return Err(OfferNotFound);
    }
    var row := store.GetByID(id);
    r := if fault == ReadBackFails then Err(StoreFailed) else FoundOr(row);
  }

  /** The same, except that an update that found nothing is taken for success if the row turns out pending. */
  method MarkOrConfirm(store: OfferRepository, id: nat, others: seq<Statement>, fault: Fault) returns (r: Answer<Row>)
    requires Inv(store.View()) && AllGuarded(others)
    requires Lookup(store.View(), id).Some? && Lookup(store.View(), id).value.offer.approvalRequired
    modifies store
    ensures store.View() == ApplyAll(Apply(old(store.View()), MarkPending(id)), others) && Inv(store.View())
    ensures r.Ok? ==> RowOfId(store.View(), id, r.value) && r.value.offer == Lookup(old(store.View()), id).value.offer
                      && r.value.status != DRAFT
    ensures fault == NoFault && r.Err? ==>
              r.error == OfferNotFound && Lookup(store.View(), id).Some? && IsFinal(Lookup(store.View(), id).value.status)
    ensures fault == StatementUnacknowledged ==> r == Err(StoreFailed)
  {
    ghost var t := store.View();
    ghost var i := IndexOfId(t.rows, id).value;
    IndexOfIdIs(t, i);
    ApplyKeeps(t, MarkPending(id));
    RowsAreKept(Apply(t, MarkPending(id)), others, i);
    r := MarkPendingApproval(store, id, others, fault);
    if r == Err(OfferNotFound) && fault != ReadBackFails {
      var current := store.GetByID(id);
      if current.Some? && current.value.status == PENDING_APPROVAL {
        return Ok(current.value);
      }
    }
  }

  /** The guards of RequestApproval, in order, on the row as first read. */
  method CheckApproval(readers: Readers, actorId: int, offer: Option<Row>, lookFails: bool)
    returns (refusal: Option<OfferError>)
    ensures !lookFails ==> refusal == ApprovalRefusal(readers, actorId, offer)
    ensures lookFails ==> refusal == Some(if readers.user(actorId).Err? then readers.user(actorId).error else StoreFailed)
  {
    var user := readers.user(actorId);
    if user.Err? {
      return Some(user.error);
    }
    if lookFails {
      return Some(StoreFailed);
    }
    if offer.None? {
      return Some(OfferNotFound);
    }
    var deal := readers.deal(offer.value.offer.dealId);
    if deal.Err? {
      return Some(deal.error);
    }
    if !MayActFor(user.value, deal.value) {
      return Some(OfferForbidden);
    }
    if !offer.value.offer.approvalRequired {
      return Some(InvalidOfferState);
    }
    if offer.value.status != PENDING_APPROVAL && offer.value.status != DRAFT {
      return Some(InvalidOfferState);
    }
    return None;
  }

  method RequestApproval(store: OfferRepository, readers: Readers, offerId: nat, actorId: int, gaps: Gaps, fault: Fault)
    returns (r: Answer<Row>, ghost looked: bool, ghost sent: Option<Statement>)
    requires Inv(store.View()) && OthersGuarded(gaps) && ById(readers)
    modifies store
    ensures store.View() == ApplyAll(old(store.View()), Interleaved(gaps, looked, sent)) && Inv(store.View())
    ensures sent.Some? ==> sent == Some(MarkPending(offerId))
    // An answer is the stored row, past draft, for an actor who may act on the offer's own deal.
    ensures r.Ok? ==> RowOfId(store.View(), offerId, r.value)
                      && r.value.offer.approvalRequired && r.value.status != DRAFT
                      && MayActOn(readers, actorId, r.value.offer.dealId)
                      && (readers.user(actorId).value.role != RoleSupervisor ==>
                            readers.deal(r.value.offer.dealId).value.employeeId == actorId)
    // A supervisor, and the manager of the offer's deal, succeeds: at once if the offer awaits a decision already, and
    // from a draft unless it was settled in between.
    ensures var row, user := Lookup(ApplyAll(old(store.View()), gaps.beforeLook), offerId), readers.user(actorId);
            (&& fault != LookFails && row.Some? && row.value.offer.approvalRequired
             && user.Ok? && readers.deal(row.value.offer.dealId).Ok?
             && (user.value.role == RoleSupervisor
                 || (user.value.role == RoleManager && readers.deal(row.value.offer.dealId).value.employeeId == actorId)))
            ==>
              && (row.value.status == PENDING_APPROVAL ==> r == Ok(row.value) && !looked)
              && (row.value.status == DRAFT && fault == NoFault ==>
                    r.Ok? || (Lookup(store.View(), offerId).Some? && IsFinal(Lookup(store.View(), offerId).value.status)))
    ensures var row := Lookup(ApplyAll(old(store.View()), gaps.beforeLook), offerId);
            fault != LookFails && ApprovalRefusal(readers, actorId, row).Some? ==>
              r == Err(ApprovalRefusal(readers, actorId, row).value) && !looked
    ensures fault == LookFails ==>
              r == Err(if readers.user(actorId).Err? then readers.user(actorId).error else StoreFailed) && !looked
    ensures looked && (fault == StatementFails || fault == StatementUnacknowledged) ==>
              r == Err(StoreFailed) && (sent.Some? <==> fault != StatementFails)
    // Without a database error an existing offer is reported missing only when it was settled in between.
    ensures var row := Lookup(ApplyAll(old(store.View()), gaps.beforeLook), offerId);
            fault == NoFault && ApprovalRefusal(readers, actorId, row).None? ==>
              && (r.Err? ==> r.error == OfferNotFound && looked)
              && (r.Err? ==> Lookup(store.View(), offerId).Some?
                             && IsFinal(Lookup(store.View(), offerId).value.status))
  {
    looked, sent := false, None;
    ghost var before := store.View();
    RunKeeps(before, gaps.beforeLook);
    store.RunOthers(gaps.beforeLook);
    ghost var t := store.View();
    var offer := store.GetByID(offerId);
    var refusal := CheckApproval(readers, actorId, offer, fault == LookFails);
    if refusal.Some? {
      return Err(refusal.value), looked, sent;
    }
    if offer.value.status == PENDING_APPROVAL {
      return Ok(offer.value), looked, sent;
    }
    looked := true;
    ghost var i := IndexOfId(t.rows, offerId).value;
    InterleavedSteps(before, gaps, MarkPending(offerId));
    RowsAreKept(t, gaps.beforeStatement, i);
    store.RunOthers(gaps.beforeStatement);
    if fault == StatementFails {
      return Err(StoreFailed), looked, sent;
    }
    sent := Some(MarkPending(offerId));
    r := MarkOrConfirm(store, offerId, gaps.beforeReadBack, fault);
  }

  // ---------- Decide ----------

  function DecisionRefusal(actor: User, approve: bool, reason: string, row: Option<Row>): Option<OfferError> {
    First(Unless(actor.role == RoleSupervisor, OfferForbidden),
    First(Unless(approve || TrimSpace(reason) != "", InvalidOfferState),
    First(Unless(row.Some?, OfferNotFound),
          Unless(row.Some? && CanDecide(row.value), InvalidOfferState))))
  }

  lemma DecisionRefusalSpelledOut(actor: User, approve: bool, reason: string, row: Option<Row>)
    ensures DecisionRefusal(actor, approve, reason, row) ==
            if actor.role != RoleSupervisor then Some(OfferForbidden)
            else if !approve && TrimSpace(reason) == "" then Some(InvalidOfferState)
            else if row.None? then Some(OfferNotFound)
            else if row.value.status != PENDING_APPROVAL || !row.value.offer.approvalRequired then Some(InvalidOfferState)
            else None
  {
  }

  function Ours(offerId: nat, actor: User, approve: bool, reason: string): Statement {
    Decide(offerId, actor, approve, TrimSpace(reason))
  }

  /** A decision that found the row pending is still what the row says after any further run. */
  lemma DecisionLasts(t: Table, s: Statement, run: seq<Statement>, i: nat)
    requires Inv(t) && AllGuarded(run) && s.Decide? && Guarded(s) && i < |t.rows| && t.rows[i].id == s.id && CanDecide(t.rows[i])
    ensures var u := ApplyAll(Apply(t, s), run);
            && Inv(u) && Lookup(u, s.id) == Some(Decided(t.rows[i], s.actor, s.approve, s.reasonText))
            && DecidedBy(Lookup(u, s.id).value, s)
            && (!s.approve ==> Lookup(u, s.id).value.reason == Some(s.reasonText))
  {
    IndexOfIdIs(t, i);
    ApplyKeeps(t, s);
    SqlTrimKeeps(s.reasonText);
    FinalStays(Apply(t, s), run, i);
    RowsAreKept(Apply(t, s), run, i);
  }

  lemma DecisionIsFound(t: Table, s: Statement, run: seq<Statement>)
    requires Inv(t) && AllGuarded(run) && s.Decide? && Guarded(s)
    requires Lookup(t, s.id).Some? && CanDecide(Lookup(t, s.id).value)
    ensures var row := Lookup(ApplyAll(Apply(t, s), run), s.id);
            row.Some? && DecidedBy(row.value, s) && (!s.approve ==> row.value.reason == Some(s.reasonText))
  {
    DecisionLasts(t, s, run, IndexOfId(t.rows, s.id).value);
  }

  /** A row that is pending now was not settled earlier. */
  lemma NotSettledBefore(t: Table, run: seq<Statement>, id: nat)
    requires Inv(t) && AllGuarded(run)
    requires Lookup(ApplyAll(t, run), id).Some? && !IsFinal(Lookup(ApplyAll(t, run), id).value.status)
    ensures Lookup(t, id).Some? ==> !IsFinal(Lookup(t, id).value.status)
  {
    var found := IndexOfId(t.rows, id);
    if found.Some? {
      RowsAreKept(t, run, found.value);
      if IsFinal(t.rows[found.value].status) {
        FinalStays(t, run, found.value);
      }
    }
  }

  /** Update and read back; statements of others come in between. */
  method SettleOffer(store: OfferRepository, s: Statement, others: seq<Statement>, fault: Fault) returns (r: Answer<Row>)
    requires Inv(store.View()) && AllGuarded(others) && s.Decide? && Guarded(s)
    modifies store
    ensures store.View() == ApplyAll(Apply(old(store.View()), s), others) && Inv(store.View())
    ensures r.Ok? ==> RowOfId(store.View(), s.id, r.value) && DecidedBy(r.value, s)
                      && (!s.approve ==> r.value.reason == Some(s.reasonText))
    ensures var row := Lookup(old(store.View()), s.id);
            var settled := row.Some? && CanDecide(row.value);
            && (fault == NoFault ==> if settled then r.Ok? else r == Err(OfferNotFound)) && (r.Ok? ==> settled)
            && (fault == StatementUnacknowledged ==> r == Err(StoreFailed))
            && (fault == ReadBackFails ==> r == Err(if settled then StoreFailed else OfferNotFound))
  {
    ghost var t := store.View();
    ApplyKeeps(t, s);
    var updated := store.UpdateToDecided(s.id, s.actor, s.approve, s.reasonText);
    RunKeeps(store.View(), others);
    if updated {
      DecisionIsFound(t, s, others);
    }
    store.RunOthers(others);
    if fault == StatementUnacknowledged {
      return Err(StoreFailed);
    }
    if !updated {
      return Err(OfferNotFound);
    }
    var row := store.GetByID(s.id);
    r := if fault == ReadBackFails then Err(StoreFailed) else FoundOr(row);
  }

  /** The guards of Decide, in order, on the row as first read. */
  method CheckDecision(actor: User, approve: bool, reason: string, offer: Option<Row>, lookFails: bool)
    returns (refusal: Option<OfferError>)
    ensures !lookFails ==> refusal == DecisionRefusal(actor, approve, reason, offer)
    ensures refusal.None? ==> actor.role == RoleSupervisor && (approve || TrimSpace(reason) != "") && !lookFails
    ensures lookFails && actor.role == RoleSupervisor && (approve || TrimSpace(reason) != "") ==> refusal == Some(StoreFailed)
  {
    if actor.role != RoleSupervisor {
      return Some(OfferForbidden);
    }
    if !approve && TrimSpace(reason) == "" {
      return Some(InvalidOfferState);
    }
    if lookFails {
      return Some(StoreFailed);
    }
    if offer.None? {
      return Some(OfferNotFound);
    }
    if offer.value.status != PENDING_APPROVAL || !offer.value.offer.approvalRequired {
      return Some(InvalidOfferState);
    }
    return None;
  }

  /** The decision itself, after its guards. */
  method SendDecision(store: OfferRepository, ours: Statement, gaps: Gaps, fault: Fault)
    returns (r: Answer<Row>, ghost sent: Option<Statement>)
    requires Inv(store.View()) && OthersGuarded(gaps) && ours.Decide? && Guarded(ours)
    modifies store
    ensures sent.Some? ==> sent == Some(ours)
    ensures var u := ApplyAll(old(store.View()), gaps.beforeStatement);
            && store.View() == (if sent.None? then u else ApplyAll(Apply(u, ours), gaps.beforeReadBack))
            && Inv(store.View())
            && (fault == NoFault ==>
                  if Lookup(u, ours.id).Some? && CanDecide(Lookup(u, ours.id).value) then r.Ok?
                  else r == Err(InvalidOfferState))
            && (fault == StatementFails || fault == StatementUnacknowledged ==>
                  r == Err(StoreFailed) && (sent.Some? <==> fault != StatementFails))
    ensures r.Ok? ==> RowOfId(store.View(), ours.id, r.value) && DecidedBy(r.value, ours)
                      && (!ours.approve ==> r.value.reason == Some(ours.reasonText))
  {
    sent := None;
    RunKeeps(store.View(), gaps.beforeStatement);
    store.RunOthers(gaps.beforeStatement);
    if fault == StatementFails {
      return Err(StoreFailed), sent;
    }
    sent := Some(ours);
    r := SettleOffer(store, ours, gaps.beforeReadBack, fault);
    if r == Err(OfferNotFound) {
      return Err(InvalidOfferState), sent;
    }
  }

  method DecideOffer(store: OfferRepository, offerId: nat, actor: User, approve: bool, reason: string,
                     gaps: Gaps, fault: Fault)
    returns (r: Answer<Row>, ghost looked: bool, ghost sent: Option<Statement>)
    requires Inv(store.View()) && OthersGuarded(gaps)
    modifies store
    ensures store.View() == ApplyAll(old(store.View()), Interleaved(gaps, looked, sent)) && Inv(store.View())
    ensures AllGuarded(Interleaved(gaps, looked, sent))
    ensures sent.Some? ==> sent == Some(Ours(offerId, actor, approve, reason))
    // An answer reports this very decision, which found the offer pending; nobody else's can have settled it.
    ensures r.Ok? ==> RowOfId(store.View(), offerId, r.value) && DecidedBy(r.value, Ours(offerId, actor, approve, reason))
                      && (!approve ==> r.value.reason == Some(TrimSpace(reason)) && TrimSpace(reason) != "")
    ensures r.Ok? ==>
              && r.value.id == offerId && r.value.status == (if approve then APPROVED else REJECTED)
              && r.value.approvedBy == (if approve then Some(actor.id) else None)
              && r.value.rejectedBy == (if approve then None else Some(actor.id))
    // A supervisor decides any offer that awaits a decision, and rejects it for any reason that is not blank.
    ensures var t := ApplyAll(old(store.View()), gaps.beforeLook);
            var row, row' := Lookup(t, offerId), Lookup(ApplyAll(t, gaps.beforeStatement), offerId);
            (&& fault == NoFault && actor.role == RoleSupervisor && (approve || TrimSpace(reason) != "")
             && row.Some? && row.value.status == PENDING_APPROVAL && row.value.offer.approvalRequired
             && row'.Some? && row'.value.status == PENDING_APPROVAL && row'.value.offer.approvalRequired)
            ==> r.Ok?
    ensures r.Ok? ==> Lookup(old(store.View()), offerId).Some? ==>
              !IsFinal(Lookup(old(store.View()), offerId).value.status)
    ensures var row := Lookup(ApplyAll(old(store.View()), gaps.beforeLook), offerId);
            fault != LookFails && DecisionRefusal(actor, approve, reason, row).Some? ==>
              r == Err(DecisionRefusal(actor, approve, reason, row).value) && !looked
    ensures fault == LookFails && actor.role == RoleSupervisor && (approve || TrimSpace(reason) != "") ==>
              r == Err(StoreFailed) && !looked
    ensures looked && (fault == StatementFails || fault == StatementUnacknowledged) ==>
              r == Err(StoreFailed) && (sent.Some? <==> fault != StatementFails)
    // Losing the race to another decision is reported as a wrong state.
    ensures var t := ApplyAll(old(store.View()), gaps.beforeLook);
            var row, row' := Lookup(t, offerId), Lookup(ApplyAll(t, gaps.beforeStatement), offerId);
            fault == NoFault && DecisionRefusal(actor, approve, reason, row).None? ==>
              if row'.Some? && CanDecide(row'.value) then r.Ok? else r == Err(InvalidOfferState)
  {
    looked, sent := false, None;
    ghost var before := store.View();
    RunKeeps(before, gaps.beforeLook);
    store.RunOthers(gaps.beforeLook);
    ghost var t := store.View();
    var offer := store.GetByID(offerId);
    var refusal := CheckDecision(actor, approve, reason, offer, fault == LookFails);
    if refusal.Some? {
      return Err(refusal.value), looked, sent;
    }
    looked := true;
    var ours := Ours(offerId, actor, approve, reason);
    TrimSpaceTrims(reason);
    InterleavedSteps(before, gaps, ours);
    NotSettledBefore(before, gaps.beforeLook, offerId);
    r, sent := SendDecision(store, ours, gaps, fault);
    InterleavedGuarded(gaps, looked, sent);
  }
}
