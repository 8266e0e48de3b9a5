/**
 Deals and the apartments and chats that follow them. A transaction is one atomic step; the service
 reads before it and other actors' transactions may come in between.
 */
module Deals {
  import opened Wrappers
  import opened Domain

  datatype ApartmentStatus = Free | Booked | Sold

  datatype ChatStatus = PendingApproval | ContractSigned | Closed | InProgress | OtherChatStatus

  datatype Deal = Deal(clientId: int, employeeId: int, apartmentId: int, chatId: Option<int>, status: DealStatus)

  /** A deal's id is its position. */
  datatype Store = Store(deals: seq<Deal>, apartments: map<int, ApartmentStatus>, chats: map<int, ChatStatus>)

  datatype Step = Book(deal: Deal) | SetStatus(dealId: nat, status: DealStatus)

  // ---------- the transactions ----------

  function ApartmentImage(s: DealStatus): ApartmentStatus {
    match s
    case Pending => Booked
    case Contract => Booked
    case Completed => Sold
    case Cancelled => Free
  }

  function ChatImage(s: DealStatus): ChatStatus {
    match s
    case Pending => PendingApproval
    case Contract => ContractSigned
    case Completed => Closed
    case Cancelled => InProgress
  }

  /** The references of a new row exist. */
  predicate Links(s: Store, d: Deal) {
    d.apartmentId in s.apartments && (d.chatId.Some? ==> d.chatId.value in s.chats)
  }

  function Follow(s: Store, d: Deal): Store {
    s.(apartments := s.apartments[d.apartmentId := ApartmentImage(d.status)],
       chats := if d.chatId.Some? then s.chats[d.chatId.value := ChatImage(d.status)] else s.chats)
  }

  function Booking(d: Deal): Deal {
    d.(status := Pending)
  }

  function Apply(s: Store, step: Step): Store {
    match step
    case Book(d) =>
      if Links(s, d) then Follow(s.(deals := s.deals + [Booking(d)]), Booking(d)) else s
    case SetStatus(id, status) =>
      if id < |s.deals|
      then var d := s.deals[id].(status := status); Follow(s.(deals := s.deals[id := d]), d)
      else s
  }

  function ApplyAll(s: Store, run: seq<Step>): Store {
    if run == [] then s else Apply(ApplyAll(s, run[..|run| - 1]), run[|run| - 1])
  }

  /** A step touches one deal at most: a booking appends one that is pending, an update writes one status. */
  lemma StepsMean(s: Store, step: Step, i: nat)
    requires i < |s.deals|
    ensures var t := Apply(s, step);
            && i < |t.deals|
            && (if step.SetStatus? && step.dealId == i then t.deals[i] == s.deals[i].(status := step.status)
                else t.deals[i] == s.deals[i])
            && (step.SetStatus? ==> |t.deals| == |s.deals|)
            && (step.Book? ==>
                  var d := step.deal;
                  if d.apartmentId in s.apartments && (d.chatId.Some? ==> d.chatId.value in s.chats)
                  then |t.deals| == |s.deals| + 1
                       && t.deals[|s.deals|] == Deal(d.clientId, d.employeeId, d.apartmentId, d.chatId, Pending)
                  else t == s)
  {
  }

  // ---------- the last step decides ----------

  /** The deal that a step writes, if it writes one. */
  function Written(s: Store, step: Step): Option<Deal> {
    match step
    case Book(d) => if Links(s, d) then Some(Booking(d)) else None
    case SetStatus(id, status) => if id < |s.deals| then Some(s.deals[id].(status := status)) else None
  }

  /** The status that the last step on an apartment gave its deal. */
  function LastOnApartment(s: Store, run: seq<Step>, apartmentId: int): Option<DealStatus> {
    if run == [] then None
    else
      var front := run[..|run| - 1];
      var d := Written(ApplyAll(s, front), run[|run| - 1]);
      if d.Some? && d.value.apartmentId == apartmentId then Some(d.value.status)
      else LastOnApartment(s, front, apartmentId)
  }

  function LastOnChat(s: Store, run: seq<Step>, chatId: int): Option<DealStatus> {
    if run == [] then None
    else
      var front := run[..|run| - 1];
      var d := Written(ApplyAll(s, front), run[|run| - 1]);
      if d.Some? && d.value.chatId == Some(chatId) then Some(d.value.status) else LastOnChat(s, front, chatId)
  }

  /** After every run the status of an apartment, and of a chat, is the image of the last step on it. */
  lemma {:induction false} LastStepDecides(s: Store, run: seq<Step>, apartmentId: int, chatId: int)
    requires apartmentId in s.apartments && chatId in s.chats
    ensures var t := ApplyAll(s, run);
            && apartmentId in t.apartments && chatId in t.chats
            && t.apartments[apartmentId] == (match LastOnApartment(s, run, apartmentId)
                                             case Some(Pending) => Booked
                                             case Some(Contract) => Booked
                                             case Some(Completed) => Sold
                                             case Some(Cancelled) => Free
                                             case None => s.apartments[apartmentId])
            && t.chats[chatId] == (match LastOnChat(s, run, chatId)
                                   case Some(Pending) => PendingApproval
                                   case Some(Contract) => ContractSigned
                                   case Some(Completed) => Closed
                                   case Some(Cancelled) => InProgress
                                   case None => s.chats[chatId])
  {
    if run != [] {
      LastStepDecides(s, run[..|run| - 1], apartmentId, chatId);
    }
  }

  // ---------- apartments and their deals ----------

  predicate IsLive(d: Deal) {
    d.status == Pending || d.status == Contract
  }

  function One(b: bool): nat {
    if b then 1 else 0
  }

  function Live(deals: seq<Deal>, apartmentId: int): nat {
    if deals == [] then 0
    else
      var d := deals[|deals| - 1];
      Live(deals[..|deals| - 1], apartmentId) + One(d.apartmentId == apartmentId && IsLive(d))
  }

  function Done(deals: seq<Deal>, apartmentId: int): nat {
    if deals == [] then 0
    else
      var d := deals[|deals| - 1];
      Done(deals[..|deals| - 1], apartmentId) + One(d.apartmentId == apartmentId && d.status == Completed)
  }

  /** Free: no live or completed deal. Booked: one live deal. Sold: one completed deal. */
  predicate Fits(status: ApartmentStatus, live: nat, done: nat) {
    match status
    case Free => live == 0 && done == 0
    case Booked => live == 1 && done == 0
    case Sold => live == 0 && done == 1
  }

  ghost predicate FitsAt(s: Store, apartmentId: int) {
    apartmentId in s.apartments ==>
      Fits(s.apartments[apartmentId], Live(s.deals, apartmentId), Done(s.deals, apartmentId))
  }

  ghost predicate Coupled(s: Store) {
    && (forall i :: 0 <= i < |s.deals| ==> Links(s, s.deals[i]))
    && (forall a :: a in s.apartments ==> FitsAt(s, a))
  }

  /** What a caller can check before a step: a booking finds the apartment free, and a cancelled deal is touched
      only while its apartment is free. */
  predicate Sane(s: Store, step: Step) {
    match step
    case Book(d) => d.apartmentId in s.apartments ==> s.apartments[d.apartmentId] == Free || !Links(s, d)
    case SetStatus(id, _) =>
      id < |s.deals| && s.deals[id].status == Cancelled ==>
        s.deals[id].apartmentId in s.apartments && s.apartments[s.deals[id].apartmentId] == Free
  }

  lemma {:induction false} CountsOfUpdate(deals: seq<Deal>, i: nat, d: Deal, a: int)
    requires i < |deals| && d.apartmentId == deals[i].apartmentId
    ensures Live(deals[i := d], a) + One(deals[i].apartmentId == a && IsLive(deals[i])) ==
            Live(deals, a) + One(d.apartmentId == a && IsLive(d))
    ensures Done(deals[i := d], a) + One(deals[i].apartmentId == a && deals[i].status == Completed) ==
            Done(deals, a) + One(d.apartmentId == a && d.status == Completed)
  {
    var n := |deals| - 1;
    if i == n {
      assert deals[i := d][..n] == deals[..n];
    } else {
      assert deals[i := d][..n] == deals[..n][i := d];
      CountsOfUpdate(deals[..n], i, d, a);
    }
  }

  lemma CountsOfAppend(deals: seq<Deal>, d: Deal, a: int)
    ensures Live(deals + [d], a) == Live(deals, a) + One(d.apartmentId == a && IsLive(d))
    ensures Done(deals + [d], a) == Done(deals, a) + One(d.apartmentId == a && d.status == Completed)
  {
    assert (deals + [d])[..|deals|] == deals;
  }

  lemma LinksAreKept(s: Store, step: Step)
    requires forall i :: 0 <= i < |s.deals| ==> Links(s, s.deals[i])
    ensures var t := Apply(s, step);
            && t.apartments.Keys == s.apartments.Keys
            && forall i :: 0 <= i < |t.deals| ==> Links(t, t.deals[i])
  {
    var t := Apply(s, step);
    forall i | 0 <= i < |t.deals|
      ensures Links(t, t.deals[i])
    {
      if i < |s.deals| {
        assert Links(s, s.deals[i]);
      }
    }
  }

  /** An apartment that the step does not concern fits as before. */
  lemma OthersFit(s: Store, step: Step, a: int)
    requires a in s.apartments && Written(s, step).Some? && Written(s, step).value.apartmentId != a
    ensures FitsAt(Apply(s, step), a) <==> FitsAt(s, a)
  {
    var t := Apply(s, step);
    assert t.apartments[a] == s.apartments[a];
    OthersCounts(s, step, a);
  }

  lemma OthersCounts(s: Store, step: Step, a: int)
    requires Written(s, step).Some? && Written(s, step).value.apartmentId != a
    ensures Live(Apply(s, step).deals, a) == Live(s.deals, a)
    ensures Done(Apply(s, step).deals, a) == Done(s.deals, a)
  {
    var d := Written(s, step).value;
    match step
    case Book(_) => CountsOfAppend(s.deals, d, a);
    case SetStatus(id, _) => CountsOfUpdate(s.deals, id, d, a);
  }

  lemma BookedFits(s: Store, d: Deal)
    requires Coupled(s) && Links(s, d)
    ensures FitsAt(Apply(s, Book(d)), d.apartmentId) <==> s.apartments[d.apartmentId] == Free
  {
    assert FitsAt(s, d.apartmentId);
    CountsOfAppend(s.deals, Booking(d), d.apartmentId);
  }

  lemma SetFits(s: Store, id: nat, status: DealStatus)
    requires Coupled(s) && id < |s.deals|
    ensures FitsAt(Apply(s, SetStatus(id, status)), s.deals[id].apartmentId) <==> Sane(s, SetStatus(id, status))
  {
    assert Links(s, s.deals[id]);
    assert FitsAt(s, s.deals[id].apartmentId);
    CountsOfUpdate(s.deals, id, s.deals[id].(status := status), s.deals[id].apartmentId);
    DealIsCounted(s.deals, id);
  }

  /** The apartment of the step fits afterwards exactly when the step was sane. */
  lemma OwnFits(s: Store, step: Step)
    requires Coupled(s) && Written(s, step).Some?
    ensures FitsAt(Apply(s, step), Written(s, step).value.apartmentId) <==> Sane(s, step)
  {
    match step
    case Book(d) => BookedFits(s, d);
    case SetStatus(id, status) => SetFits(s, id, status);
  }

  lemma {:induction false} DealIsCounted(deals: seq<Deal>, i: nat)
    requires i < |deals|
    ensures IsLive(deals[i]) ==> Live(deals, deals[i].apartmentId) >= 1
    ensures deals[i].status == Completed ==> Done(deals, deals[i].apartmentId) >= 1
  {
    if i < |deals| - 1 {
      DealIsCounted(deals[..|deals| - 1], i);
    }
  }

  /** One step keeps apartments and deals in agreement exactly when it is sane. */
  lemma CouplingKeptIff(s: Store, step: Step)
    requires Coupled(s)
    ensures Coupled(Apply(s, step)) <==> Sane(s, step)
  {
    var t := Apply(s, step);
    LinksAreKept(s, step);
    var w := Written(s, step);
    if w.Some? {
      var own := w.value.apartmentId;
      OwnFits(s, step);
      assert own in t.apartments by {
        match step
        case Book(d) =>
        case SetStatus(id, _) => assert Links(s, s.deals[id]);
      }
      forall a | a in t.apartments && a != own
        ensures FitsAt(t, a)
      {
        assert FitsAt(s, a);
        OthersFit(s, step, a);
      }
      assert Coupled(t) <==> FitsAt(t, own);
    }
  }

  /** Every step of the run is sane where it is taken. */
  ghost predicate SaneRun(s: Store, run: seq<Step>) {
    run == [] || (SaneRun(s, run[..|run| - 1]) && Sane(ApplyAll(s, run[..|run| - 1]), run[|run| - 1]))
  }

  /** So over whole runs: from all apartments free, sane steps keep every apartment in line with its deals. */
  lemma {:induction false} RunsStayCoupled(s: Store, run: seq<Step>)
    requires s.deals == [] && (forall a :: a in s.apartments ==> s.apartments[a] == Free)
    requires SaneRun(s, run)
    ensures Coupled(ApplyAll(s, run))
  {
    if run == [] {
      assert forall a :: a in s.apartments ==> FitsAt(s, a);
    } else {
      RunsStayCoupled(s, run[..|run| - 1]);
      CouplingKeptIff(ApplyAll(s, run[..|run| - 1]), run[|run| - 1]);
    }
  }

  /** Updates addressed to a live deal are always sane. */
  lemma LiveUpdatesAreSane(s: Store, id: nat, status: DealStatus)
    requires Coupled(s) && id < |s.deals| && IsLive(s.deals[id])
    ensures Coupled(Apply(s, SetStatus(id, status)))
  {
    CouplingKeptIff(s, SetStatus(id, status));
  }

  /** Two bookings that both saw the apartment free: it is booked by two live deals, and cancelling either
      frees it under the other. */
  lemma StaleCheckDoubleBooks(s: Store, d: Deal, e: Deal)
    requires Coupled(s) && Links(s, d) && Links(s, e) && d.apartmentId == e.apartmentId
    requires s.apartments[d.apartmentId] == Free
    ensures var t := Apply(Apply(s, Book(d)), Book(e));
            && !Coupled(t) && t.apartments[d.apartmentId] == Booked && Live(t.deals, d.apartmentId) == 2
            && Apply(t, SetStatus(|s.deals|, Cancelled)).apartments[d.apartmentId] == Free
            && Live(Apply(t, SetStatus(|s.deals|, Cancelled)).deals, d.apartmentId) == 1
  {
    var a := d.apartmentId;
    BookedTwice(s, d, e);
    var t := Apply(Apply(s, Book(d)), Book(e));
    assert !FitsAt(t, a);
    CancelledOnce(t, |s.deals|, a);
  }

  lemma BookedOnce(s: Store, d: Deal)
    requires Links(s, d)
    ensures var t := Apply(s, Book(d));
            && t.apartments == s.apartments[d.apartmentId := Booked] && t.deals == s.deals + [Booking(d)]
            && t.chats.Keys == s.chats.Keys
            && Live(t.deals, d.apartmentId) == Live(s.deals, d.apartmentId) + 1
            && Done(t.deals, d.apartmentId) == Done(s.deals, d.apartmentId)
  {
    CountsOfAppend(s.deals, Booking(d), d.apartmentId);
  }

  lemma BookedTwice(s: Store, d: Deal, e: Deal)
    requires Coupled(s) && Links(s, d) && Links(s, e) && d.apartmentId == e.apartmentId
    requires s.apartments[d.apartmentId] == Free
    ensures var t := Apply(Apply(s, Book(d)), Book(e));
            && d.apartmentId in t.apartments && t.apartments[d.apartmentId] == Booked
            && Live(t.deals, d.apartmentId) == 2 && Done(t.deals, d.apartmentId) == 0
            && |t.deals| == |s.deals| + 2 && t.deals[|s.deals|] == Booking(d)
  {
    var u := Apply(s, Book(d));
    assert FitsAt(s, d.apartmentId);
    BookedOnce(s, d);
    assert e.chatId.Some? ==> e.chatId.value in u.chats.Keys;
    BookedOnce(u, e);
  }

  lemma CancelledOnce(t: Store, id: nat, a: int)
    requires id < |t.deals| && t.deals[id].apartmentId == a && IsLive(t.deals[id])
    ensures var v := Apply(t, SetStatus(id, Cancelled));
            && a in v.apartments && v.apartments[a] == Free && Live(v.deals, a) == Live(t.deals, a) - 1
  {
    CountsOfUpdate(t.deals, id, t.deals[id].(status := Cancelled), a);
  }

  lemma {:induction false} DealsAreKept(s: Store, run: seq<Step>)
    ensures |ApplyAll(s, run).deals| >= |s.deals|
  {
    if run != [] {
      DealsAreKept(s, run[..|run| - 1]);
    }
  }

  // ---------- the service ----------

  datatype DealError =
    DealForbidden | InvalidDealData | ApartmentUnavailable | DealNotFound | ApartmentNotFound | DiscountApprovalRequired | StoreFailed

  predicate MayUpdate(actor: User, d: Deal) {
    match actor.role
    case RoleUser => d.clientId == actor.id
    case RoleManager => d.employeeId == actor.id
    case RoleSupervisor => true
  }

  /** A client may only accept or cancel. */
  predicate MaySet(actor: User, status: DealStatus) {
    actor.role == RoleUser ==> status == Contract || status == Cancelled
  }

  /** The first guard of CreateDeal that fails, on the apartment as the service sees it. */
  function BookingRefusal(d: Deal, actor: User, discountRefusal: Option<DealError>, mayServe: Option<bool>, priced: bool,
                          apartments: map<int, ApartmentStatus>): Option<DealError> {
    if actor.role != RoleManager && actor.role != RoleSupervisor then Some(DealForbidden)
    else if discountRefusal.Some? then discountRefusal
    else if d.clientId <= 0 || d.apartmentId <= 0 then Some(InvalidDealData)
    else if mayServe != Some(true) then Some(if mayServe.None? then StoreFailed else DealForbidden)
    else if d.apartmentId !in apartments then Some(ApartmentNotFound)
    else if !priced || apartments[d.apartmentId] != Free then Some(ApartmentUnavailable)
    else None
  }

  /** The first guard of UpdateDealStatus that fails. */
  function UpdateRefusal(deals: seq<Deal>, id: nat, status: DealStatus, actor: User,
                         discountRefusal: Option<DealError>): Option<DealError> {
    if id >= |deals| then Some(DealNotFound)
    else if !MayUpdate(actor, deals[id]) then Some(DealForbidden)
    else if !MaySet(actor, status) then Some(InvalidDealData)
    else discountRefusal
  }

  /** A client can revive a cancelled deal: the service allows it, and if the apartment has been booked anew in the
      meantime it ends up with two live deals. */
  lemma ClientRevivesCancelledDeal(s: Store, id: nat, client: User)
    requires Coupled(s) && id < |s.deals| && s.deals[id].status == Cancelled
    requires client.role == RoleUser && client.id == s.deals[id].clientId
    requires Links(s, s.deals[id]) && s.apartments[s.deals[id].apartmentId] == Booked
    ensures MayUpdate(client, s.deals[id]) && MaySet(client, Contract)
    ensures !Coupled(Apply(s, SetStatus(id, Contract)))
    ensures Live(Apply(s, SetStatus(id, Contract)).deals, s.deals[id].apartmentId) == 2
  {
    CouplingKeptIff(s, SetStatus(id, Contract));
    assert FitsAt(s, s.deals[id].apartmentId);
    CountsOfUpdate(s.deals, id, s.deals[id].(status := Contract), s.deals[id].apartmentId);
  }

  class DealService {
    var deals: seq<Deal>
    var apartments: map<int, ApartmentStatus>
    var chats: map<int, ChatStatus>

    function View(): Store
      reads this
    {
      Store(deals, apartments, chats)
    }

    constructor (apartments: map<int, ApartmentStatus>, chats: map<int, ChatStatus>)
      ensures View() == Store([], apartments, chats)
    {
      this.deals, this.apartments, this.chats := [], apartments, chats;
    }

    /** The transaction of the repository's CreateDeal. */
    method InsertDeal(d: Deal) returns (id: Option<nat>)
      modifies this
      ensures View() == Apply(old(View()), Book(d))
      ensures id == if Links(old(View()), d) then Some(|old(deals)|) else None
    {
      if d.apartmentId !in apartments || (d.chatId.Some? && d.chatId.value !in chats) {
        return None;
      }
      id := Some(|deals|);
      deals := deals + [Deal(d.clientId, d.employeeId, d.apartmentId, d.chatId, Pending)];
      apartments := apartments[d.apartmentId := Booked];
      if d.chatId.Some? {
        chats := chats[d.chatId.value := PendingApproval];
      }
    }

    /** The transaction of the repository's UpdateDealStatus; it does not look at the deal's present status. */
    method WriteStatus(id: nat, status: DealStatus) returns (found: bool)
      modifies this
      ensures View() == Apply(old(View()), SetStatus(id, status))
      ensures found <==> id < |old(deals)|
    {
      if id >= |deals| {
        return false;
      }
      var d := deals[id].(status := status);
      deals := deals[id := d];
      if status == Completed {
        apartments := apartments[d.apartmentId := Sold];
        if d.chatId.Some? {
          chats := chats[d.chatId.value := Closed];
        }
      } else if status == Contract {
        apartments := apartments[d.apartmentId := Booked];
        if d.chatId.Some? {
          chats := chats[d.chatId.value := ContractSigned];
        }
      } else if status == Cancelled {
        apartments := apartments[d.apartmentId := Free];
        if d.chatId.Some? {
          chats := chats[d.chatId.value := InProgress];
        }
      } else {
        apartments := apartments[d.apartmentId := Booked];
        if d.chatId.Some? {
          chats := chats[d.chatId.value := PendingApproval];
        }
      }
      return true;
    }

    method RunOthers(others: seq<Step>)
      modifies this
      ensures View() == ApplyAll(old(View()), others)
    {
      for n := 0 to |others|
        invariant View() == ApplyAll(old(View()), others[..n])
      {
        assert others[..n + 1][..n] == others[..n];
        match others[n] {
          case Book(d) => var _ := InsertDeal(d);
          case SetStatus(id, status) => var _ := WriteStatus(id, status);
        }
      }
      assert others[..|others|] == others;
    }

    /** discountRefusal is the outcome of the discount checks, mayServe the answer about client and chat, priced
        whether the apartment has a positive price. others run between the look at the apartment and the insert. */
    method CreateDeal(d: Deal, actor: User, discountRefusal: Option<DealError>, mayServe: Option<bool>,
                      priced: bool, others: seq<Step>) returns (r: Result<nat, DealError>)
      requires d.employeeId == actor.id
      modifies this
      ensures var refusal := BookingRefusal(d, actor, discountRefusal, mayServe, priced, old(apartments));
              if refusal.Some? then r == Err(refusal.value) && View() == old(View())
              else if Links(ApplyAll(old(View()), others), d) then r.Ok?
              else r == Err(StoreFailed) && View() == ApplyAll(old(View()), others)
      ensures r.Ok? ==> View() == Apply(ApplyAll(old(View()), others), Book(d))
                        && r.value < |deals| && deals[r.value] == Booking(d)
      ensures (&& (actor.role == RoleManager || actor.role == RoleSupervisor) && discountRefusal.None?
               && d.clientId > 0 && d.apartmentId > 0 && mayServe == Some(true)
               && d.apartmentId in old(apartments) && priced && old(apartments)[d.apartmentId] == Free
               && Links(ApplyAll(old(View()), others), d))
              <==> r.Ok?
      ensures actor.role == RoleUser ==> r == Err(DealForbidden)
      ensures (&& actor.role != RoleUser && discountRefusal.None? && d.clientId > 0 && d.apartmentId > 0
               && mayServe == Some(true) && d.apartmentId in old(apartments) && old(apartments)[d.apartmentId] != Free)
              ==> r == Err(ApartmentUnavailable)
      ensures r.Ok? ==> deals[r.value] == Deal(d.clientId, d.employeeId, d.apartmentId, d.chatId, Pending)
      // A successful booking leaves everything in agreement exactly when the apartment was still free.
      ensures r.Ok? && Coupled(ApplyAll(old(View()), others)) ==>
                (Coupled(View()) <==> ApplyAll(old(View()), others).apartments[d.apartmentId] == Free)
    {
      if actor.role != RoleManager && actor.role != RoleSupervisor {
        return Err(DealForbidden);
      }
      if discountRefusal.Some? {
        return Err(discountRefusal.value);
      }
      if d.clientId <= 0 || d.apartmentId <= 0 {
        return Err(InvalidDealData);
      }
      if mayServe.None? {
        return Err(StoreFailed);
      }
      if !mayServe.value {
        return Err(DealForbidden);
      }
      if d.apartmentId !in apartments {
        return Err(ApartmentNotFound);
      }
      if !priced || apartments[d.apartmentId] != Free {
        return Err(ApartmentUnavailable);
      }
      RunOthers(others);
      ghost var before := View();
      var id := InsertDeal(d);
      if id.None? {
        assert View() == before;
        return Err(StoreFailed);
      }
      if Coupled(before) {
        CouplingKeptIff(before, Book(d));
      }
      return Ok(id.value);
    }

    /** others run between the look at the deal and the update. */
    method UpdateDealStatus(id: nat, status: DealStatus, actor: User, discountRefusal: Option<DealError>, others: seq<Step>)
      returns (r: Result<Deal, DealError>)
      modifies this
      ensures var refusal := UpdateRefusal(old(deals), id, status, actor, discountRefusal);
              if refusal.Some? then r == Err(refusal.value) && View() == old(View()) else r.Ok?
      // A supervisor may set any status, a manager of his own deals; a client may accept or cancel his own.
      ensures (&& id < |old(deals)| && discountRefusal.None?
               && (|| actor.role == RoleSupervisor
                   || (actor.role == RoleManager && old(deals)[id].employeeId == actor.id)
                   || (actor.role == RoleUser && old(deals)[id].clientId == actor.id
                       && (status == Contract || status == Cancelled))))
              <==> r.Ok?
      ensures id >= |old(deals)| ==> r == Err(DealNotFound)
      ensures id < |old(deals)| && (|| (actor.role == RoleUser && old(deals)[id].clientId != actor.id)
                                    || (actor.role == RoleManager && old(deals)[id].employeeId != actor.id)) ==>
                r == Err(DealForbidden)
      ensures r.Ok? ==> View() == Apply(ApplyAll(old(View()), others), SetStatus(id, status))
                        && id < |deals| && r.value == deals[id] && r.value.status == status
                        && apartments == ApplyAll(old(View()), others).apartments
                                         [r.value.apartmentId := if status == Completed then Sold
                                                                 else if status == Cancelled then Free else Booked]
      ensures r.Ok? && Coupled(ApplyAll(old(View()), others)) ==>
                (Coupled(View()) <==> Sane(ApplyAll(old(View()), others), SetStatus(id, status)))
    {
      if id >= |deals| {
        return Err(DealNotFound);
      }
      var existing := deals[id];
      if actor.role == RoleUser {
        if existing.clientId != actor.id {
          return Err(DealForbidden);
        }
        if status != Contract && status != Cancelled {
          return Err(InvalidDealData);
        }
      } else if actor.role == RoleManager {
        if existing.employeeId != actor.id {
          return Err(DealForbidden);
        }
      }
      if discountRefusal.Some? {
        return Err(discountRefusal.value);
      }
      DealsAreKept(View(), others);
      RunOthers(others);
      ghost var before := View();
      var found := WriteStatus(id, status);
      if !found {
        return Err(DealNotFound);
      }
      if Coupled(before) {
        CouplingKeptIff(before, SetStatus(id, status));
      }
      return Ok(deals[id]);
    }
  }
}
