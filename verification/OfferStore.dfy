/**
 The offers table and the three statements that change it. A statement is one atomic step, whoever
 issues it and however old the reads behind it are; so every interleaving of service operations is
 a sequence of statements, and the lemmas speak of all such sequences.
 */
module OfferStore {
  import opened Wrappers
  import opened Text
  import opened Percent
  import opened Pricing
  import opened Domain

  datatype Status = DRAFT | PENDING_APPROVAL | APPROVED | REJECTED

  /** What an INSERT supplies. Two fields are not columns: creatorLimit records the discount
      limit that the creator had when the offer was calculated, and apartmentPrice the apartment's price then. */
  datatype NewOffer = NewOffer(
    requestId: string,
    dealId: int,
    createdBy: int,
    apartmentPrice: Price,
    basePrice: Price,
    discount: int,
    finalPrice: int,
    parkingUnitId: Option<int>,
    parkingPrice: Price,
    storageUnitId: Option<int>,
    storagePrice: Price,
    generatedText: string,
    status: Status,
    approvalRequired: bool,
    creatorLimit: int
  )

  datatype Row = Row(
    id: nat,
    version: nat,
    offer: NewOffer,
    status: Status,
    approvedBy: Option<int>,
    rejectedBy: Option<int>,
    reason: Option<string>
  )

  /** nextId is the sequence behind the id column; a conflicting INSERT uses up a value too. */
  datatype Table = Table(rows: seq<Row>, nextId: nat)

  const EmptyTable := Table([], 1)

  datatype Statement =
    | Insert(offer: NewOffer)
    | MarkPending(id: nat)
    | Decide(id: nat, actor: User, approve: bool, reasonText: string)

  // ---------- queries ----------

  function IndexOfRequest(rows: seq<Row>, requestId: string): (r: Option<nat>)
    ensures r.Some? ==> r.value < |rows| && rows[r.value].offer.requestId == requestId
  {
    if rows == [] then None
    else
      var r := IndexOfRequest(rows[..|rows| - 1], requestId);
      if r.None? && rows[|rows| - 1].offer.requestId == requestId then Some(|rows| - 1) else r
  }

  function IndexOfId(rows: seq<Row>, id: nat): (r: Option<nat>)
    ensures r.Some? ==> r.value < |rows| && rows[r.value].id == id
  {
    if rows == [] then None
    else
      var r := IndexOfId(rows[..|rows| - 1], id);
      if r.None? && rows[|rows| - 1].id == id then Some(|rows| - 1) else r
  }

  lemma {:induction false} IndexFinds(rows: seq<Row>, i: nat)
    requires i < |rows|
    ensures IndexOfRequest(rows, rows[i].offer.requestId).Some?
    ensures IndexOfId(rows, rows[i].id).Some?
  {
    if i < |rows| - 1 {
      IndexFinds(rows[..|rows| - 1], i);
    }
  }

  function MaxVersion(rows: seq<Row>, dealId: int): nat {
    if rows == [] then 0
    else
      var m, r := MaxVersion(rows[..|rows| - 1], dealId), rows[|rows| - 1];
      if r.offer.dealId == dealId && r.version > m then r.version else m
  }

  // ---------- the statements ----------

  function NewRow(t: Table, offer: NewOffer): Row {
    Row(t.nextId, MaxVersion(t.rows, offer.dealId) + 1, offer, offer.status, None, None, None)
  }

  /** The WHERE clause of MarkPendingApproval. */
  predicate CanMark(r: Row) {
    r.status == DRAFT && r.offer.approvalRequired
  }

  /** The WHERE clause of Decide. */
  predicate CanDecide(r: Row) {
    r.status == PENDING_APPROVAL && r.offer.approvalRequired
  }

  /** PostgreSQL's TRIM removes spaces only. */
  function SqlTrim(s: string): string {
    if s != "" && s[0] == ' ' then SqlTrim(s[1..])
    else if s != "" && s[|s| - 1] == ' ' then SqlTrim(s[..|s| - 1])
    else s
  }

  function NullIfBlank(s: string): Option<string> {
    var trimmed := SqlTrim(s);
    if trimmed == "" then None else Some(trimmed)
  }

  function Decided(r: Row, actor: User, approve: bool, reason: string): Row {
    if approve then r.(status := APPROVED, approvedBy := Some(actor.id), rejectedBy := None, reason := None)
    else r.(status := REJECTED, approvedBy := None, rejectedBy := Some(actor.id), reason := NullIfBlank(reason))
  }

  function UpdateRow(t: Table, i: nat, r: Row): Table
    requires i < |t.rows|
  {
    t.(rows := t.rows[i := r])
  }

  function Apply(t: Table, s: Statement): Table {
    match s
    case Insert(offer) =>
      if IndexOfRequest(t.rows, offer.requestId).Some? then t.(nextId := t.nextId + 1)
      else Table(t.rows + [NewRow(t, offer)], t.nextId + 1)
    case MarkPending(id) =>
      var i := IndexOfId(t.rows, id);
      if i.Some? && CanMark(t.rows[i.value])
      then UpdateRow(t, i.value, t.rows[i.value].(status := PENDING_APPROVAL)) else t
    case Decide(id, actor, approve, reason) =>
      var i := IndexOfId(t.rows, id);
      if i.Some? && CanDecide(t.rows[i.value])
      then UpdateRow(t, i.value, Decided(t.rows[i.value], actor, approve, reason)) else t
  }

  function ApplyAll(t: Table, run: seq<Statement>): Table
    decreases |run|
  {
    if run == [] then t else ApplyAll(Apply(t, run[0]), run[1..])
  }

  /** What a statement does to one row: a draft that needs approval is marked by its id, and a pending offer is decided
      by its id; nothing else changes a row that is there. */
  lemma StatementsMean(t: Table, s: Statement, i: nat)
    requires KeysOk(t) && i < |t.rows|
    ensures i < |Apply(t, s).rows|
    ensures var r, r' := t.rows[i], Apply(t, s).rows[i];
            if s.MarkPending? && s.id == r.id && r.status == DRAFT && r.offer.approvalRequired
            then r' == r.(status := PENDING_APPROVAL)
            else if s.Decide? && s.id == r.id && r.status == PENDING_APPROVAL && r.offer.approvalRequired
            then (&& r'.id == r.id && r'.version == r.version && r'.offer == r.offer
                  && r'.status == (if s.approve then APPROVED else REJECTED)
                  && r'.approvedBy == (if s.approve then Some(s.actor.id) else None)
                  && r'.rejectedBy == (if s.approve then None else Some(s.actor.id))
                  && (s.approve ==> r'.reason == None)
                  && (!s.approve && IsTrimmed(s.reasonText) && s.reasonText != "" ==> r'.reason == Some(s.reasonText)))
            else r' == r
  {
    IndexFinds(t.rows, i);
    var k := IndexOfId(t.rows, t.rows[i].id).value;
    assert k < i || i < k || k == i;
    if s.Decide? && IsTrimmed(s.reasonText) {
      SqlTrimKeeps(s.reasonText);
    }
  }

  /** An insert of a new request id appends one row, which says what the insert said and nobody has decided; of a
      request id that is there it appends nothing. */
  lemma InsertMeans(t: Table, offer: NewOffer)
    ensures var rows, rows' := t.rows, Apply(t, Insert(offer)).rows;
            if exists i :: 0 <= i < |rows| && rows[i].offer.requestId == offer.requestId then rows' == rows
            else
              && |rows'| == |rows| + 1 && rows'[..|rows|] == rows
              && rows'[|rows|].id == t.nextId && rows'[|rows|].offer == offer && rows'[|rows|].status == offer.status
              && rows'[|rows|].approvedBy.None? && rows'[|rows|].rejectedBy.None? && rows'[|rows|].reason.None?
  {
    if i :| 0 <= i < |t.rows| && t.rows[i].offer.requestId == offer.requestId {
      IndexFinds(t.rows, i);
    }
  }

  // ---------- what the services ever send ----------

  /** The prices that Create takes from a calculation add up, and the discount is the half-up one. */
  predicate WellPriced(o: NewOffer) {
    && 0 <= o.discount <= MAX_BASIS_POINTS
    && o.apartmentPrice > 0
    && o.basePrice == o.apartmentPrice + o.parkingPrice + o.storagePrice
    && o.finalPrice == FinalPrice(o.basePrice, o.discount)
    && (o.parkingUnitId.None? ==> o.parkingPrice == 0)
    && (o.storageUnitId.None? ==> o.storagePrice == 0)
  }

  /** Approval is required exactly above the creator's limit, and only then the offer begins as a draft. */
  predicate WellFormed(o: NewOffer) {
    && o.approvalRequired == (o.discount > o.creatorLimit)
    && o.status == (if o.approvalRequired then DRAFT else APPROVED)
  }

  /** The guards of the services have let the statement through. */
  predicate Guarded(s: Statement) {
    match s
    case Insert(offer) => WellFormed(offer)
    case MarkPending(_) => true
    case Decide(_, actor, approve, reason) =>
      actor.role == RoleSupervisor && (approve || reason != "") && IsTrimmed(reason)
  }

  predicate AllGuarded(run: seq<Statement>) {
    forall s :: s in run ==> Guarded(s)
  }

  /** What the services send: let through by their guards, and priced by a calculation when it inserts. */
  predicate Issued(s: Statement) {
    Guarded(s) && (s.Insert? ==> WellPriced(s.offer))
  }

  predicate AllIssued(run: seq<Statement>) {
    forall s :: s in run ==> Issued(s)
  }

  ghost predicate PricesOk(t: Table) {
    forall i :: 0 <= i < |t.rows| ==> WellPriced(t.rows[i].offer)
  }

  // ---------- what every statement keeps ----------

  ghost predicate RowOk(r: Row) {
    && WellFormed(r.offer)
    && match r.status {
         case DRAFT => r.offer.approvalRequired && r.approvedBy.None? && r.rejectedBy.None? && r.reason.None?
         case PENDING_APPROVAL => r.offer.approvalRequired && r.approvedBy.None? && r.rejectedBy.None? && r.reason.None?
         case APPROVED =>
           r.approvedBy.Some? == r.offer.approvalRequired && r.rejectedBy.None? && r.reason.None?
         case REJECTED =>
           r.offer.approvalRequired && r.approvedBy.None? && r.rejectedBy.Some?
           && r.reason.Some? && r.reason.value != "" && TrimSpace(r.reason.value) == r.reason.value
       }
  }

  function OffersOf(rows: seq<Row>, dealId: int): nat {
    if rows == [] then 0
    else OffersOf(rows[..|rows| - 1], dealId) + (if rows[|rows| - 1].offer.dealId == dealId then 1 else 0)
  }

  ghost predicate RowsOk(rows: seq<Row>) {
    forall i :: 0 <= i < |rows| ==> RowOk(rows[i])
  }

  /** Ids and request ids are unique, and versions count the offers of a deal. */
  ghost predicate KeysOk(t: Table) {
    && (forall i :: 0 <= i < |t.rows| ==> t.rows[i].id < t.nextId)
    && (forall i, j :: 0 <= i < j < |t.rows| ==> t.rows[i].id < t.rows[j].id)
    && (forall i, j :: 0 <= i < j < |t.rows| ==> t.rows[i].offer.requestId != t.rows[j].offer.requestId)
    && (forall i: nat :: i < |t.rows| ==> VersionOk(t.rows, i))
  }

  ghost predicate Inv(t: Table) {
    RowsOk(t.rows) && KeysOk(t)
  }

  /** The n-th offer of a deal, in insertion order, has version n. */
  ghost predicate VersionOk(rows: seq<Row>, i: nat)
    requires i < |rows|
  {
    rows[i].version == OffersOf(rows[..i], rows[i].offer.dealId) + 1
  }

  /** Status moves only forward, and everything the offer was created with stays. */
  ghost predicate RowEvolves(r: Row, r': Row) {
    && r'.id == r.id && r'.version == r.version && r'.offer == r.offer
    && (r' == r || (Rank(r.status) < Rank(r'.status) && r.offer.approvalRequired))
  }

  function Rank(s: Status): nat {
    match s
    case DRAFT => 0
    case PENDING_APPROVAL => 1
    case _ => 2
  }

  ghost predicate Evolves(t: Table, t': Table) {
    && |t.rows| <= |t'.rows| && t.nextId <= t'.nextId
    && forall i :: 0 <= i < |t.rows| ==> RowEvolves(t.rows[i], t'.rows[i])
  }

  lemma {:induction false} MaxVersionIsCount(rows: seq<Row>, dealId: int)
    requires forall i: nat :: i < |rows| ==> VersionOk(rows, i)
    ensures MaxVersion(rows, dealId) == OffersOf(rows, dealId)
  {
    if rows != [] {
      var n := |rows| - 1;
      var front := rows[..n];
      forall i: nat | i < n
        ensures VersionOk(front, i)
      {
        assert VersionOk(rows, i) && rows[..i] == front[..i];
      }
      MaxVersionIsCount(front, dealId);
      assert VersionOk(rows, n);
    }
  }

  lemma {:induction false} SameDealsSameCount(rows: seq<Row>, rows': seq<Row>, dealId: int)
    requires |rows| == |rows'|
    requires forall i :: 0 <= i < |rows| ==> rows'[i].offer.dealId == rows[i].offer.dealId
    ensures OffersOf(rows', dealId) == OffersOf(rows, dealId)
  {
    if rows != [] {
      SameDealsSameCount(rows[..|rows| - 1], rows'[..|rows| - 1], dealId);
    }
  }

  lemma InsertKeepsKeys(t: Table, offer: NewOffer)
    requires KeysOk(t)
    ensures KeysOk(Apply(t, Insert(offer)))
  {
    var t' := Apply(t, Insert(offer));
    if IndexOfRequest(t.rows, offer.requestId).None? {
      forall i | 0 <= i < |t.rows|
        ensures t.rows[i].offer.requestId != offer.requestId
      {
        IndexFinds(t.rows, i);
      }
      MaxVersionIsCount(t.rows, offer.dealId);
    }
    forall i: nat | i < |t'.rows|
      ensures VersionOk(t'.rows, i)
    {
      assert t'.rows[..i] == t.rows[..i];
      if i < |t.rows| {
        assert VersionOk(t.rows, i);
      } else {
        assert t.rows[..i] == t.rows;
      }
    }
  }

  lemma InsertKeeps(t: Table, offer: NewOffer)
    requires Inv(t) && WellFormed(offer)
    ensures Inv(Apply(t, Insert(offer))) && Evolves(t, Apply(t, Insert(offer)))
  {
    InsertKeepsKeys(t, offer);
    assert RowOk(NewRow(t, offer));
  }

  /** One row is replaced by another with the same keys. */
  lemma UpdateKeepsKeys(t: Table, i: nat, r: Row)
    requires KeysOk(t) && i < |t.rows|
    requires r.id == t.rows[i].id && r.version == t.rows[i].version && r.offer == t.rows[i].offer
    ensures KeysOk(UpdateRow(t, i, r))
  {
    var t' := UpdateRow(t, i, r);
    forall k: nat | k < |t'.rows|
      ensures VersionOk(t'.rows, k)
    {
      assert VersionOk(t.rows, k);
      SameDealsSameCount(t.rows[..k], t'.rows[..k], t'.rows[k].offer.dealId);
    }
  }

  lemma UpdateKeeps(t: Table, i: nat, r: Row)
    requires Inv(t) && i < |t.rows| && RowOk(r) && RowEvolves(t.rows[i], r)
    ensures Inv(UpdateRow(t, i, r)) && Evolves(t, UpdateRow(t, i, r))
  {
    UpdateKeepsKeys(t, i, r);
  }

  lemma {:induction false} SqlTrimKeeps(s: string)
    requires IsTrimmed(s)
    ensures SqlTrim(s) == s
  {
  }

  lemma ApplyKeeps(t: Table, s: Statement)
    requires Inv(t) && Guarded(s)
    ensures Inv(Apply(t, s)) && Evolves(t, Apply(t, s))
  {
    match s
    case Insert(offer) => InsertKeeps(t, offer);
    case MarkPending(id) =>
      var i := IndexOfId(t.rows, id);
      if i.Some? && CanMark(t.rows[i.value]) {
        assert RowOk(t.rows[i.value]);
        UpdateKeeps(t, i.value, t.rows[i.value].(status := PENDING_APPROVAL));
      }
    case Decide(id, actor, approve, reason) =>
      var i := IndexOfId(t.rows, id);
      if i.Some? && CanDecide(t.rows[i.value]) {
        assert RowOk(t.rows[i.value]);
        SqlTrimKeeps(reason);
        TrimKeeps(reason);
        UpdateKeeps(t, i.value, Decided(t.rows[i.value], actor, approve, reason));
      }
  }

  lemma EvolvesTransitive(t: Table, u: Table, v: Table)
    requires Evolves(t, u) && Evolves(u, v)
    ensures Evolves(t, v)
  {
    forall i | 0 <= i < |t.rows|
      ensures RowEvolves(t.rows[i], v.rows[i])
    {
      assert RowEvolves(t.rows[i], u.rows[i]) && RowEvolves(u.rows[i], v.rows[i]);
    }
  }

  // ---------- all interleavings ----------

  /** From any good table, every run of guarded statements keeps the invariant and only moves rows forward. */
  lemma {:induction false} RunKeeps(t: Table, run: seq<Statement>)
    requires Inv(t) && AllGuarded(run)
    ensures Inv(ApplyAll(t, run)) && Evolves(t, ApplyAll(t, run))
    decreases |run|
  {
    if run != [] {
      assert run[0] in run;
      ApplyKeeps(t, run[0]);
      RunKeeps(Apply(t, run[0]), run[1..]);
      EvolvesTransitive(t, Apply(t, run[0]), ApplyAll(t, run));
    }
  }

  /** The prices of a row are those of its insert, so they always add up. */
  lemma {:induction false} RunKeepsPrices(t: Table, run: seq<Statement>)
    requires PricesOk(t) && AllIssued(run)
    ensures PricesOk(ApplyAll(t, run))
    decreases |run|
  {
    if run != [] {
      assert run[0] in run;
      RunKeepsPrices(Apply(t, run[0]), run[1..]);
    }
  }

  lemma {:induction false} ApplyAllConcat(t: Table, a: seq<Statement>, b: seq<Statement>)
    ensures ApplyAll(t, a + b) == ApplyAll(ApplyAll(t, a), b)
    decreases |a|
  {
    if a == [] {
      assert a + b == b;
    } else {
      assert (a + b)[1..] == a[1..] + b;
      ApplyAllConcat(Apply(t, a[0]), a[1..], b);
    }
  }

  /** An offer that needed no approval was within its creator's limit and stays approved for ever; prices and
      the other columns of its creation never change; a rejection carries a reason that is not blank. */
  lemma OfferLifecycle(before: seq<Statement>, after: seq<Statement>, i: nat)
    requires AllIssued(before + after) && i < |ApplyAll(EmptyTable, before).rows|
    ensures var t, t' := ApplyAll(EmptyTable, before), ApplyAll(EmptyTable, before + after);
            && i < |t'.rows|
            && RowEvolves(t.rows[i], t'.rows[i])
            && (!t.rows[i].offer.approvalRequired ==>
                  t.rows[i].offer.discount <= t.rows[i].offer.creatorLimit && t'.rows[i].status == APPROVED)
            && (t'.rows[i].status == REJECTED ==> t'.rows[i].reason.Some? && t'.rows[i].reason.value != "")
            && !(t'.rows[i].approvedBy.Some? && t'.rows[i].rejectedBy.Some?)
            && t'.rows[i].offer.finalPrice == FinalPrice(t'.rows[i].offer.basePrice, t'.rows[i].offer.discount)
  {
    var t := ApplyAll(EmptyTable, before);
    ApplyAllConcat(EmptyTable, before, after);
    assert forall s :: s in before ==> s in before + after;
    assert forall s :: s in after ==> s in before + after;
    RunKeeps(EmptyTable, before);
    RunKeeps(t, after);
    RunKeepsPrices(EmptyTable, before);
    assert RowOk(t.rows[i]) && RowOk(ApplyAll(t, after).rows[i]);
  }

  /** The decisions on an offer that found it pending, in order. */
  function DecisionsTaken(t: Table, run: seq<Statement>, id: nat): seq<Statement>
    decreases |run|
  {
    if run == [] then []
    else
      var rest := DecisionsTaken(Apply(t, run[0]), run[1..], id);
      var i := IndexOfId(t.rows, id);
      if run[0].Decide? && run[0].id == id && i.Some? && CanDecide(t.rows[i.value]) then [run[0]] + rest else rest
  }

  predicate IsFinal(s: Status) {
    s == APPROVED || s == REJECTED
  }

  predicate DecidedBy(r: Row, d: Statement) {
    && d.Decide? && d.actor.role == RoleSupervisor
    && r.status == (if d.approve then APPROVED else REJECTED)
    && r.approvedBy == (if d.approve then Some(d.actor.id) else None)
    && r.rejectedBy == (if d.approve then None else Some(d.actor.id))
  }

  lemma IndexOfIdIs(t: Table, i: nat)
    requires Inv(t) && i < |t.rows|
    ensures IndexOfId(t.rows, t.rows[i].id) == Some(i)
  {
    IndexFinds(t.rows, i);
    var k := IndexOfId(t.rows, t.rows[i].id).value;
    assert k < i || i < k || k == i;
  }

  /** A final status is never left, and no further decision is taken. */
  lemma {:induction false} FinalStays(t: Table, run: seq<Statement>, i: nat)
    requires Inv(t) && AllGuarded(run) && i < |t.rows| && IsFinal(t.rows[i].status)
    ensures i < |ApplyAll(t, run).rows| && ApplyAll(t, run).rows[i] == t.rows[i]
    ensures DecisionsTaken(t, run, t.rows[i].id) == []
    decreases |run|
  {
    if run != [] {
      assert run[0] in run;
      var t' := Apply(t, run[0]);
      ApplyKeeps(t, run[0]);
      assert RowEvolves(t.rows[i], t'.rows[i]);
      IndexOfIdIs(t, i);
      FinalStays(t', run[1..], i);
    }
  }

  /** An offer that needs approval is settled by exactly one decision: a supervisor's, taken while the offer
      was pending, and the one the row names. Without a decision it is not settled. */
  lemma {:induction false} OneDecision(t: Table, run: seq<Statement>, i: nat)
    requires Inv(t) && AllGuarded(run) && i < |t.rows| && t.rows[i].offer.approvalRequired && !IsFinal(t.rows[i].status)
    ensures i < |ApplyAll(t, run).rows|
    ensures var taken, r := DecisionsTaken(t, run, t.rows[i].id), ApplyAll(t, run).rows[i];
            && |taken| <= 1
            && (IsFinal(r.status) <==> |taken| == 1)
            && (|taken| == 1 ==> DecidedBy(r, taken[0]))
    decreases |run|
  {
    if run != [] {
      assert run[0] in run;
      var t' := Apply(t, run[0]);
      ApplyKeeps(t, run[0]);
      assert RowEvolves(t.rows[i], t'.rows[i]);
      IndexOfIdIs(t, i);
      if IsFinal(t'.rows[i].status) {
        FinalStays(t', run[1..], i);
        OnlyDecideSettles(t, run[0], i);
      } else {
        OneDecision(t', run[1..], i);
      }
    }
  }

  lemma OnlyDecideSettles(t: Table, s: Statement, i: nat)
    requires Inv(t) && Guarded(s) && i < |t.rows| && !IsFinal(t.rows[i].status) && i < |Apply(t, s).rows|
    requires IsFinal(Apply(t, s).rows[i].status)
    ensures s.Decide? && s.id == t.rows[i].id && CanDecide(t.rows[i]) && DecidedBy(Apply(t, s).rows[i], s)
  {
    IndexOfIdIs(t, i);
  }

  // ---------- idempotency and versions ----------

  /** At any two moments of a run, the rows found for a request id are the same row. */
  lemma RequestNamesOneRow(t: Table, run: seq<Statement>, i: nat, j: nat)
    requires Inv(t) && AllGuarded(run) && i < |t.rows| && j < |ApplyAll(t, run).rows|
    requires t.rows[i].offer.requestId == ApplyAll(t, run).rows[j].offer.requestId
    ensures i == j && t.rows[i].id == ApplyAll(t, run).rows[j].id
  {
    RunKeeps(t, run);
    var t' := ApplyAll(t, run);
    assert RowEvolves(t.rows[i], t'.rows[i]);
    assert i < j || j < i || i == j;
  }

  function VersionsOf(rows: seq<Row>, dealId: int): seq<nat> {
    if rows == [] then []
    else
      var r := rows[|rows| - 1];
      VersionsOf(rows[..|rows| - 1], dealId) + (if r.offer.dealId == dealId then [r.version] else [])
  }

  /** The versions of a deal are exactly 1, 2, ..., n in insertion order; so it is in every reachable table. */
  lemma {:induction false} VersionsAreConsecutive(rows: seq<Row>, dealId: int)
    requires forall i: nat :: i < |rows| ==> VersionOk(rows, i)
    ensures VersionsOf(rows, dealId) == seq(OffersOf(rows, dealId), k requires 0 <= k => k + 1)
  {
    if rows != [] {
      var n := |rows| - 1;
      var front := rows[..n];
      forall i: nat | i < n
        ensures VersionOk(front, i)
      {
        assert VersionOk(rows, i) && rows[..i] == front[..i];
      }
      VersionsAreConsecutive(front, dealId);
      assert VersionOk(rows, n);
    }
  }

  lemma ReachableVersions(run: seq<Statement>, dealId: int)
    requires AllGuarded(run)
    ensures var rows := ApplyAll(EmptyTable, run).rows;
            VersionsOf(rows, dealId) == seq(OffersOf(rows, dealId), k requires 0 <= k => k + 1)
  {
    RunKeeps(EmptyTable, run);
    VersionsAreConsecutive(ApplyAll(EmptyTable, run).rows, dealId);
  }

  // ---------- the repository ----------

  class OfferRepository {
    var rows: seq<Row>
    var nextId: nat

    function View(): Table
      reads this
    {
      Table(rows, nextId)
    }

    constructor ()
      ensures View() == EmptyTable && Inv(View())
    {
      rows, nextId := [], 1;
    }

    /** INSERT ... ON CONFLICT (request_id) DO NOTHING RETURNING id. */
    method InsertOffer(offer: NewOffer) returns (id: Option<nat>)
      modifies this
      ensures View() == Apply(old(View()), Insert(offer))
      ensures id == if IndexOfRequest(old(rows), offer.requestId).Some? then None else Some(old(nextId))
    {
      var used := nextId;
      nextId := nextId + 1;
      if IndexOfRequest(rows, offer.requestId).Some? {
        return None;
      }
      rows := rows + [Row(used, MaxVersion(rows, offer.dealId) + 1, offer, offer.status, None, None, None)];
      return Some(used);
    }

    method GetByID(id: nat) returns (r: Option<Row>)
      ensures r == match IndexOfId(rows, id) case None => None case Some(i) => Some(rows[i])
    {
      var i := IndexOfId(rows, id);
      return if i.Some? then Some(rows[i.value]) else None;
    }

    method GetByRequestID(requestId: string) returns (r: Option<Row>)
      ensures r == match IndexOfRequest(rows, requestId) case None => None case Some(i) => Some(rows[i])
    {
      var i := IndexOfRequest(rows, requestId);
      return if i.Some? then Some(rows[i.value]) else None;
    }

    /** True when the guarded UPDATE returned a row. */
    method UpdateToPending(id: nat) returns (updated: bool)
      modifies this
      ensures View() == Apply(old(View()), MarkPending(id))
      ensures updated <==> IndexOfId(old(rows), id).Some? && CanMark(old(rows)[IndexOfId(old(rows), id).value])
    {
      var i := IndexOfId(rows, id);
      if i.None? || rows[i.value].status != DRAFT || !rows[i.value].offer.approvalRequired {
        return false;
      }
      rows := rows[i.value := rows[i.value].(status := PENDING_APPROVAL)];
      return true;
    }

    method UpdateToDecided(id: nat, actor: User, approve: bool, reason: string) returns (updated: bool)
      modifies this
      ensures View() == Apply(old(View()), Decide(id, actor, approve, reason))
      ensures updated <==> IndexOfId(old(rows), id).Some? && CanDecide(old(rows)[IndexOfId(old(rows), id).value])
    {
      var i := IndexOfId(rows, id);
      if i.None? || rows[i.value].status != PENDING_APPROVAL || !rows[i.value].offer.approvalRequired {
        return false;
      }
      var r := rows[i.value];
      if approve {
        r := r.(status := APPROVED, approvedBy := Some(actor.id), rejectedBy := None, reason := None);
      } else {
        r := r.(status := REJECTED, approvedBy := None, rejectedBy := Some(actor.id), reason := NullIfBlank(reason));
      }
      rows := rows[i.value := r];
      return true;
    }

    /** Statements that other actors run in the meantime. */
    method RunOthers(others: seq<Statement>)
      modifies this
      ensures View() == ApplyAll(old(View()), others)
    {
      var n := 0;
      while n < |others|
        invariant n <= |others| && ApplyAll(View(), others[n..]) == ApplyAll(old(View()), others)
      {
        match others[n] {
          case Insert(offer) => var _ := InsertOffer(offer);
          case MarkPending(id) => var _ := UpdateToPending(id);
          case Decide(id, actor, approve, reason) => var _ := UpdateToDecided(id, actor, approve, reason);
        }
        n := n + 1;
      }
    }
  }
}
