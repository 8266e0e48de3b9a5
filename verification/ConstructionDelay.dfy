/**
 The workflow that writes a recommendation for every live deal of a delayed building, with its
 accounting of permanent and retryable failures. Every remote step is an oracle.
 */
module ConstructionDelay {
  import opened Domain
  import opened Wrappers

  datatype AffectedDeal = AffectedDeal(id: int, status: DealStatus)

  /** The exceptions _error_result tells apart; name is the type name it reports without a code. */
  datatype Failure =
    | BackendTimeout
    | Backend(code: Option<string>, name: string)
    | TemporaryLlm(name: string)
    | Other(name: string)

  /** How far the work on one deal gets. */
  datatype DealOutcome =
    | ReadFailed(failure: Failure)
    | IdMismatch
    | TextFailed(failure: Failure)
    | CreateFailed(failure: Failure)
    | NotConfirmed
    | Confirmed

  datatype Status = DONE | PARTIAL | ERROR

  datatype WorkflowResult = WorkflowResult(status: Status, created: Option<nat>, error: Option<string>, retryable: bool)

  predicate Retryable(f: Failure) {
    match f
    case BackendTimeout => true
    case Backend(Some(code), _) => code in {"TIMEOUT", "PUBLISH_ERROR", "BACKEND_UNAVAILABLE"}
    case TemporaryLlm(_) => true
    case _ => false
  }

  function ErrorResult(f: Failure): WorkflowResult {
    var error :=
      match f
      case BackendTimeout => "TIMEOUT"
      case Backend(code, name) => if code.Some? && code.value != "" then code.value else name
      case TemporaryLlm(name) => name
      case Other(name) => name;
    WorkflowResult(ERROR, None, Some(error), Retryable(f))
  }

  predicate IsLive(d: AffectedDeal) {
    d.status == Pending || d.status == Contract
  }

  /** The exception a deal's work raises, if any; a mismatch or a missing confirmation is a ValueError. */
  function Raised(o: DealOutcome): Option<Failure> {
    match o
    case ReadFailed(f) => Some(f)
    case IdMismatch => Some(Other("ValueError"))
    case TextFailed(f) => Some(f)
    case CreateFailed(f) => Some(f)
    case NotConfirmed => Some(Other("ValueError"))
    case Confirmed => None
  }

  predicate CallsCreate(o: DealOutcome) {
    o.CreateFailed? || o.NotConfirmed? || o.Confirmed?
  }

  /** One entry of the listing with what happens to it. */
  datatype Item = Item(deal: AffectedDeal, outcome: DealOutcome)

  predicate LiveItem(i: Item) {
    IsLive(i.deal)
  }

  predicate Succeeds(i: Item) {
    IsLive(i.deal) && i.outcome.Confirmed?
  }

  predicate StopsRun(i: Item) {
    IsLive(i.deal) && Raised(i.outcome).Some? && Retryable(Raised(i.outcome).value)
  }

  predicate FailsForGood(i: Item) {
    IsLive(i.deal) && Raised(i.outcome).Some? && !Retryable(Raised(i.outcome).value)
  }

  /** What an item does to a run, from the deal's status and from what happens to it: a live deal stops the run by a
      timeout, by a temporary error of the model, or by a failure of the backend with one of three codes; any other
      failure, a foreign answer or a missing confirmation is passed over for good. */
  lemma ItemsMean(i: Item)
    ensures var live := i.deal.status == Pending || i.deal.status == Contract;
            var o := i.outcome;
            var failure := if o.ReadFailed? || o.TextFailed? || o.CreateFailed? then Some(o.failure) else None;
            var temporary := && failure.Some?
                             && (|| failure.value.BackendTimeout? || failure.value.TemporaryLlm?
                                 || (failure.value.Backend?
                                     && failure.value.code
                                        in {Some("TIMEOUT"), Some("PUBLISH_ERROR"), Some("BACKEND_UNAVAILABLE")}));
            && (StopsRun(i) <==> live && temporary)
            && (FailsForGood(i) <==> live && !temporary && o != Confirmed)
            && (Succeeds(i) <==> live && o == Confirmed)
            && (LiveItem(i) <==> live)
            && (forall id :: CreatesFor(i, id) <==>
                  live && i.deal.id == id && (o.CreateFailed? || o.NotConfirmed? || o.Confirmed?))
  {
  }

  /** The error that a failure is reported as: the code of the backend, or the name of the exception. */
  lemma ErrorsMean(f: Failure)
    ensures var r := ErrorResult(f);
            && r.status == ERROR && r.created.None? && r.error.Some?
            && (f.BackendTimeout? ==> r.error == Some("TIMEOUT"))
            && (f.Backend? && f.code.Some? && f.code != Some("") ==> r.error == f.code)
            && (f.Backend? && (f.code.None? || f.code == Some("")) ==> r.error == Some(f.name))
            && (f.TemporaryLlm? || f.Other? ==> r.error == Some(f.name))
            && (r.retryable <==>
                  f.BackendTimeout? || f.TemporaryLlm?
                  || (f.Backend? && f.code in {Some("TIMEOUT"), Some("PUBLISH_ERROR"), Some("BACKEND_UNAVAILABLE")}))
  {
  }

  // ---------- counting ----------

  function Count(items: seq<Item>, p: Item -> bool): nat {
    if items == [] then 0 else Count(items[..|items| - 1], p) + (if p(items[|items| - 1]) then 1 else 0)
  }

  /** The deals for which recommendation.create is called, in order. */
  function CreateCalls(items: seq<Item>): seq<int> {
    if items == [] then []
    else
      var i := items[|items| - 1];
      CreateCalls(items[..|items| - 1]) + (if IsLive(i.deal) && CallsCreate(i.outcome) then [i.deal.id] else [])
  }

  /** The prefix a run works through: up to and including the first retryable failure. */
  function Reached(items: seq<Item>): seq<Item> {
    if items == [] then []
    else if StopsRun(items[0]) then [items[0]]
    else [items[0]] + Reached(items[1..])
  }

  predicate Interrupted(items: seq<Item>) {
    items != [] && (StopsRun(items[0]) || Interrupted(items[1..]))
  }

  lemma {:induction false} ReachedIsPrefix(items: seq<Item>)
    ensures Reached(items) <= items
    ensures Interrupted(items) <==> exists i :: 0 <= i < |items| && StopsRun(items[i])
    ensures Interrupted(items) ==> Reached(items) != [] && StopsRun(Reached(items)[|Reached(items)| - 1])
    ensures !Interrupted(items) ==> Reached(items) == items
    ensures forall i :: 0 <= i < |Reached(items)| - 1 ==> !StopsRun(Reached(items)[i])
  {
    if items != [] && !StopsRun(items[0]) {
      ReachedIsPrefix(items[1..]);
      var r := Reached(items[1..]);
      assert items == [items[0]] + items[1..];
      forall i | 0 <= i < |Reached(items)| - 1
        ensures !StopsRun(Reached(items)[i])
      {
        if i > 0 {
          assert Reached(items)[i] == r[i - 1];
        }
      }
      if Interrupted(items[1..]) {
        var i :| 0 <= i < |items[1..]| && StopsRun(items[1..][i]);
        assert StopsRun(items[i + 1]);
        assert Reached(items)[|Reached(items)| - 1] == r[|r| - 1];
      } else {
        forall i | 0 <= i < |items|
          ensures !StopsRun(items[i])
        {
          if i > 0 {
            assert items[i] == items[1..][i - 1];
          }
        }
      }
    }
  }

  function StatusOf(items: seq<Item>): Status {
    if Interrupted(items) then ERROR else if Count(items, FailsForGood) > 0 then PARTIAL else DONE
  }

  // ---------- the workflow ----------

  class ConstructionDelayWorkflow {
    /** The deals whose recommendation.create the backend has been sent, over all runs. */
    var createCalls: seq<int>

    constructor ()
      ensures createCalls == []
    {
      createCalls := [];
    }

    /** The try block of one live deal. */
    method WorkOn(item: Item) returns (raised: Option<Failure>)
      modifies this
      ensures raised == Raised(item.outcome)
      ensures createCalls == old(createCalls) + (if CallsCreate(item.outcome) then [item.deal.id] else [])
    {
      if CallsCreate(item.outcome) {
        createCalls := createCalls + [item.deal.id];
      }
      raised := Raised(item.outcome);
    }

    /** The result says exactly how far the run got: the confirmed deals are counted up to the first
        retryable failure, and DONE, PARTIAL or ERROR says whether and how the list failed. */
    method Run(listing: Result<seq<Item>, Failure>) returns (r: WorkflowResult)
      modifies this
      ensures listing.Err? ==> r == ErrorResult(listing.error) && createCalls == old(createCalls)
      ensures listing.Ok? ==> Reports(r, listing.value)
      ensures listing.Ok? ==> createCalls == old(createCalls) + CreateCalls(Reached(listing.value))
    {
      if listing.Err? {
        return ErrorResult(listing.error);
      }
      r := RunItems(listing.value);
    }

    method RunItems(items: seq<Item>) returns (r: WorkflowResult)
      modifies this
      ensures Reports(r, items)
      ensures createCalls == old(createCalls) + CreateCalls(Reached(items))
    {
      var created := 0;
      var hadPermanentError := false;
      var n := 0;
      while n < |items|
        invariant n <= |items| && WorkedThrough(items, n, created, hadPermanentError)
        invariant createCalls == old(createCalls) + CreateCalls(items[..n])
      {
        StepThrough(items, n, created, hadPermanentError);
        if IsLive(items[n].deal) {
          var raised := WorkOn(items[n]);
          if raised.None? {
            created := created + 1;
          } else {
            var error := ErrorResult(raised.value);
            if error.retryable {
              StopReport(items, n, error.(created := Some(created)));
              return error.(created := Some(created));
            }
            hadPermanentError := true;
          }
        }
        n := n + 1;
      }
      assert items[..n] == items;
      r := WorkflowResult(if hadPermanentError then PARTIAL else DONE, Some(created), None, false);
      FullReport(items, r);
    }
  }

  /** What the loop's variables say about the first n items, none of which stopped it. */
  ghost predicate WorkedThrough(items: seq<Item>, n: nat, created: nat, hadPermanentError: bool)
    requires n <= |items|
  {
    && (forall i :: 0 <= i < n ==> !StopsRun(items[i]))
    && created == Count(items[..n], Succeeds)
    && (hadPermanentError <==> Count(items[..n], FailsForGood) > 0)
  }

  lemma StepThrough(items: seq<Item>, n: nat, created: nat, hadPermanentError: bool)
    requires n < |items| && WorkedThrough(items, n, created, hadPermanentError)
    ensures !StopsRun(items[n]) ==>
              WorkedThrough(items, n + 1, if Succeeds(items[n]) then created + 1 else created,
                            hadPermanentError || FailsForGood(items[n]))
    ensures CreateCalls(items[..n + 1]) ==
            CreateCalls(items[..n])
            + (if IsLive(items[n].deal) && CallsCreate(items[n].outcome) then [items[n].deal.id] else [])
  {
    PrefixStep(items, n);
  }

  ghost predicate Reports(r: WorkflowResult, items: seq<Item>) {
    && r.created == Some(Count(Reached(items), Succeeds))
    && r.status == StatusOf(items)
    && r.retryable == Interrupted(items)
    && r.error == StopError(items)
  }

  /** The code or type name of the retryable failure that stopped the run. */
  function StopError(items: seq<Item>): Option<string> {
    ReachedIsPrefix(items);
    if Interrupted(items)
    then ErrorResult(Raised(Reached(items)[|Reached(items)| - 1].outcome).value).error
    else None
  }

  lemma {:induction false} StopAt(items: seq<Item>, n: nat)
    requires n < |items| && StopsRun(items[n]) && forall i :: 0 <= i < n ==> !StopsRun(items[i])
    ensures Interrupted(items) && Reached(items) == items[..n + 1]
  {
    if n > 0 {
      var rest := items[1..];
      assert rest[n - 1] == items[n];
      forall i | 0 <= i < n - 1
        ensures !StopsRun(rest[i])
      {
        assert rest[i] == items[i + 1];
      }
      StopAt(rest, n - 1);
      assert items[..n + 1] == [items[0]] + rest[..n];
    }
  }

  lemma StopErrorIs(items: seq<Item>, n: nat)
    requires n < |items| && StopsRun(items[n]) && forall i :: 0 <= i < n ==> !StopsRun(items[i])
    ensures Raised(items[n].outcome).Some? && StopError(items) == ErrorResult(Raised(items[n].outcome).value).error
  {
    StopAt(items, n);
    assert items[..n + 1][n] == items[n];
  }

  lemma StopReport(items: seq<Item>, n: nat, r: WorkflowResult)
    requires n < |items| && StopsRun(items[n]) && forall i :: 0 <= i < n ==> !StopsRun(items[i])
    requires r == ErrorResult(Raised(items[n].outcome).value).(created := Some(Count(items[..n], Succeeds)))
    ensures Reports(r, items) && Reached(items) == items[..n + 1]
  {
    StopErrorIs(items, n);
    StopAt(items, n);
    StopAddsNothing(items, n);
  }

  lemma StopAddsNothing(items: seq<Item>, n: nat)
    requires n < |items| && StopsRun(items[n])
    ensures Count(items[..n + 1], Succeeds) == Count(items[..n], Succeeds)
  {
    PrefixStep(items, n);
  }

  lemma FullReport(items: seq<Item>, r: WorkflowResult)
    requires forall i :: 0 <= i < |items| ==> !StopsRun(items[i])
    requires r == WorkflowResult(if Count(items, FailsForGood) > 0 then PARTIAL else DONE,
                                 Some(Count(items, Succeeds)), None, false)
    ensures Reports(r, items) && Reached(items) == items
  {
    ReachedIsPrefix(items);
  }

  lemma PrefixStep(items: seq<Item>, n: nat)
    requires n < |items|
    ensures Count(items[..n + 1], Succeeds) == Count(items[..n], Succeeds) + (if Succeeds(items[n]) then 1 else 0)
    ensures Count(items[..n + 1], FailsForGood) == Count(items[..n], FailsForGood) + (if FailsForGood(items[n]) then 1 else 0)
    ensures CreateCalls(items[..n + 1]) ==
            CreateCalls(items[..n])
            + (if IsLive(items[n].deal) && CallsCreate(items[n].outcome) then [items[n].deal.id] else [])
  {
    assert items[..n + 1][..n] == items[..n];
  }

  lemma {:induction false} CountZero(items: seq<Item>, p: Item -> bool)
    ensures Count(items, p) == 0 <==> forall i :: 0 <= i < |items| ==> !p(items[i])
  {
    if items != [] {
      var front := items[..|items| - 1];
      CountZero(front, p);
      assert forall i :: 0 <= i < |front| ==> front[i] == items[i];
      if Count(front, p) > 0 {
        var i :| 0 <= i < |front| && p(front[i]);
        assert p(items[i]);
      }
    }
  }

  /** A run is DONE exactly when every live deal was confirmed, and then it counts them all. */
  lemma {:induction false} DoneIff(items: seq<Item>)
    ensures StatusOf(items) == DONE
            <==> (forall i :: 0 <= i < |items| && IsLive(items[i].deal) ==> items[i].outcome.Confirmed?)
    ensures (forall i :: 0 <= i < |items| && IsLive(items[i].deal) ==> items[i].outcome.Confirmed?)
            <==> Count(Reached(items), Succeeds) == Count(items, LiveItem)
  {
    ReachedIsPrefix(items);
    CountZero(items, FailsForGood);
    forall i | 0 <= i < |items| && IsLive(items[i].deal)
      ensures items[i].outcome.Confirmed? <==> !StopsRun(items[i]) && !FailsForGood(items[i])
    {
      assert items[i].outcome.Confirmed? <==> Raised(items[i].outcome).None?;
    }
    var r := Reached(items);
    CountPrefix(items, |r|, Succeeds);
    assert items[..|r|] == r;
    CountSubset(items);
    if Interrupted(items) {
      assert Succeeds(r[|r| - 1]) == false && items[|r| - 1] == r[|r| - 1];
      CountWithin(items, |r| - 1);
    }
  }

  /** PARTIAL means a permanent failure and no retryable one; ERROR means a retryable one. */
  lemma PartialIff(items: seq<Item>)
    ensures StatusOf(items) == ERROR <==> exists i :: 0 <= i < |items| && StopsRun(items[i])
    ensures StatusOf(items) == PARTIAL <==>
            && (forall i :: 0 <= i < |items| ==> !StopsRun(items[i]))
            && (exists i :: 0 <= i < |items| && FailsForGood(items[i]))
  {
    ReachedIsPrefix(items);
    CountZero(items, FailsForGood);
  }

  lemma {:induction false} CountPrefix(items: seq<Item>, n: nat, p: Item -> bool)
    requires n <= |items|
    ensures Count(items[..n], p) <= Count(items, p)
  {
    if n < |items| {
      assert items[..|items| - 1][..n] == items[..n];
      CountPrefix(items[..|items| - 1], n, p);
    } else {
      assert items[..n] == items;
    }
  }

  /** Successes are live, and they are all of the live ones exactly when every live one succeeds. */
  lemma {:induction false} CountSubset(items: seq<Item>)
    ensures Count(items, Succeeds) <= Count(items, LiveItem)
    ensures Count(items, Succeeds) == Count(items, LiveItem) <==>
            forall i :: 0 <= i < |items| && IsLive(items[i].deal) ==> items[i].outcome.Confirmed?
  {
    if items != [] {
      var front := items[..|items| - 1];
      CountSubset(front);
      assert forall i :: 0 <= i < |front| ==> front[i] == items[i];
      var last := items[|items| - 1];
      if forall i :: 0 <= i < |front| && IsLive(front[i].deal) ==> front[i].outcome.Confirmed? {
      } else {
        var i :| 0 <= i < |front| && IsLive(front[i].deal) && !front[i].outcome.Confirmed?;
        assert IsLive(items[i].deal) && !items[i].outcome.Confirmed?;
      }
    }
  }

  lemma CountWithin(items: seq<Item>, n: nat)
    requires n < |items| && IsLive(items[n].deal) && !Succeeds(items[n])
    ensures Count(items[..n + 1], Succeeds) < Count(items, LiveItem)
  {
    CountPrefix(items, n + 1, Succeeds);
    CountSubset(items);
    assert IsLive(items[n].deal) && !items[n].outcome.Confirmed?;
  }

  // ---------- calls per deal ----------

  function Occurrences(ids: seq<int>, id: int): nat {
    if ids == [] then 0 else Occurrences(ids[..|ids| - 1], id) + (if ids[|ids| - 1] == id then 1 else 0)
  }

  function LiveDeal(id: int): Item -> bool {
    (i: Item) => IsLive(i.deal) && i.deal.id == id
  }

  /** One run creates for a deal at most as often as the listing shows it live, so never for a dead one. */
  lemma {:induction false} CallsPerRun(items: seq<Item>, id: int)
    ensures Occurrences(CreateCalls(Reached(items)), id) <= Count(items, LiveDeal(id))
  {
    ReachedIsPrefix(items);
    var r := Reached(items);
    assert items[..|r|] == r;
    CountPrefix(items, |r|, LiveDeal(id));
    CallsOf(r, id);
  }

  lemma {:induction false} CallsOf(items: seq<Item>, id: int)
    ensures Occurrences(CreateCalls(items), id) <= Count(items, LiveDeal(id))
  {
    if items != [] {
      var front, last := items[..|items| - 1], items[|items| - 1];
      CallsOf(front, id);
      if IsLive(last.deal) && CallsCreate(last.outcome) {
        assert CreateCalls(items)[..|CreateCalls(front)|] == CreateCalls(front);
      } else {
        assert CreateCalls(items) == CreateCalls(front);
      }
    }
  }

  // ---------- where a run calls for a deal ----------

  predicate CreatesFor(i: Item, id: int) {
    IsLive(i.deal) && i.deal.id == id && CallsCreate(i.outcome)
  }

  /** The run gets as far as item q and calls for the deal there. */
  predicate CallsAt(items: seq<Item>, q: nat, id: int) {
    q < |items| && (forall i :: 0 <= i < q ==> !StopsRun(items[i])) && CreatesFor(items[q], id)
  }

  /** ... and the backend confirms the recommendation. */
  predicate ConfirmedAt(items: seq<Item>, q: nat, id: int) {
    CallsAt(items, q, id) && items[q].outcome.Confirmed?
  }

  /** A run through the items calls for the deal. */
  ghost predicate Calls(items: seq<Item>, id: int) {
    exists q: nat :: CallsAt(items, q, id)
  }

  /** A run gets as far as q exactly when no item before q stops it. */
  lemma ReachedAt(items: seq<Item>, q: nat)
    requires q < |items|
    ensures q < |Reached(items)| <==> forall i :: 0 <= i < q ==> !StopsRun(items[i])
    ensures q < |Reached(items)| ==> Reached(items)[q] == items[q]
  {
    ReachedIsPrefix(items);
    var r := Reached(items);
    if Interrupted(items) {
      assert items[|r| - 1] == r[|r| - 1];
    }
    assert forall i :: 0 <= i < |r| ==> r[i] == items[i];
  }

  lemma {:induction false} OccursIff(items: seq<Item>, id: int)
    ensures Occurrences(CreateCalls(items), id) > 0 <==> exists i :: 0 <= i < |items| && CreatesFor(items[i], id)
  {
    if items != [] {
      var front, last := items[..|items| - 1], items[|items| - 1];
      OccursIff(front, id);
      assert forall i :: 0 <= i < |front| ==> front[i] == items[i];
      assert CreatesFor(last, id) ==> CreatesFor(items[|items| - 1], id);
      if IsLive(last.deal) && CallsCreate(last.outcome) {
        assert CreateCalls(items)[..|CreateCalls(front)|] == CreateCalls(front);
      } else {
        assert CreateCalls(items) == CreateCalls(front);
      }
    }
  }

  lemma CallsIff(items: seq<Item>, id: int)
    ensures Occurrences(CreateCalls(Reached(items)), id) > 0 <==> Calls(items, id)
  {
    var r := Reached(items);
    OccursIff(r, id);
    ReachedIsPrefix(items);
    if Calls(items, id) {
      var q: nat :| CallsAt(items, q, id);
      ReachedAt(items, q);
      assert CreatesFor(r[q], id);
    }
    if i :| 0 <= i < |r| && CreatesFor(r[i], id) {
      ReachedAt(items, i);
      assert CallsAt(items, i, id);
    }
  }

  /** Beyond an item that does not stop it, a run goes on as a run through the items that follow. */
  lemma {:induction false} GoesOnBehind(items: seq<Item>, p: nat)
    requires p < |items| && forall i :: 0 <= i <= p ==> !StopsRun(items[i])
    ensures Reached(items) == items[..p + 1] + Reached(items[p + 1..])
    ensures Interrupted(items) <==> Interrupted(items[p + 1..])
  {
    if p == 0 {
      assert items[..1] == [items[0]];
    } else {
      var rest := items[1..];
      assert forall i :: 0 <= i <= p - 1 ==> rest[i] == items[i + 1];
      GoesOnBehind(rest, p - 1);
      assert rest[p..] == items[p + 1..];
      assert items[..p + 1] == [items[0]] + rest[..p];
    }
  }

  lemma ConfirmedDoesNotStop(items: seq<Item>, p: nat, id: int)
    requires ConfirmedAt(items, p, id)
    ensures Reached(items) == items[..p + 1] + Reached(items[p + 1..])
    ensures Interrupted(items) <==> Interrupted(items[p + 1..])
  {
    assert forall i :: 0 <= i <= p ==> !StopsRun(items[i]);
    GoesOnBehind(items, p);
  }
}
