/**
 The offer agent's table of offers that wait for a discount: a dict bounded in size and in age.
 The table is compared, over every run of remember, get and clear, with the plain history of
 those operations.
 */
module PendingOffers {
  import opened Wrappers

  const PENDING_OFFER_TTL_SECONDS: real := 900.0
  const MAX_PENDING_OFFERS: nat := 1000

  datatype Key = Key(userId: int, sessionId: int)

  datatype Request = Request(createOffer: bool, dealId: int, message: string, parkingUnitId: Option<int>, storageUnitId: Option<int>)

  datatype PendingOffer = PendingOffer(request: Request, createdAt: real)

  /** A dict in insertion order. */
  type Table = seq<(Key, PendingOffer)>

  predicate Expired(p: PendingOffer, now: real) {
    p.createdAt < now - PENDING_OFFER_TTL_SECONDS
  }

  // ---------- dict operations ----------

  function Lookup(table: Table, k: Key): Option<PendingOffer> {
    if table == [] then None
    else if table[0].0 == k then Some(table[0].1)
    else Lookup(table[1..], k)
  }

  function Put(table: Table, k: Key, p: PendingOffer): Table {
    if table == [] then [(k, p)]
    else if table[0].0 == k then [(k, p)] + table[1..]
    else [table[0]] + Put(table[1..], k, p)
  }

  function Pop(table: Table, k: Key): Table {
    if table == [] then []
    else if table[0].0 == k then table[1..]
    else [table[0]] + Pop(table[1..], k)
  }

  function Purged(table: Table, now: real): Table {
    if table == [] then []
    else if Expired(table[0].1, now) then Purged(table[1..], now)
    else [table[0]] + Purged(table[1..], now)
  }

  /** min over the keys by created_at: the first of the oldest entries. */
  function Oldest(table: Table): (i: nat)
    requires table != []
    ensures i < |table|
  {
    if |table| == 1 then 0
    else
      var j := 1 + Oldest(table[1..]);
      if table[j].1.createdAt < table[0].1.createdAt then j else 0
  }

  ghost predicate DistinctKeys(table: Table) {
    forall i, j :: 0 <= i < j < |table| ==> table[i].0 != table[j].0
  }

  predicate HasKey(table: Table, k: Key) {
    Lookup(table, k).Some?
  }

  lemma {:induction false} LookupIndex(table: Table, k: Key)
    ensures HasKey(table, k) <==> exists i :: 0 <= i < |table| && table[i].0 == k
    ensures forall i :: 0 <= i < |table| && table[i].0 == k && DistinctKeys(table) ==> Lookup(table, k) == Some(table[i].1)
  {
    if table != [] {
      LookupIndex(table[1..], k);
      if table[0].0 == k {
      } else if HasKey(table, k) {
        var i :| 0 <= i < |table[1..]| && table[1..][i].0 == k;
        assert table[i + 1].0 == k;
      }
      forall i | 0 <= i < |table| && table[i].0 == k
        ensures HasKey(table, k)
        ensures DistinctKeys(table) ==> Lookup(table, k) == Some(table[i].1)
      {
        if i > 0 {
          assert table[1..][i - 1] == table[i];
        }
      }
    }
  }

  lemma {:induction false} PutFacts(table: Table, k: Key, p: PendingOffer)
    requires DistinctKeys(table)
    ensures DistinctKeys(Put(table, k, p))
    ensures forall q :: Lookup(Put(table, k, p), q) == if q == k then Some(p) else Lookup(table, q)
    ensures |Put(table, k, p)| == if HasKey(table, k) then |table| else |table| + 1
    ensures forall i :: 0 <= i < |Put(table, k, p)| ==>
              Put(table, k, p)[i].0 == k || (i < |table| && Put(table, k, p)[i] == table[i])
  {
    if table != [] && table[0].0 != k {
      PutFacts(table[1..], k, p);
      var t := Put(table[1..], k, p);
      assert Put(table, k, p) == [table[0]] + t;
      forall i | 0 <= i < |t|
        ensures t[i].0 != table[0].0
      {
        if t[i].0 != k {
          assert table[1..][i] == table[i + 1];
        }
      }
    }
  }

  lemma {:induction false} PopFacts(table: Table, k: Key)
    requires DistinctKeys(table)
    ensures DistinctKeys(Pop(table, k))
    ensures forall q :: Lookup(Pop(table, k), q) == if q == k then None else Lookup(table, q)
    ensures |Pop(table, k)| == if HasKey(table, k) then |table| - 1 else |table|
    ensures forall e :: e in Pop(table, k) ==> e in table
  {
    if table != [] {
      if table[0].0 == k {
        LookupIndex(table[1..], k);
        assert forall i :: 0 <= i < |table[1..]| ==> table[1..][i] == table[i + 1];
      } else {
        PopFacts(table[1..], k);
        assert forall i :: 0 <= i < |table[1..]| ==> table[1..][i] == table[i + 1];
        forall i | 0 <= i < |Pop(table[1..], k)|
          ensures Pop(table[1..], k)[i].0 != table[0].0
        {
          assert Pop(table[1..], k)[i] in table[1..];
        }
      }
    }
  }

  lemma {:induction false} PurgedFacts(table: Table, now: real)
    requires DistinctKeys(table)
    ensures DistinctKeys(Purged(table, now)) && |Purged(table, now)| <= |table|
    ensures forall q :: Lookup(Purged(table, now), q) == Unexpired(Lookup(table, q), now)
    ensures forall e :: e in Purged(table, now) ==> e in table && !Expired(e.1, now)
  {
    if table != [] {
      PurgedFacts(table[1..], now);
      assert forall i :: 0 <= i < |table[1..]| ==> table[1..][i] == table[i + 1];
      LookupIndex(table[1..], table[0].0);
      forall i | 0 <= i < |Purged(table[1..], now)|
        ensures Purged(table[1..], now)[i].0 != table[0].0
      {
        assert Purged(table[1..], now)[i] in table[1..];
      }
    }
  }

  function Unexpired(p: Option<PendingOffer>, now: real): Option<PendingOffer> {
    if p.Some? && Expired(p.value, now) then None else p
  }

  /** None is older, and those inserted before it are newer. */
  lemma {:induction false} OldestIsOldest(table: Table)
    requires table != []
    ensures forall e :: e in table ==> table[Oldest(table)].1.createdAt <= e.1.createdAt
    ensures forall i :: 0 <= i < Oldest(table) ==> table[Oldest(table)].1.createdAt < table[i].1.createdAt
  {
    if |table| > 1 {
      var rest := table[1..];
      OldestIsOldest(rest);
      assert table == [table[0]] + rest;
      assert forall i :: 1 <= i < |table| ==> table[i] == rest[i - 1];
    }
  }

  // ---------- the three operations ----------

  predicate FindsFull(table: Table, now: real) {
    |Purged(table, now)| >= MAX_PENDING_OFFERS
  }

  function Victim(table: Table, now: real): Key
    requires FindsFull(table, now)
  {
    Purged(table, now)[Oldest(Purged(table, now))].0
  }

  function Remembered(table: Table, k: Key, request: Request, now: real, stamp: real): Table {
    var purged := Purged(table, now);
    var room := if FindsFull(table, now) then Pop(purged, Victim(table, now)) else purged;
    Put(room, k, PendingOffer(request, stamp))
  }

  /** The clock is read once for the purge and once more for the new entry. */
  datatype Event =
    | Remember(k: Key, request: Request, now: real, stamp: real)
    | Get(k: Key, now: real)
    | Clear(k: Key)

  function After(table: Table, e: Event): Table {
    match e
    case Remember(k, request, now, stamp) => Remembered(table, k, request, now, stamp)
    case Get(_, now) => Purged(table, now)
    case Clear(k) => Pop(table, k)
  }

  function AfterAll(table: Table, events: seq<Event>): Table {
    if events == [] then table else After(AfterAll(table, events[..|events| - 1]), events[|events| - 1])
  }

  function TableAfter(events: seq<Event>): Table {
    if events == [] then [] else After(TableAfter(events[..|events| - 1]), events[|events| - 1])
  }

  // ---------- the history the table stands for ----------

  /** The last request remembered for a key and not cleared since, however old. */
  function LastRemembered(events: seq<Event>, k: Key): Option<PendingOffer> {
    if events == [] then None
    else
      match events[|events| - 1]
      case Remember(q, request, _, stamp) =>
        if q == k then Some(PendingOffer(request, stamp)) else LastRemembered(events[..|events| - 1], k)
      case Clear(q) => if q == k then None else LastRemembered(events[..|events| - 1], k)
      case Get(_, _) => LastRemembered(events[..|events| - 1], k)
  }

  /** The key was evicted by a remember that found the table full, and neither remembered nor cleared since. */
  function Lost(events: seq<Event>, k: Key): bool {
    if events == [] then false
    else
      var before := events[..|events| - 1];
      match events[|events| - 1]
      case Remember(q, _, now, _) =>
        q != k && (Lost(before, k) || (FindsFull(TableAfter(before), now) && Victim(TableAfter(before), now) == k))
      case Clear(q) => q != k && Lost(before, k)
      case Get(_, _) => Lost(before, k)
  }

  function Clock(events: seq<Event>): real {
    if events == [] then 0.0
    else
      match events[|events| - 1]
      case Remember(_, _, _, stamp) => stamp
      case Get(_, now) => now
      case Clear(_) => Clock(events[..|events| - 1])
  }

  /** time.monotonic never goes back. */
  predicate Monotonic(events: seq<Event>) {
    events == [] ||
    (Monotonic(events[..|events| - 1]) &&
     match events[|events| - 1]
     case Remember(_, _, now, stamp) => Clock(events[..|events| - 1]) <= now <= stamp
     case Get(_, now) => Clock(events[..|events| - 1]) <= now
     case Clear(_) => true)
  }

  /** The moment of the last purge: every remember and every get begins with one. */
  function LastPurge(events: seq<Event>): real {
    if events == [] then 0.0
    else
      match events[|events| - 1]
      case Remember(_, _, now, _) => now
      case Get(_, now) => now
      case Clear(_) => LastPurge(events[..|events| - 1])
  }

  // ---------- main results ----------

  /** The table holds exactly the remembered requests, less the evicted ones and those that had expired at the last
      purge. */
  ghost predicate Agrees(events: seq<Event>, k: Key) {
    Lookup(TableAfter(events), k) ==
    if Lost(events, k) then None else Unexpired(LastRemembered(events, k), LastPurge(events))
  }

  lemma {:induction false} PurgedBeforeClock(events: seq<Event>)
    requires Monotonic(events)
    ensures LastPurge(events) <= Clock(events)
  {
    if events != [] {
      PurgedBeforeClock(events[..|events| - 1]);
    }
  }

  lemma {:induction false} TableInvariant(events: seq<Event>)
    requires Monotonic(events)
    ensures DistinctKeys(TableAfter(events)) && |TableAfter(events)| <= MAX_PENDING_OFFERS
    ensures forall k :: Agrees(events, k)
  {
    if events != [] {
      var before, e := events[..|events| - 1], events[|events| - 1];
      TableInvariant(before);
      PurgedBeforeClock(before);
      match e {
        case Remember(k, request, now, stamp) =>
          RememberedFacts(TableAfter(before), k, request, now, stamp);
          forall k
            ensures Agrees(events, k)
          {
            RememberKeeps(before, events, k);
          }
        case Get(_, now) =>
          PurgedFacts(TableAfter(before), now);
          forall k
            ensures Agrees(events, k)
          {
            assert Agrees(before, k);
          }
        case Clear(q) =>
          PopFacts(TableAfter(before), q);
          forall k
            ensures Agrees(events, k)
          {
            assert Agrees(before, k);
          }
      }
    }
  }

  lemma RememberedFacts(table: Table, k: Key, request: Request, now: real, stamp: real)
    requires DistinctKeys(table) && |table| <= MAX_PENDING_OFFERS
    ensures var after := Remembered(table, k, request, now, stamp);
            && DistinctKeys(after) && |after| <= MAX_PENDING_OFFERS
            && forall q :: Lookup(after, q) ==
                 if q == k then Some(PendingOffer(request, stamp))
                 else if FindsFull(table, now) && Victim(table, now) == q then None
                 else Unexpired(Lookup(table, q), now)
  {
    var purged := Purged(table, now);
    PurgedFacts(table, now);
    var room := if FindsFull(table, now) then Pop(purged, Victim(table, now)) else purged;
    if FindsFull(table, now) {
      PopFacts(purged, Victim(table, now));
      LookupIndex(purged, Victim(table, now));
    }
    PutFacts(room, k, PendingOffer(request, stamp));
  }

  lemma RememberKeeps(before: seq<Event>, events: seq<Event>, k: Key)
    requires events != [] && before == events[..|events| - 1] && events[|events| - 1].Remember? && Monotonic(events)
    requires DistinctKeys(TableAfter(before)) && |TableAfter(before)| <= MAX_PENDING_OFFERS && Agrees(before, k)
    ensures Agrees(events, k)
  {
    var Remember(q, request, now, stamp) := events[|events| - 1];
    PurgedBeforeClock(before);
    RememberedFacts(TableAfter(before), q, request, now, stamp);
    assert TableAfter(events) == Remembered(TableAfter(before), q, request, now, stamp);
  }

  /** At every later moment, get answers the history, except for a key lost to an eviction. */
  lemma GetAnswersHistory(events: seq<Event>, k: Key, now: real)
    requires Monotonic(events) && Clock(events) <= now
    ensures Lookup(Purged(TableAfter(events), now), k) ==
            if Lost(events, k) || LastRemembered(events, k).None? then None
            else if LastRemembered(events, k).value.createdAt < now - 900.0 then None
            else LastRemembered(events, k)
  {
    TableInvariant(events);
    assert Agrees(events, k);
    PurgedBeforeClock(events);
    PurgedFacts(TableAfter(events), now);
  }

  ghost predicate NeverFull(events: seq<Event>) {
    events == [] ||
    (NeverFull(events[..|events| - 1]) &&
     (events[|events| - 1].Remember? ==> !FindsFull(TableAfter(events[..|events| - 1]), events[|events| - 1].now)))
  }

  /** Unless some remember finds the table full it answers as an unbounded table would. */
  lemma {:induction false} NothingLost(events: seq<Event>, k: Key)
    requires NeverFull(events)
    ensures !Lost(events, k)
  {
    if events != [] {
      NothingLost(events[..|events| - 1], k);
    }
  }

  lemma UnboundedWhenNeverFull(events: seq<Event>, k: Key, now: real)
    requires Monotonic(events) && Clock(events) <= now && NeverFull(events)
    ensures var last := LastRemembered(events, k);
            Lookup(Purged(TableAfter(events), now), k) ==
            if last.Some? && last.value.createdAt >= now - 900.0 then last else None
  {
    NothingLost(events, k);
    GetAnswersHistory(events, k, now);
  }

  /** An eviction happens only beside a thousand unexpired entries, none of them older than the victim. */
  lemma EvictionIsOfOldest(events: seq<Event>, now: real)
    requires Monotonic(events) && Clock(events) <= now && FindsFull(TableAfter(events), now)
    ensures var purged, v := Purged(TableAfter(events), now), Victim(TableAfter(events), now);
            && |purged| == 1000
            && Lookup(purged, v).Some?
            && (forall e :: e in purged ==> e.1.createdAt >= now - 900.0 && Lookup(purged, v).value.createdAt <= e.1.createdAt)
            && exists i :: 0 <= i < |purged| && purged[i].0 == v
                           && forall k :: 0 <= k < i ==> purged[i].1.createdAt < purged[k].1.createdAt
  {
    TableInvariant(events);
    PurgedFacts(TableAfter(events), now);
    var purged, v := Purged(TableAfter(events), now), Victim(TableAfter(events), now);
    OldestIsOldest(purged);
    LookupIndex(purged, v);
  }

  // ---------- resume_pending ----------

  /** The last remember or clear of the key is a remember. */
  function Reopened(events: seq<Event>, k: Key): bool {
    if events == [] then false
    else
      match events[|events| - 1]
      case Remember(q, _, _, _) => q == k || Reopened(events[..|events| - 1], k)
      case Clear(q) => q != k && Reopened(events[..|events| - 1], k)
      case Get(_, _) => Reopened(events[..|events| - 1], k)
  }

  lemma {:induction false} ReopenedIff(events: seq<Event>, k: Key)
    ensures Reopened(events, k) <==> LastRemembered(events, k).Some?
  {
    if events != [] {
      ReopenedIff(events[..|events| - 1], k);
    }
  }

  lemma {:induction false} LastOfBoth(before: seq<Event>, between: seq<Event>, k: Key)
    requires Reopened(between, k)
    ensures LastRemembered(before + between, k) == LastRemembered(between, k) && LastRemembered(between, k).Some?
  {
    var events := before + between;
    assert events[..|events| - 1] == before + between[..|between| - 1];
    ReopenedIff(between, k);
    var e := between[|between| - 1];
    if !e.Remember? || e.k != k {
      LastOfBoth(before, between[..|between| - 1], k);
    }
  }

  /** One operation leaves what the table holds for a key, or removes it, unless it remembers the key. */
  lemma StaysOrGoes(table: Table, e: Event, k: Key)
    requires DistinctKeys(table) && |table| <= MAX_PENDING_OFFERS && !(e.Remember? && e.k == k)
    ensures Lookup(After(table, e), k) == Lookup(table, k) || Lookup(After(table, e), k).None?
    ensures e == Clear(k) ==> Lookup(After(table, e), k).None?
  {
    match e {
      case Remember(q, request, now, stamp) => RememberedFacts(table, q, request, now, stamp);
      case Get(_, now) => PurgedFacts(table, now);
      case Clear(q) => PopFacts(table, q);
    }
  }

  lemma {:induction false} NotReopenedStaysOrGoes(before: seq<Event>, between: seq<Event>, k: Key)
    requires Monotonic(before + between) && !Reopened(between, k)
    ensures var found := Lookup(TableAfter(before + between), k);
            found.None? || found == Lookup(TableAfter(before), k)
  {
    if between == [] {
      assert before + between == before;
    } else {
      var front, e := between[..|between| - 1], between[|between| - 1];
      var run := before + front;
      assert before + between == run + [e] && (run + [e])[..|run|] == run;
      TableInvariant(run);
      TableSnoc(run, e);
      StaysOrGoes(TableAfter(run), e, k);
      if e != Clear(k) {
        NotReopenedStaysOrGoes(before, front, k);
      }
    }
  }

  lemma TableSnoc(events: seq<Event>, e: Event)
    ensures TableAfter(events + [e]) == After(TableAfter(events), e)
  {
    assert (events + [e])[..|events|] == events;
  }

  /** What a clear of the key finds after what came before and in between: if the key has been reopened, the request
      remembered last in between, unless that was evicted or had expired at the last purge; otherwise what the table
      held before, or nothing. */
  ghost predicate ClearFinds(before: seq<Event>, between: seq<Event>, k: Key, taken: Option<PendingOffer>) {
    if Reopened(between, k) then
      && LastRemembered(between, k).Some?
      && taken == (if Lost(before + between, k)
                      || Expired(LastRemembered(between, k).value, LastPurge(before + between))
                   then None else LastRemembered(between, k))
    else taken.None? || taken == Lookup(TableAfter(before), k)
  }

  /** resume_pending gets an entry, waits for the language model and then clears the key. What the clear takes out of
      the table is a request remembered in the meantime, which nobody has resumed, exactly when the key has been
      reopened and that request is neither evicted nor purged; otherwise it is the entry of before, or nothing. */
  lemma ResumeDropsNewerIff(before: seq<Event>, between: seq<Event>, k: Key)
    requires Monotonic(before + between)
    ensures ClearFinds(before, between, k, Lookup(TableAfter(before + between), k))
    ensures Lookup(TableAfter(before + between + [Clear(k)]), k) == None
  {
    var events := before + between;
    TableInvariant(events);
    if Reopened(between, k) {
      assert Agrees(events, k);
      LastOfBoth(before, between, k);
    } else {
      NotReopenedStaysOrGoes(before, between, k);
    }
    TableSnoc(events, Clear(k));
    PopFacts(TableAfter(events), k);
  }

  /** Without a remember of the key in between, the clear takes only what the resume has got. */
  lemma ResumeClearsItsOwn(before: seq<Event>, between: seq<Event>, k: Key)
    requires Monotonic(before + between) && forall e :: e in between && e.Remember? ==> e.k != k
    ensures var taken := Lookup(TableAfter(before + between), k);
            taken.None? || taken == Lookup(TableAfter(before), k)
  {
    NotReopened(between, k);
    ResumeDropsNewerIff(before, between, k);
  }

  lemma {:induction false} NotReopened(events: seq<Event>, k: Key)
    requires forall e :: e in events && e.Remember? ==> e.k != k
    ensures !Reopened(events, k)
  {
    if events != [] {
      assert events[|events| - 1] in events;
      assert forall e :: e in events[..|events| - 1] ==> e in events;
      NotReopened(events[..|events| - 1], k);
    }
  }

  /** One remember in between is enough: the clear drops it from the table. */
  lemma ResumeMayDropNewer(before: seq<Event>, k: Key, request: Request, now: real, stamp: real)
    requires Monotonic(before) && Clock(before) <= now <= stamp
    ensures var events := before + [Remember(k, request, now, stamp)];
            && Lookup(TableAfter(events), k) == Some(PendingOffer(request, stamp))
            && Lookup(TableAfter(events + [Clear(k)]), k) == None
  {
    var between := [Remember(k, request, now, stamp)];
    var events := before + between;
    assert events[..|before|] == before && between[..0] == [];
    ResumeDropsNewerIff(before, between, k);
  }

  lemma NextAppended(before: seq<Event>, events: seq<Event>, n: nat)
    requires n < |events|
    ensures before + events[..n + 1] == before + events[..n] + [events[n]]
  {
  }

  lemma AfterAllSnoc(table: Table, events: seq<Event>, e: Event)
    ensures AfterAll(table, events + [e]) == After(AfterAll(table, events), e)
  {
    assert (events + [e])[..|events|] == events;
  }

  lemma {:induction false} TableOfBoth(before: seq<Event>, events: seq<Event>)
    ensures TableAfter(before + events) == AfterAll(TableAfter(before), events)
  {
    if events == [] {
      assert before + events == before;
    } else {
      var front, e := events[..|events| - 1], events[|events| - 1];
      var run := before + front;
      TableOfBoth(before, front);
      assert before + events == run + [e] && events == front + [e];
      TableSnoc(run, e);
      AfterAllSnoc(TableAfter(before), front, e);
    }
  }

  // ---------- the agent's fields and methods ----------

  class OfferAgent {
    var pendingOffers: Table
    /** The operations that the table has been through. */
    ghost var history: seq<Event>

    ghost predicate Valid()
      reads this
    {
      DistinctKeys(pendingOffers) && pendingOffers == TableAfter(history)
    }

    constructor ()
      ensures Valid() && pendingOffers == [] && history == []
    {
      pendingOffers, history := [], [];
    }

    method RememberPending(userId: int, sessionId: Option<int>, request: Request, now: real, stamp: real)
      requires Valid()
      modifies this
      ensures Valid()
      ensures history == if sessionId.None? then old(history)
                         else old(history) + [Remember(Key(userId, sessionId.value), request, now, stamp)]
      ensures pendingOffers == if sessionId.None? then old(pendingOffers)
                               else After(old(pendingOffers), Remember(Key(userId, sessionId.value), request, now, stamp))
    {
      if sessionId.None? {
        return;
      }
      var k := Key(userId, sessionId.value);
      PurgeExpiredLocked(now);
      if |pendingOffers| >= MAX_PENDING_OFFERS {
        var oldest := pendingOffers[Oldest(pendingOffers)].0;
        PopFacts(pendingOffers, oldest);
        pendingOffers := Pop(pendingOffers, oldest);
      }
      PutFacts(pendingOffers, k, PendingOffer(request, stamp));
      pendingOffers := Put(pendingOffers, k, PendingOffer(request, stamp));
      TableSnoc(history, Remember(k, request, now, stamp));
      history := history + [Remember(k, request, now, stamp)];
    }

    method GetPending(userId: int, sessionId: int, now: real) returns (r: Option<PendingOffer>)
      requires Valid()
      modifies this
      ensures Valid() && history == old(history) + [Get(Key(userId, sessionId), now)]
      ensures pendingOffers == After(old(pendingOffers), Get(Key(userId, sessionId), now))
      ensures r == Lookup(pendingOffers, Key(userId, sessionId))
    {
      PurgeExpiredLocked(now);
      TableSnoc(history, Get(Key(userId, sessionId), now));
      history := history + [Get(Key(userId, sessionId), now)];
      r := Lookup(pendingOffers, Key(userId, sessionId));
    }

    method ClearPending(userId: int, sessionId: Option<int>)
      requires Valid()
      modifies this
      ensures Valid()
      ensures history == if sessionId.None? then old(history) else old(history) + [Clear(Key(userId, sessionId.value))]
      ensures pendingOffers == if sessionId.None? then old(pendingOffers)
                               else After(old(pendingOffers), Clear(Key(userId, sessionId.value)))
    {
      if sessionId.None? {
        return;
      }
      var k := Key(userId, sessionId.value);
      PopFacts(pendingOffers, k);
      pendingOffers := Pop(pendingOffers, k);
      TableSnoc(history, Clear(k));
      history := history + [Clear(k)];
    }

    /** One operation of another request. */
    method RunOther(e: Event)
      requires Valid()
      modifies this
      ensures Valid() && history == old(history) + [e]
    {
      match e {
        case Remember(k, request, now, stamp) => RememberPending(k.userId, Some(k.sessionId), request, now, stamp);
        case Get(k, now) => var _ := GetPending(k.userId, k.sessionId, now);
        case Clear(k) => ClearPending(k.userId, Some(k.sessionId));
      }
    }

    method RunOthers(others: seq<Event>)
      requires Valid()
      modifies this
      ensures Valid() && history == old(history) + others
      ensures pendingOffers == AfterAll(old(pendingOffers), others)
    {
      for n := 0 to |others|
        invariant Valid() && history == old(history) + others[..n]
      {
        NextAppended(old(history), others, n);
        RunOther(others[n]);
      }
      assert others[..|others|] == others;
      TableOfBoth(old(history), others);
    }

    /** Lists the expired keys first and pops them afterwards. */
    method PurgeExpiredLocked(now: real)
      requires DistinctKeys(pendingOffers)
      modifies this`pendingOffers
      ensures DistinctKeys(pendingOffers) && pendingOffers == Purged(old(pendingOffers), now)
    {
      var expired: seq<Key> := [];
      for i := 0 to |pendingOffers|
        invariant expired == ExpiredKeys(pendingOffers[..i], now)
      {
        assert pendingOffers[..i + 1][..i] == pendingOffers[..i];
        if Expired(pendingOffers[i].1, now) {
          expired := expired + [pendingOffers[i].0];
        }
      }
      assert pendingOffers[..|pendingOffers|] == pendingOffers;
      PurgedFacts(pendingOffers, now);
      PopExpired(pendingOffers, now);
      ghost var start := pendingOffers;
      var n := 0;
      while n < |expired|
        invariant n <= |expired|
        invariant PopAll(pendingOffers, expired[n..]) == PopAll(start, expired)
      {
        pendingOffers := Pop(pendingOffers, expired[n]);
        n := n + 1;
      }
    }
  }

  function ExpiredKeys(table: Table, now: real): seq<Key> {
    if table == [] then []
    else
      var rest := ExpiredKeys(table[..|table| - 1], now);
      if Expired(table[|table| - 1].1, now) then rest + [table[|table| - 1].0] else rest
  }

  function PopAll(table: Table, keys: seq<Key>): Table
    decreases |keys|
  {
    if keys == [] then table else PopAll(Pop(table, keys[0]), keys[1..])
  }

  lemma {:induction false} PopExpired(table: Table, now: real)
    requires DistinctKeys(table)
    ensures PopAll(table, ExpiredKeys(table, now)) == Purged(table, now)
  {
    if table != [] {
      var rest := table[1..];
      ExpiredHead(table, now);
      PopExpired(rest, now);
      if Expired(table[0].1, now) {
        assert Pop(table, table[0].0) == rest;
        assert ([table[0].0] + ExpiredKeys(rest, now))[1..] == ExpiredKeys(rest, now);
      } else {
        KeysOfRest(rest, now);
        forall k | k in ExpiredKeys(rest, now)
          ensures k != table[0].0
        {
          var i :| 0 <= i < |rest| && rest[i].0 == k;
          assert table[i + 1] == rest[i];
        }
        assert ExpiredKeys(table, now) == ExpiredKeys(rest, now);
        PopAllKeepsHead(table, ExpiredKeys(rest, now));
      }
    }
  }

  lemma {:induction false} ExpiredHead(table: Table, now: real)
    requires table != []
    ensures ExpiredKeys(table, now) ==
            (if Expired(table[0].1, now) then [table[0].0] else []) + ExpiredKeys(table[1..], now)
  {
    if |table| > 1 {
      ExpiredHead(table[..|table| - 1], now);
      assert table[..|table| - 1][1..] == table[1..][..|table| - 2];
    } else {
      assert table[..0] == [] && table[1..] == [];
    }
  }

  lemma {:induction false} KeysOfRest(table: Table, now: real)
    ensures forall k :: k in ExpiredKeys(table, now) ==> exists i :: 0 <= i < |table| && table[i].0 == k
  {
    if table != [] {
      var front := table[..|table| - 1];
      KeysOfRest(front, now);
      forall k | k in ExpiredKeys(table, now)
        ensures exists i :: 0 <= i < |table| && table[i].0 == k
      {
        if k in ExpiredKeys(front, now) {
          var i :| 0 <= i < |front| && front[i].0 == k;
          assert table[i].0 == k;
        } else {
          assert table[|table| - 1].0 == k;
        }
      }
    }
  }

  lemma {:induction false} PopAllKeepsHead(table: Table, keys: seq<Key>)
    requires table != [] && table[0].0 !in keys
    ensures PopAll(table, keys) == [table[0]] + PopAll(table[1..], keys)
    decreases |keys|
  {
    if keys != [] {
      var t := Pop(table, keys[0]);
      assert keys[0] in keys;
      assert t == [table[0]] + Pop(table[1..], keys[0]);
      PopAllKeepsHead(t, keys[1..]);
      assert t[1..] == Pop(table[1..], keys[0]);
    } else {
      assert table == [table[0]] + table[1..];
    }
  }
}
