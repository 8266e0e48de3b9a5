/**
 The discount_policies table: Create closes the open intervals that began earlier and inserts
 an open one; GetActiveMax asks which interval covers the present moment. The module proves
 that the intervals answer exactly what the plain history of Create calls would.
 */
module DiscountTimeline {
  import opened Wrappers
  import opened Domain

  /** One call of Create; percent is in basis points and times are ticks of the database clock. */
  datatype Input = Input(buildingId: int, role: Role, percent: nat, validFrom: int)

  datatype Policy = Policy(buildingId: int, role: Role, percent: nat, version: nat, validFrom: int, validTo: Option<int>)

  predicate HasKey(p: Policy, buildingId: int, role: Role) {
    p.buildingId == buildingId && p.role == role
  }

  // ---------- the two statements of Create ----------

  function Closed(p: Policy, input: Input): Policy {
    if HasKey(p, input.buildingId, input.role) && p.validTo.None? && p.validFrom < input.validFrom
    then p.(validTo := Some(input.validFrom)) else p
  }

  function CloseOpen(rows: seq<Policy>, input: Input): seq<Policy> {
    seq(|rows|, i requires 0 <= i < |rows| => Closed(rows[i], input))
  }

  function MaxVersion(rows: seq<Policy>, buildingId: int, role: Role): nat {
    if rows == [] then 0
    else
      var rest, p := MaxVersion(rows[..|rows| - 1], buildingId, role), rows[|rows| - 1];
      if HasKey(p, buildingId, role) && p.version > rest then p.version else rest
  }

  function Inserted(rows: seq<Policy>, input: Input): Policy {
    Policy(input.buildingId, input.role, input.percent,
           MaxVersion(rows, input.buildingId, input.role) + 1, input.validFrom, None)
  }

  function Created(rows: seq<Policy>, input: Input): seq<Policy> {
    CloseOpen(rows, input) + [Inserted(CloseOpen(rows, input), input)]
  }

  function TableOf(history: seq<Input>): seq<Policy> {
    if history == [] then [] else Created(TableOf(history[..|history| - 1]), history[|history| - 1])
  }

  // ---------- GetActiveMax ----------

  predicate Started(p: Policy, buildingId: int, role: Role, now: int) {
    HasKey(p, buildingId, role) && p.validFrom <= now
  }

  predicate Active(p: Policy, buildingId: int, role: Role, now: int) {
    Started(p, buildingId, role, now) && (p.validTo.None? || p.validTo.value > now)
  }

  /** ORDER BY valid_from DESC, version DESC puts p before q. */
  predicate Outranks(p: Policy, q: Policy) {
    p.validFrom > q.validFrom || (p.validFrom == q.validFrom && p.version > q.version)
  }

  function ActiveRow(rows: seq<Policy>, buildingId: int, role: Role, now: int): (r: Option<Policy>)
    ensures r.Some? ==> Active(r.value, buildingId, role, now)
  {
    if rows == [] then None
    else
      var rest, p := ActiveRow(rows[..|rows| - 1], buildingId, role, now), rows[|rows| - 1];
      if Active(p, buildingId, role, now) && (rest.None? || Outranks(p, rest.value)) then Some(p) else rest
  }

  // ---------- the plain history ----------

  predicate Applies(e: Input, buildingId: int, role: Role, now: int) {
    e.buildingId == buildingId && e.role == role && e.validFrom <= now
  }

  /** The position of the entry in force: greatest validFrom, the later call on a tie. */
  function InForce(history: seq<Input>, buildingId: int, role: Role, now: int): (r: Option<nat>)
    ensures r.Some? ==> r.value < |history| && Applies(history[r.value], buildingId, role, now)
  {
    if history == [] then None
    else
      var n := |history| - 1;
      var rest, e := InForce(history[..n], buildingId, role, now), history[n];
      if Applies(e, buildingId, role, now) && (rest.None? || e.validFrom >= history[rest.value].validFrom)
      then Some(n) else rest
  }

  /** InForce has its meaning: it outranks every other applicable entry, and is missing only if none applies. */
  lemma {:induction false} InForceIsGreatest(history: seq<Input>, buildingId: int, role: Role, now: int)
    ensures var r := InForce(history, buildingId, role, now);
            forall i :: 0 <= i < |history| && Applies(history[i], buildingId, role, now) ==>
              && r.Some?
              && (history[i].validFrom < history[r.value].validFrom
                  || (history[i].validFrom == history[r.value].validFrom && i <= r.value))
  {
    if history != [] {
      var n := |history| - 1;
      InForceIsGreatest(history[..n], buildingId, role, now);
      var r := InForce(history, buildingId, role, now);
      forall i | 0 <= i < |history| && Applies(history[i], buildingId, role, now)
        ensures r.Some?
        ensures history[i].validFrom < history[r.value].validFrom
                || (history[i].validFrom == history[r.value].validFrom && i <= r.value)
      {
        if i < n {
          assert history[..n][i] == history[i];
        }
      }
    }
  }

  // ---------- what every sequence of Create calls keeps ----------

  /** Row i still says what call i said. */
  predicate Records(p: Policy, e: Input) {
    p.buildingId == e.buildingId && p.role == e.role && p.percent == e.percent && p.validFrom == e.validFrom
  }

  /** A closed interval is not empty and ends where a later call of the same key begins. */
  ghost predicate ClosedByLater(rows: seq<Policy>, i: nat)
    requires i < |rows|
  {
    rows[i].validTo.Some? ==>
      && rows[i].validTo.value > rows[i].validFrom
      && exists j :: i < j < |rows| && HasKey(rows[j], rows[i].buildingId, rows[i].role)
                     && rows[j].validFrom == rows[i].validTo.value
  }

  ghost predicate Mirrors(rows: seq<Policy>, history: seq<Input>) {
    && |rows| == |history|
    && (forall i :: 0 <= i < |rows| ==> Records(rows[i], history[i]))
    && (forall i, j :: 0 <= i < j < |rows| && HasKey(rows[j], rows[i].buildingId, rows[i].role) ==>
          rows[i].version < rows[j].version)
    && (forall i :: 0 <= i < |rows| ==> ClosedByLater(rows, i))
  }

  lemma {:induction false} MaxVersionBounds(rows: seq<Policy>, buildingId: int, role: Role)
    ensures forall i :: 0 <= i < |rows| && HasKey(rows[i], buildingId, role) ==>
              rows[i].version <= MaxVersion(rows, buildingId, role)
  {
    if rows != [] {
      MaxVersionBounds(rows[..|rows| - 1], buildingId, role);
      forall i | 0 <= i < |rows| - 1 && HasKey(rows[i], buildingId, role)
        ensures rows[i].version <= MaxVersion(rows, buildingId, role)
      {
        assert rows[..|rows| - 1][i] == rows[i];
      }
    }
  }

  lemma CreateMirrors(rows: seq<Policy>, history: seq<Input>, input: Input)
    requires Mirrors(rows, history)
    ensures Mirrors(Created(rows, input), history + [input])
  {
    var rows' := Created(rows, input);
    MaxVersionBounds(CloseOpen(rows, input), input.buildingId, input.role);
    forall i, j | 0 <= i < j < |rows'| && HasKey(rows'[j], rows'[i].buildingId, rows'[i].role)
      ensures rows'[i].version < rows'[j].version
    {
      assert rows'[i] == Closed(rows[i], input) == CloseOpen(rows, input)[i];
      if j < |rows| {
        assert rows'[j] == Closed(rows[j], input);
      }
    }
    forall i | 0 <= i < |rows'|
      ensures ClosedByLater(rows', i)
    {
      if i < |rows| {
        assert rows'[i] == Closed(rows[i], input);
        if rows[i].validTo.Some? {
          assert ClosedByLater(rows, i);
          var j :| i < j < |rows| && HasKey(rows[j], rows[i].buildingId, rows[i].role)
                   && rows[j].validFrom == rows[i].validTo.value;
          assert rows'[j] == Closed(rows[j], input);
        } else {
          assert rows'[|rows|].validFrom == input.validFrom;
        }
      }
    }
  }

  lemma {:induction false} TableMirrors(history: seq<Input>)
    ensures Mirrors(TableOf(history), history)
  {
    if history != [] {
      var n := |history| - 1;
      TableMirrors(history[..n]);
      CreateMirrors(TableOf(history[..n]), history[..n], history[n]);
      assert history[..n] + [history[n]] == history;
    }
  }

  // ---------- the main result ----------

  lemma {:induction false} ActiveRowIsFirst(rows: seq<Policy>, buildingId: int, role: Role, now: int)
    ensures var r := ActiveRow(rows, buildingId, role, now);
            && (r.Some? ==> r.value in rows)
            && forall i :: 0 <= i < |rows| && Active(rows[i], buildingId, role, now) ==>
                 r.Some? && !Outranks(rows[i], r.value)
  {
    if rows != [] {
      var n := |rows| - 1;
      ActiveRowIsFirst(rows[..n], buildingId, role, now);
      var r := ActiveRow(rows, buildingId, role, now);
      forall i | 0 <= i < |rows| && Active(rows[i], buildingId, role, now)
        ensures r.Some? && !Outranks(rows[i], r.value)
      {
        if i < n {
          assert rows[..n][i] == rows[i];
        }
      }
    }
  }

  /** The entry in force is never closed by now: whoever closed it would be in force instead. */
  lemma InForceIsActive(rows: seq<Policy>, history: seq<Input>, buildingId: int, role: Role, now: int)
    requires Mirrors(rows, history)
    ensures var k := InForce(history, buildingId, role, now);
            k.Some? ==> Active(rows[k.value], buildingId, role, now)
  {
    var k := InForce(history, buildingId, role, now);
    if k.Some? {
      InForceIsGreatest(history, buildingId, role, now);
      assert Records(rows[k.value], history[k.value]);
      assert ClosedByLater(rows, k.value);
      var p := rows[k.value];
      if p.validTo.Some? && p.validTo.value <= now {
        assert false;
      }
    }
  }

  /** In every reachable table and at every moment the interval query answers the plain history. */
  lemma QueryAnswersHistory(history: seq<Input>, buildingId: int, role: Role, now: int)
    ensures var k, r := InForce(history, buildingId, role, now), ActiveRow(TableOf(history), buildingId, role, now);
            && (r.Some? <==> k.Some?)
            && (k.Some? ==> |TableOf(history)| == |history| && r.value == TableOf(history)[k.value]
                            && r.value.percent == history[k.value].percent)
  {
    var rows := TableOf(history);
    TableMirrors(history);
    InForceIsActive(rows, history, buildingId, role, now);
    InForceIsGreatest(history, buildingId, role, now);
    ActiveRowIsFirst(rows, buildingId, role, now);
    var k, r := InForce(history, buildingId, role, now), ActiveRow(rows, buildingId, role, now);
    if r.Some? {
      var i :| 0 <= i < |rows| && rows[i] == r.value;
      assert Records(rows[i], history[i]);
      assert Applies(history[i], buildingId, role, now);
      assert Records(rows[k.value], history[k.value]);
    }
  }

  /** Once a policy of a key has begun there is an answer at every later moment. */
  lemma NoGap(history: seq<Input>, i: nat, now: int)
    requires i < |history| && history[i].validFrom <= now
    ensures ActiveRow(TableOf(history), history[i].buildingId, history[i].role, now).Some?
  {
    var e := history[i];
    InForceIsGreatest(history, e.buildingId, e.role, now);
    QueryAnswersHistory(history, e.buildingId, e.role, now);
  }

  /** A call of Create, backdated or not, changes only the answers of its own key, only from its own
      validFrom on, and only where no entry that begins later has taken over. */
  lemma CreateIsLocal(history: seq<Input>, input: Input, buildingId: int, role: Role, now: int)
    ensures var before, after := ActiveRow(TableOf(history), buildingId, role, now),
                                 ActiveRow(TableOf(history + [input]), buildingId, role, now);
            if Applies(input, buildingId, role, now) && (before.None? || before.value.validFrom <= input.validFrom)
            then after.Some? && after.value.percent == input.percent && after.value.validFrom == input.validFrom
            else before.Some? == after.Some?
                 && (before.Some? ==> after.value.percent == before.value.percent
                                      && after.value.validFrom == before.value.validFrom)
  {
    var history' := history + [input];
    assert history'[..|history|] == history;
    QueryAnswersHistory(history, buildingId, role, now);
    QueryAnswersHistory(history', buildingId, role, now);
    TableMirrors(history);
    TableMirrors(history');
    var k, k' := InForce(history, buildingId, role, now), InForce(history', buildingId, role, now);
    if k.Some? {
      assert Records(TableOf(history)[k.value], history[k.value]);
    }
    if k'.Some? {
      assert Records(TableOf(history')[k'.value], history'[k'.value]);
    }
  }

  // ---------- closing times and versions ----------

  /** The later call of the same key begins later too. */
  predicate Supersedes(e: Input, later: Input) {
    later.buildingId == e.buildingId && later.role == e.role && later.validFrom > e.validFrom
  }

  /** j is the first call after i that supersedes it. */
  predicate FirstAfter(history: seq<Input>, i: nat, j: nat) {
    i < j < |history| && Supersedes(history[i], history[j]) && forall k :: i < k < j ==> !Supersedes(history[i], history[k])
  }

  ghost predicate ClosedByFirst(p: Policy, history: seq<Input>, i: nat)
    requires i < |history|
  {
    match p.validTo
    case None => forall j :: i < j < |history| ==> !Supersedes(history[i], history[j])
    case Some(end) => exists j: nat :: FirstAfter(history, i, j) && end == history[j].validFrom
  }

  lemma ClosingStep(p: Policy, front: seq<Input>, e: Input, i: nat)
    requires i < |front| && Records(p, front[i]) && ClosedByFirst(p, front, i)
    ensures ClosedByFirst(Closed(p, e), front + [e], i)
  {
    var history := front + [e];
    assert forall k :: 0 <= k < |front| ==> history[k] == front[k];
    if p.validTo.Some? {
      var j: nat :| FirstAfter(front, i, j) && p.validTo.value == front[j].validFrom;
      assert FirstAfter(history, i, j);
    } else if Supersedes(front[i], e) {
      assert FirstAfter(history, i, |front|);
    }
  }

  /** A row is closed by the first later call that supersedes it, at the moment when that one begins, and by no other. */
  lemma {:induction false} ClosedExactly(history: seq<Input>, i: nat)
    requires i < |history|
    ensures i < |TableOf(history)| && ClosedByFirst(TableOf(history)[i], history, i)
  {
    var n := |history| - 1;
    var front, e := history[..n], history[n];
    assert history == front + [e];
    TableMirrors(history);
    TableMirrors(front);
    if i < n {
      ClosedExactly(front, i);
      assert Records(TableOf(front)[i], front[i]);
      ClosingStep(TableOf(front)[i], front, e, i);
    }
  }

  function CallsOf(history: seq<Input>, buildingId: int, role: Role): nat {
    if history == [] then 0
    else
      var e := history[|history| - 1];
      CallsOf(history[..|history| - 1], buildingId, role) + (if e.buildingId == buildingId && e.role == role then 1 else 0)
  }

  lemma {:induction false} ClosingKeepsMax(rows: seq<Policy>, input: Input, buildingId: int, role: Role)
    ensures MaxVersion(CloseOpen(rows, input), buildingId, role) == MaxVersion(rows, buildingId, role)
  {
    if rows != [] {
      var n := |rows| - 1;
      ClosingKeepsMax(rows[..n], input, buildingId, role);
      assert CloseOpen(rows, input)[..n] == CloseOpen(rows[..n], input);
    }
  }

  lemma {:induction false} MaxIsCount(history: seq<Input>, buildingId: int, role: Role)
    ensures MaxVersion(TableOf(history), buildingId, role) == CallsOf(history, buildingId, role)
  {
    if history != [] {
      var n := |history| - 1;
      var rows, e := TableOf(history[..n]), history[n];
      MaxIsCount(history[..n], buildingId, role);
      MaxIsCount(history[..n], e.buildingId, e.role);
      ClosingKeepsMax(rows, e, buildingId, role);
      ClosingKeepsMax(rows, e, e.buildingId, e.role);
      assert TableOf(history)[..|rows|] == CloseOpen(rows, e);
    }
  }

  lemma TableSnoc(front: seq<Input>, e: Input)
    ensures TableOf(front + [e]) == Created(TableOf(front), e)
  {
    assert (front + [e])[..|front|] == front;
  }

  lemma VersionStays(front: seq<Input>, e: Input, i: nat)
    requires i < |front| == |TableOf(front)|
    ensures i < |TableOf(front + [e])| && TableOf(front + [e])[i].version == TableOf(front)[i].version
  {
    TableSnoc(front, e);
  }

  lemma NewVersion(front: seq<Input>, e: Input)
    requires |front| == |TableOf(front)|
    ensures |TableOf(front + [e])| == |front| + 1
    ensures TableOf(front + [e])[|front|].version == CallsOf(front + [e], e.buildingId, e.role)
  {
    TableSnoc(front, e);
    MaxIsCount(front, e.buildingId, e.role);
    ClosingKeepsMax(TableOf(front), e, e.buildingId, e.role);
    assert (front + [e])[..|front|] == front;
  }

  /** The n-th call for a building and role has version n. */
  lemma {:induction false} VersionsCount(history: seq<Input>, i: nat)
    requires i < |history|
    ensures i < |TableOf(history)|
    ensures TableOf(history)[i].version == CallsOf(history[..i + 1], history[i].buildingId, history[i].role)
  {
    var n := |history| - 1;
    var front, e := history[..n], history[n];
    assert history == front + [e];
    TableMirrors(front);
    if i < n {
      VersionsCount(front, i);
      VersionStays(front, e, i);
      assert front[..i + 1] == history[..i + 1];
    } else {
      NewVersion(front, e);
      assert history[..i + 1] == history;
    }
  }

  // ---------- the repository ----------

  class DiscountPolicyRepository {
    var rows: seq<Policy>
    ghost var history: seq<Input>

    ghost predicate Valid()
      reads this
    {
      rows == TableOf(history)
    }

    constructor ()
      ensures Valid() && history == []
    {
      rows, history := [], [];
    }

    /** Both statements run in one transaction. */
    method Create(input: Input) returns (item: Policy)
      requires Valid()
      modifies this
      ensures Valid() && history == old(history) + [input]
      ensures |rows| == |old(rows)| + 1 && item == rows[|old(rows)|] && Records(item, input) && item.validTo.None?
    {
      rows := CloseOpen(rows, input);
      item := Inserted(rows, input);
      rows := rows + [item];
      history := history + [input];
      assert history[..|history| - 1] == old(history);
    }

    /** The maximum discount of an apartment's building for a role, at the database's present moment. */
    method GetActiveMax(apartments: map<int, int>, apartmentId: int, role: Role, now: int) returns (r: Option<nat>)
      requires Valid()
      ensures r == if apartmentId !in apartments then None
                   else match InForce(history, apartments[apartmentId], role, now)
                        case None => None
                        case Some(k) => Some(history[k].percent)
    {
      if apartmentId !in apartments {
        return None;
      }
      QueryAnswersHistory(history, apartments[apartmentId], role, now);
      var row := ActiveRow(rows, apartments[apartmentId], role, now);
      return if row.Some? then Some(row.value.percent) else None;
    }
  }
}
