/** The recommendations table: INSERT ... ON CONFLICT (request_id) DO NOTHING, then a SELECT of the row that was there. */
module Recommendations {
  import opened Wrappers

  datatype Draft = Draft(requestId: string, dealId: int, kind: string, text: string)

  datatype Recommendation = Recommendation(id: nat, draft: Draft)

  /** nextId is the sequence behind the id column; a conflicting INSERT uses up a value too. */
  datatype Table = Table(rows: seq<Recommendation>, nextId: nat)

  const EmptyTable := Table([], 1)

  function IndexOf(rows: seq<Recommendation>, requestId: string): (r: Option<nat>)
    ensures r.Some? ==> r.value < |rows| && rows[r.value].draft.requestId == requestId
  {
    if rows == [] then None
    else
      var r := IndexOf(rows[..|rows| - 1], requestId);
      if r.None? && rows[|rows| - 1].draft.requestId == requestId then Some(|rows| - 1) else r
  }

  function Insert(t: Table, draft: Draft): Table {
    Table(if IndexOf(t.rows, draft.requestId).Some? then t.rows else t.rows + [Recommendation(t.nextId, draft)], t.nextId + 1)
  }

  function InsertAll(t: Table, drafts: seq<Draft>): Table
    decreases |drafts|
  {
    if drafts == [] then t else InsertAll(Insert(t, drafts[0]), drafts[1..])
  }

  /** Request ids and ids are unique. */
  ghost predicate Inv(t: Table) {
    && (forall i :: 0 <= i < |t.rows| ==> t.rows[i].id < t.nextId)
    && (forall i, j :: 0 <= i < j < |t.rows| ==> t.rows[i].id < t.rows[j].id)
    && (forall i, j :: 0 <= i < j < |t.rows| ==> t.rows[i].draft.requestId != t.rows[j].draft.requestId)
  }

  lemma {:induction false} IndexFinds(rows: seq<Recommendation>, i: nat)
    requires i < |rows|
    ensures IndexOf(rows, rows[i].draft.requestId).Some?
  {
    if i < |rows| - 1 {
      IndexFinds(rows[..|rows| - 1], i);
    }
  }

  lemma AppendKeeps(t: Table, row: Recommendation)
    requires Inv(t) && row.id == t.nextId
    requires forall i :: 0 <= i < |t.rows| ==> t.rows[i].draft.requestId != row.draft.requestId
    ensures Inv(Table(t.rows + [row], t.nextId + 1))
  {
  }

  lemma InsertKeeps(t: Table, draft: Draft)
    requires Inv(t)
    ensures Inv(Insert(t, draft)) && t.rows <= Insert(t, draft).rows
    ensures IndexOf(Insert(t, draft).rows, draft.requestId).Some?
  {
    if IndexOf(t.rows, draft.requestId).None? {
      var row := Recommendation(t.nextId, draft);
      forall i | 0 <= i < |t.rows|
        ensures t.rows[i].draft.requestId != draft.requestId
      {
        IndexFinds(t.rows, i);
      }
      AppendKeeps(t, row);
      IndexFinds(t.rows + [row], |t.rows|);
    }
  }

  /** Rows are only appended, whoever inserts. */
  lemma {:induction false} InsertAllKeeps(t: Table, drafts: seq<Draft>)
    requires Inv(t)
    ensures Inv(InsertAll(t, drafts)) && t.rows <= InsertAll(t, drafts).rows
    decreases |drafts|
  {
    if drafts != [] {
      InsertKeeps(t, drafts[0]);
      InsertAllKeeps(Insert(t, drafts[0]), drafts[1..]);
    }
  }

  /** The row a request id names. */
  predicate Names(t: Table, requestId: string, row: Recommendation) {
    var i := IndexOf(t.rows, requestId);
    i.Some? && t.rows[i.value] == row
  }

  /** The row that a request id names is the same for ever, whatever is inserted, under that id too. */
  lemma NameIsForEver(t: Table, drafts: seq<Draft>, requestId: string, row: Recommendation)
    requires Inv(t) && Names(t, requestId, row)
    ensures Names(InsertAll(t, drafts), requestId, row)
  {
    InsertAllKeeps(t, drafts);
    var t' := InsertAll(t, drafts);
    var i := IndexOf(t.rows, requestId).value;
    assert t'.rows[i] == row;
    IndexFinds(t'.rows, i);
    var k := IndexOf(t'.rows, requestId).value;
    assert k < i || i < k || k == i;
  }

  function FirstWith(drafts: seq<Draft>, requestId: string): Option<Draft> {
    if drafts == [] then None
    else if drafts[0].requestId == requestId then Some(drafts[0]) else FirstWith(drafts[1..], requestId)
  }

  function StoredDraft(t: Table, requestId: string): Option<Draft> {
    match IndexOf(t.rows, requestId) case None => None case Some(i) => Some(t.rows[i].draft)
  }

  lemma InsertStores(t: Table, draft: Draft, requestId: string)
    ensures StoredDraft(Insert(t, draft), requestId) ==
            if StoredDraft(t, requestId).Some? then StoredDraft(t, requestId) else FirstWith([draft], requestId)
  {
    var rows := Insert(t, draft).rows;
    if rows != t.rows {
      assert rows[..|rows| - 1] == t.rows;
    }
    assert [draft][1..] == [];
  }

  /** After any run of inserts a request id holds what its first insert said, and nothing if there was none. */
  lemma {:induction false} FirstWins(t: Table, drafts: seq<Draft>, requestId: string)
    ensures StoredDraft(InsertAll(t, drafts), requestId) ==
            if StoredDraft(t, requestId).Some? then StoredDraft(t, requestId) else FirstWith(drafts, requestId)
    decreases |drafts|
  {
    if drafts != [] {
      InsertStores(t, drafts[0], requestId);
      FirstWins(Insert(t, drafts[0]), drafts[1..], requestId);
      assert [drafts[0]][1..] == [];
    }
  }

  class RecommendationRepository {
    var rows: seq<Recommendation>
    var nextId: nat

    function View(): Table
      reads this
    {
      Table(rows, nextId)
    }

    constructor ()
      ensures View() == EmptyTable && Inv(View())
    {
      rows, nextId := [], 1;
    }

    /** The INSERT; the row is returned unless the request id conflicts. */
    method InsertRow(draft: Draft) returns (inserted: Option<Recommendation>)
      modifies this
      ensures View() == Insert(old(View()), draft)
      ensures inserted == if IndexOf(old(rows), draft.requestId).Some? then None
                          else Some(Recommendation(old(nextId), draft))
    {
      var id := nextId;
      nextId := nextId + 1;
      if IndexOf(rows, draft.requestId).Some? {
        return None;
      }
      rows := rows + [Recommendation(id, draft)];
      return Some(Recommendation(id, draft));
    }

    method RunOthers(others: seq<Draft>)
      modifies this
      ensures View() == InsertAll(old(View()), others)
    {
      var n := 0;
      while n < |others|
        invariant n <= |others| && InsertAll(View(), others[n..]) == InsertAll(old(View()), others)
      {
        var _ := InsertRow(others[n]);
        n := n + 1;
      }
    }

    /** others are inserts of other actors between the two statements. */
    method Create(draft: Draft, others: seq<Draft>) returns (r: Option<Recommendation>)
      requires Inv(View())
      modifies this
      ensures Inv(View()) && View() == InsertAll(old(View()), [draft] + others)
      ensures r.Some? && Names(View(), draft.requestId, r.value)
      ensures IndexOf(old(rows), draft.requestId).None? ==> r == Some(Recommendation(old(nextId), draft))
      ensures forall row :: Names(old(View()), draft.requestId, row) ==> r == Some(row)
    {
      ghost var before := View();
      InsertKeeps(before, draft);
      assert ([draft] + others)[1..] == others;
      var inserted := InsertRow(draft);
      ghost var t := View();
      InsertAllKeeps(t, others);
      ghost var named := t.rows[IndexOf(t.rows, draft.requestId).value];
      if IndexOf(before.rows, draft.requestId).Some? {
        ghost var was := before.rows[IndexOf(before.rows, draft.requestId).value];
        NameIsForEver(before, [draft], draft.requestId, was);
      }
      if inserted.Some? {
        NewRowIsNamed(before, draft);
      }
      NameIsForEver(t, others, draft.requestId, named);
      RunOthers(others);
      if inserted.Some? {
        return inserted;
      }
      var i := IndexOf(rows, draft.requestId);
      return if i.Some? then Some(rows[i.value]) else None;
    }
  }

  lemma NewRowIsNamed(t: Table, draft: Draft)
    requires Inv(t) && IndexOf(t.rows, draft.requestId).None?
    ensures Names(Insert(t, draft), draft.requestId, Recommendation(t.nextId, draft))
  {
    var t' := Insert(t, draft);
    assert t'.rows[..|t'.rows| - 1] == t.rows;
  }
}
