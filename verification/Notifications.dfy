/**
 Construction alerts. Each progress update is reduced to a state, the state to a fingerprint, and one
 atomic statement claims the fingerprint for the progress id; only a new claim of an alarming state
 is fanned out to the building's deals.
 */
module Notifications {
  import opened Wrappers
  import opened Text

  /** The values that the column types of construction_progress admit; the row is written before its alert. */
  datatype Status = NotStarted | InProgress | Completed | Delayed

  datatype Risk = Low | Medium | High

  datatype Progress = Progress(
    id: int,
    buildingId: int,
    stageName: string,
    status: Status,
    delayReason: string,
    riskLevel: Option<Risk>,
    delayDays: Option<nat>
  )

  /** The part of an update that matters: a missing delay is none. */
  datatype State = State(status: Status, risk: Option<Risk>, days: nat, reason: string)

  function StateOf(p: Progress): State {
    State(p.status, p.riskLevel, if p.delayDays.Some? then p.delayDays.value else 0, TrimSpace(p.delayReason))
  }

  predicate IsDelay(p: Progress) {
    p.status == Delayed || (p.delayDays.Some? && p.delayDays.value > 0)
  }

  predicate HasRisk(p: Progress) {
    p.riskLevel == Some(Medium) || p.riskLevel == Some(High)
  }

  predicate Alarming(s: State) {
    s.status == Delayed || s.days > 0 || s.risk == Some(Medium) || s.risk == Some(High)
  }

  /** The alarm test looks at nothing but the state. */
  lemma AlarmIsOfState(p: Progress)
    ensures Alarming(StateOf(p)) <==> IsDelay(p) || HasRisk(p)
  {
  }

  // ---------- fingerprints ----------

  function StatusText(s: Status): string {
    match s
    case NotStarted => "not_started"
    case InProgress => "in_progress"
    case Completed => "completed"
    case Delayed => "delayed"
  }

  function RiskText(r: Option<Risk>): string {
    match r
    case None => ""
    case Some(Low) => "low"
    case Some(Medium) => "medium"
    case Some(High) => "high"
  }

  function Fingerprint(s: State): string {
    StatusText(s.status) + "|" + (RiskText(s.risk) + "|" + (FormatInt(s.days) + "|" + s.reason))
  }

  lemma TextsArePlain(s: Status, r: Option<Risk>)
    ensures '|' !in StatusText(s) && '|' !in RiskText(r)
  {
  }

  lemma TextsTell(s: Status, s': Status, r: Option<Risk>, r': Option<Risk>)
    ensures StatusText(s) == StatusText(s') <==> s == s'
    ensures RiskText(r) == RiskText(r') <==> r == r'
  {
    assert StatusText(s)[0] == StatusText(s')[0] ==> s == s';
    assert RiskText(r) != "" && RiskText(r') != "" && RiskText(r)[0] == RiskText(r')[0] ==> r == r';
  }

  lemma FirstBar(a: string, x: string)
    requires '|' !in a
    ensures (a + "|" + x)[|a|] == '|' && forall k :: 0 <= k < |a| ==> (a + "|" + x)[k] != '|'
    ensures (a + "|" + x)[..|a|] == a && (a + "|" + x)[|a| + 1..] == x
  {
  }

  lemma FirstField(a: string, x: string, b: string, y: string)
    requires '|' !in a && '|' !in b && a + "|" + x == b + "|" + y
    ensures a == b && x == y
  {
    FirstBar(a, x);
    FirstBar(b, y);
    assert |a| == |b|;
  }

  lemma NumberHasNoBar(n: int)
    ensures '|' !in FormatInt(n)
  {
    NatValueOfFormat(if n < 0 then -n else n);
  }

  /** The fingerprint identifies the state, whatever the reason. */
  lemma FingerprintIsInjective(a: State, b: State)
    ensures Fingerprint(a) == Fingerprint(b) <==> a == b
  {
    if Fingerprint(a) == Fingerprint(b) {
      TextsArePlain(a.status, a.risk);
      TextsArePlain(b.status, b.risk);
      NumberHasNoBar(a.days);
      NumberHasNoBar(b.days);
      FieldsTell(StatusText(a.status), RiskText(a.risk), FormatInt(a.days), a.reason,
                 StatusText(b.status), RiskText(b.risk), FormatInt(b.days), b.reason);
      TextsTell(a.status, b.status, a.risk, b.risk);
      FormatIntInjective(a.days, b.days);
    }
  }

  lemma FieldsTell(a: string, b: string, c: string, d: string, a': string, b': string, c': string, d': string)
    requires '|' !in a && '|' !in b && '|' !in c && '|' !in a' && '|' !in b' && '|' !in c'
    requires a + "|" + (b + "|" + (c + "|" + d)) == a' + "|" + (b' + "|" + (c' + "|" + d'))
    ensures a == a' && b == b' && c == c' && d == d'
  {
    FirstField(a, b + "|" + (c + "|" + d), a', b' + "|" + (c' + "|" + d'));
    FirstField(b, c + "|" + d, b', c' + "|" + d');
    FirstField(c, d, c', d');
  }

  // ---------- claiming ----------

  /** One update as the claiming statement sees it: the key that it compares, and what the key stands for. */
  datatype Entry<K, S> = Entry(id: int, key: K, state: S, alarming: bool)

  predicate Changes<K(==), S>(claims: map<int, K>, e: Entry<K, S>) {
    e.id !in claims || claims[e.id] != e.key
  }

  /** The key last claimed for each progress id. */
  function ClaimsAfter<K, S>(log: seq<Entry<K, S>>): map<int, K> {
    if log == [] then map[] else ClaimsAfter(log[..|log| - 1])[log[|log| - 1].id := log[|log| - 1].key]
  }

  /** After these claims, a claim of e would succeed and has to be fanned out. */
  predicate IsDue<K(==), S>(log: seq<Entry<K, S>>, e: Entry<K, S>) {
    Changes(ClaimsAfter(log), e) && e.alarming
  }

  /** The entries that were due when they were claimed, in order. */
  function Batches<K(==), S>(log: seq<Entry<K, S>>): seq<Entry<K, S>> {
    if log == [] then []
    else
      var front, e := log[..|log| - 1], log[|log| - 1];
      if IsDue(front, e) then Batches(front) + [e] else Batches(front)
  }

  // ---------- what the batches should be ----------

  function HistoryOf<K, S>(log: seq<Entry<K, S>>, id: int): seq<Entry<K, S>> {
    if log == [] then []
    else if log[|log| - 1].id == id then HistoryOf(log[..|log| - 1], id) + [log[|log| - 1]]
    else HistoryOf(log[..|log| - 1], id)
  }

  /** The sequence without consecutive repetitions of a state. */
  function Destutter<K, S(==)>(s: seq<Entry<K, S>>): seq<Entry<K, S>> {
    if |s| <= 1 then s
    else if s[|s| - 1].state == s[|s| - 2].state then Destutter(s[..|s| - 1])
    else Destutter(s[..|s| - 1]) + [s[|s| - 1]]
  }

  function AlarmingOf<K, S>(s: seq<Entry<K, S>>): seq<Entry<K, S>> {
    if s == [] then []
    else if s[|s| - 1].alarming then AlarmingOf(s[..|s| - 1]) + [s[|s| - 1]]
    else AlarmingOf(s[..|s| - 1])
  }

  /** Keys are equal exactly when the states are. */
  ghost predicate Faithful<K, S>(log: seq<Entry<K, S>>) {
    forall i, j :: 0 <= i < j < |log| ==> (log[i].key == log[j].key <==> log[i].state == log[j].state)
  }

  /** The last entry of an id, and where it stands in the log. */
  lemma {:induction false} LastClaim<K, S>(log: seq<Entry<K, S>>, id: int) returns (k: nat)
    ensures HistoryOf(log, id) == [] <==> id !in ClaimsAfter(log)
    ensures var h := HistoryOf(log, id);
            h != [] ==> k < |log| && h[|h| - 1] == log[k] && ClaimsAfter(log)[id] == log[k].key
  {
    k := 0;
    if log != [] {
      if log[|log| - 1].id == id {
        k := |log| - 1;
      } else {
        k := LastClaim(log[..|log| - 1], id);
      }
    }
  }

  /** The last entry, if there is one, is of another state. */
  predicate Differs<K, S(==)>(h: seq<Entry<K, S>>, e: Entry<K, S>) {
    h == [] || h[|h| - 1].state != e.state
  }

  /** The entry's state differs from the previous one of its progress id. */
  predicate IsNews<K, S(==)>(log: seq<Entry<K, S>>, e: Entry<K, S>) {
    Differs(HistoryOf(log, e.id), e)
  }

  /** A claim succeeds exactly for news. */
  lemma ClaimIsNews<K, S>(log: seq<Entry<K, S>>, e: Entry<K, S>)
    requires Faithful(log + [e])
    ensures Changes(ClaimsAfter(log), e) <==> IsNews(log, e)
  {
    var k := LastClaim(log, e.id);
    if HistoryOf(log, e.id) != [] {
      assert (log + [e])[k] == log[k] && (log + [e])[|log|] == e;
    }
  }

  lemma BatchesSnoc<K, S>(log: seq<Entry<K, S>>, e: Entry<K, S>, id: int)
    ensures HistoryOf(Batches(log + [e]), id) ==
            if e.id == id && IsDue(log, e) then HistoryOf(Batches(log), id) + [e] else HistoryOf(Batches(log), id)
  {
    assert (log + [e])[..|log|] == log;
    HistorySnoc(Batches(log), e, id);
  }

  /** What the batches of an id should be. */
  function AlarmingChanges<K, S(==)>(log: seq<Entry<K, S>>, id: int): seq<Entry<K, S>> {
    AlarmingOf(Destutter(HistoryOf(log, id)))
  }

  lemma AlarmingStep<K, S>(d: seq<Entry<K, S>>, e: Entry<K, S>, differs: bool, d': seq<Entry<K, S>>)
    requires d' == if differs then d + [e] else d
    ensures AlarmingOf(d') == if differs && e.alarming then AlarmingOf(d) + [e] else AlarmingOf(d)
  {
    if differs {
      AlarmingSnoc(d, e);
    }
  }

  lemma AlarmingChangesSnoc<K, S>(log: seq<Entry<K, S>>, e: Entry<K, S>, id: int)
    ensures AlarmingChanges(log + [e], id) ==
            if e.id == id && IsNews(log, e) && e.alarming then AlarmingChanges(log, id) + [e]
            else AlarmingChanges(log, id)
  {
    var h, h' := HistoryOf(log, id), HistoryOf(log + [e], id);
    HistorySnoc(log, e, id);
    if e.id == id {
      DestutterSnoc(h, e);
      AlarmingStep(Destutter(h), e, Differs(h, e), Destutter(h'));
    }
  }

  lemma FaithfulPrefix<K, S>(log: seq<Entry<K, S>>, e: Entry<K, S>)
    requires Faithful(log + [e])
    ensures Faithful(log)
  {
    forall i, j | 0 <= i < j < |log|
      ensures log[i].key == log[j].key <==> log[i].state == log[j].state
    {
      assert (log + [e])[i] == log[i] && (log + [e])[j] == log[j];
    }
  }

  /** The batches of every progress id are the alarming entries of its history without stuttering, in order. */
  lemma {:induction false} BatchesAreAlarmingChanges<K, S>(log: seq<Entry<K, S>>, id: int)
    requires Faithful(log)
    ensures HistoryOf(Batches(log), id) == AlarmingChanges(log, id)
  {
    if log != [] {
      var front, e := log[..|log| - 1], log[|log| - 1];
      assert log == front + [e];
      FaithfulPrefix(front, e);
      BatchesAreAlarmingChanges(front, id);
      ClaimIsNews(front, e);
      BatchesSnoc(front, e, id);
      AlarmingChangesSnoc(front, e, id);
    }
  }

  lemma HistorySnoc<K, S>(log: seq<Entry<K, S>>, e: Entry<K, S>, id: int)
    ensures HistoryOf(log + [e], id) == if e.id == id then HistoryOf(log, id) + [e] else HistoryOf(log, id)
  {
    assert (log + [e])[..|log|] == log;
  }

  lemma AlarmingSnoc<K, S>(s: seq<Entry<K, S>>, e: Entry<K, S>)
    ensures AlarmingOf(s + [e]) == if e.alarming then AlarmingOf(s) + [e] else AlarmingOf(s)
  {
    assert (s + [e])[..|s|] == s;
  }

  lemma DestutterSnoc<K, S>(h: seq<Entry<K, S>>, e: Entry<K, S>)
    ensures Destutter(h + [e]) ==
            if Differs(h, e) then Destutter(h) + [e] else Destutter(h)
  {
    assert (h + [e])[..|h|] == h;
  }

  function EntryOf(p: Progress): Entry<string, State> {
    Entry(p.id, Fingerprint(StateOf(p)), StateOf(p), IsDelay(p) || HasRisk(p))
  }

  /** Two updates count as the same exactly when status, risk level, days of delay and trimmed reason agree, a missing
      delay being none; and an update is alarming for a delay, for days of delay, or for a medium or high risk. */
  lemma EntriesMean(p: Progress, q: Progress)
    ensures EntryOf(p).id == p.id
    ensures EntryOf(p).key == EntryOf(q).key <==>
            && p.status == q.status && p.riskLevel == q.riskLevel && TrimSpace(p.delayReason) == TrimSpace(q.delayReason)
            && (if p.delayDays.Some? then p.delayDays.value else 0) == (if q.delayDays.Some? then q.delayDays.value else 0)
    ensures EntryOf(p).alarming <==>
            || p.status == Delayed || (p.delayDays.Some? && p.delayDays.value > 0)
            || p.riskLevel == Some(Medium) || p.riskLevel == Some(High)
  {
    FingerprintIsInjective(StateOf(p), StateOf(q));
  }

  function LogOf(updates: seq<Progress>): seq<Entry<string, State>> {
    seq(|updates|, k requires 0 <= k < |updates| => EntryOf(updates[k]))
  }

  lemma EntriesFaithful(p: Progress, q: Progress)
    ensures EntryOf(p).key == EntryOf(q).key <==> EntryOf(p).state == EntryOf(q).state
    ensures EntryOf(p).state == EntryOf(q).state ==> EntryOf(p).alarming == EntryOf(q).alarming
  {
    FingerprintIsInjective(StateOf(p), StateOf(q));
    AlarmIsOfState(p);
    AlarmIsOfState(q);
  }

  /** So it is for fingerprints, over any updates of any progress ids. */
  lemma AlertsAreAlarmingChanges(updates: seq<Progress>, id: int)
    ensures HistoryOf(Batches(LogOf(updates)), id) == AlarmingChanges(LogOf(updates), id)
  {
    forall i, j | 0 <= i < j < |updates|
      ensures LogOf(updates)[i].key == LogOf(updates)[j].key <==> LogOf(updates)[i].state == LogOf(updates)[j].state
    {
      EntriesFaithful(updates[i], updates[j]);
    }
    BatchesAreAlarmingChanges(LogOf(updates), id);
  }

  /** As long as an id is claimed with one key, nothing more of it is due. */
  lemma {:induction false} SilentWhileUnchanged<K, S>(log: seq<Entry<K, S>>, later: seq<Entry<K, S>>, id: int, key: K)
    requires id in ClaimsAfter(log) && ClaimsAfter(log)[id] == key
    requires forall i :: 0 <= i < |later| && later[i].id == id ==> later[i].key == key
    ensures HistoryOf(Batches(log + later), id) == HistoryOf(Batches(log), id)
    ensures id in ClaimsAfter(log + later) && ClaimsAfter(log + later)[id] == key
  {
    if later == [] {
      assert log + later == log;
    } else {
      var front, e := later[..|later| - 1], later[|later| - 1];
      SilentWhileUnchanged(log, front, id, key);
      var run := log + front;
      assert log + later == run + [e];
      assert (run + [e])[..|run|] == run;
      BatchesSnoc(run, e, id);
    }
  }

  /** Once claimed, an update is not due again however often it is repeated, with any updates of other ids in between: a
      batch that was not fanned out then is lost for good. What is due next is the first alarming update that differs. */
  lemma RepetitionIsSilent<K, S>(log: seq<Entry<K, S>>, e: Entry<K, S>, later: seq<Entry<K, S>>, f: Entry<K, S>)
    requires forall i :: 0 <= i < |later| && later[i].id == e.id ==> later[i].key == e.key
    requires f.id == e.id
    ensures HistoryOf(Batches(log + [e] + later), e.id) == HistoryOf(Batches(log + [e]), e.id)
    ensures IsDue(log + [e] + later, f) <==> f.key != e.key && f.alarming
  {
    assert (log + [e])[..|log|] == log;
    SilentWhileUnchanged(log + [e], later, e.id, e.key);
  }

  // ---------- the service ----------

  datatype Deal = Deal(id: int, userId: int)

  datatype Kind = ConstructionRisk | ConstructionDelay

  datatype Notification = Notification(userId: int, dealId: int, kind: Kind, progressId: int, stageName: string)

  /** What becomes of a statement: it takes effect and is answered, it fails, or it takes effect and the service sees an
      error all the same. */
  datatype Effect = Answered | Failed | Unanswered

  /** What happens for one deal: its insert, and the address found for its client. */
  datatype Delivery = Delivery(insert: Effect, email: Option<string>)

  function KindOf(p: Progress): Kind {
    if IsDelay(p) then ConstructionDelay else ConstructionRisk
  }

  function NoteFor(p: Progress, d: Deal): Notification {
    Notification(d.userId, d.id, KindOf(p), p.id, p.stageName)
  }

  /** One note per deal, leaving out those whose insert failed. */
  function Notes(p: Progress, deals: seq<Deal>, deliveries: seq<Delivery>, n: nat): seq<Notification>
    requires n <= |deals| == |deliveries|
  {
    if n == 0 then []
    else if deliveries[n - 1].insert.Failed? then Notes(p, deals, deliveries, n - 1)
    else Notes(p, deals, deliveries, n - 1) + [NoteFor(p, deals[n - 1])]
  }

  /** A mail goes out only after an answered insert, to a client with an address. */
  predicate Mails(d: Delivery) {
    d.insert.Answered? && d.email.Some? && d.email.value != ""
  }

  function Addresses(deliveries: seq<Delivery>, n: nat): seq<string>
    requires n <= |deliveries|
  {
    if n == 0 then []
    else if Mails(deliveries[n - 1]) then Addresses(deliveries, n - 1) + [deliveries[n - 1].email.value]
    else Addresses(deliveries, n - 1)
  }

  /** The deals listed are different ones. */
  ghost predicate Distinct(deals: seq<Deal>) {
    forall i, j :: 0 <= i < j < |deals| ==> deals[i].id != deals[j].id
  }

  predicate Mentions(notes: seq<Notification>, d: Deal) {
    exists i :: 0 <= i < |notes| && notes[i].dealId == d.id
  }

  /** The note is for the deal's client, about this update, and a delay when the update reports one. */
  predicate Tells(note: Notification, p: Progress, d: Deal) {
    && note.userId == d.userId && note.dealId == d.id && note.progressId == p.id && note.stageName == p.stageName
    && note.kind == (if p.status == Delayed || (p.delayDays.Some? && p.delayDays.value > 0)
                     then ConstructionDelay else ConstructionRisk)
  }

  /** The note of a deal is there, addressed to its client, unless its insert failed; then the deal has none. */
  lemma {:induction false} NoteLostIff(p: Progress, deals: seq<Deal>, deliveries: seq<Delivery>, n: nat, k: nat)
    requires n <= |deals| == |deliveries| && k < |deals| && Distinct(deals)
    ensures (exists note :: note in Notes(p, deals, deliveries, n) && Tells(note, p, deals[k])) <==>
            k < n && !deliveries[k].insert.Failed?
    ensures Mentions(Notes(p, deals, deliveries, n), deals[k]) <==> k < n && !deliveries[k].insert.Failed?
  {
    if n > 0 {
      NoteLostIff(p, deals, deliveries, n - 1, k);
      MentionsSnoc(Notes(p, deals, deliveries, n - 1), NoteFor(p, deals[n - 1]), deals[k]);
      var rest, all := Notes(p, deals, deliveries, n - 1), Notes(p, deals, deliveries, n);
      if !deliveries[n - 1].insert.Failed? {
        assert all == rest + [NoteFor(p, deals[n - 1])];
        assert Tells(NoteFor(p, deals[n - 1]), p, deals[n - 1]) && NoteFor(p, deals[n - 1]) in all;
        assert forall note :: note in rest ==> note in all;
      }
    }
  }

  /** Nothing else is noted: there are as many notes as inserts that did not fail. */
  lemma {:induction false} NotesAreCounted(p: Progress, deals: seq<Deal>, deliveries: seq<Delivery>, n: nat)
    requires n <= |deals| == |deliveries|
    ensures |Notes(p, deals, deliveries, n)| == |set k | 0 <= k < n && !deliveries[k].insert.Failed?|
    ensures forall note :: note in Notes(p, deals, deliveries, n) ==>
              exists k :: 0 <= k < n && !deliveries[k].insert.Failed? && Tells(note, p, deals[k])
  {
    if n > 0 {
      NotesAreCounted(p, deals, deliveries, n - 1);
      StoredCount(deliveries, n);
      if !deliveries[n - 1].insert.Failed? {
        assert Tells(NoteFor(p, deals[n - 1]), p, deals[n - 1]);
      }
    }
  }

  /** One more delivery, one more stored note if its insert did not fail. */
  lemma StoredCount(deliveries: seq<Delivery>, n: nat)
    requires 0 < n <= |deliveries|
    ensures |set k | 0 <= k < n && !deliveries[k].insert.Failed?| ==
            |set k | 0 <= k < n - 1 && !deliveries[k].insert.Failed?| + (if deliveries[n - 1].insert.Failed? then 0 else 1)
  {
    var before := set k | 0 <= k < n - 1 && !deliveries[k].insert.Failed?;
    var after := set k | 0 <= k < n && !deliveries[k].insert.Failed?;
    assert after == if deliveries[n - 1].insert.Failed? then before else before + {n - 1};
  }

  /** A mail goes to an address exactly for an answered insert whose client has it. */
  lemma {:induction false} MailedIff(deliveries: seq<Delivery>, n: nat, address: string)
    requires n <= |deliveries|
    ensures address in Addresses(deliveries, n) <==>
            exists k :: 0 <= k < n && deliveries[k].insert == Answered && deliveries[k].email == Some(address) && address != ""
  {
    if n > 0 {
      MailedIff(deliveries, n - 1, address);
    }
  }

  lemma MentionsSnoc(notes: seq<Notification>, note: Notification, d: Deal)
    ensures Mentions(notes + [note], d) <==> Mentions(notes, d) || note.dealId == d.id
  {
    var all := notes + [note];
    if Mentions(notes, d) {
      var i :| 0 <= i < |notes| && notes[i].dealId == d.id;
      assert all[i] == notes[i];
    }
    assert all[|notes|] == note;
  }

  class NotificationService {
    /** The table construction_notification_state. */
    var claims: map<int, string>
    var notifications: seq<Notification>
    /** Addresses to which a mail was handed over, in order. */
    var mails: seq<string>
    /** The updates whose claim took effect, answered or not. */
    ghost var log: seq<Entry<string, State>>

    ghost predicate Valid()
      reads this
    {
      claims == ClaimsAfter(log)
    }

    constructor ()
      ensures Valid() && log == [] && notifications == [] && mails == []
    {
      claims, notifications, mails, log := map[], [], [], [];
    }

    /** INSERT ... ON CONFLICT DO UPDATE ... WHERE the fingerprint differs, RETURNING the id. */
    method ClaimConstructionState(progressId: int, fingerprint: string) returns (changed: bool)
      modifies this`claims
      ensures changed <==> !(progressId in old(claims) && old(claims)[progressId] == fingerprint)
      ensures claims == old(claims)[progressId := fingerprint]
    {
      if progressId in claims && claims[progressId] == fingerprint {
        assert claims == claims[progressId := fingerprint];
        return false;
      }
      claims := claims[progressId := fingerprint];
      return true;
    }

    /** The claiming statement takes effect; due is what its answer makes of an alarming update. */
    method Claim(e: Entry<string, State>) returns (due: bool)
      requires Valid()
      modifies this`claims, this`log
      ensures Valid() && log == old(log) + [e]
      ensures due <==> IsDue(old(log), e)
      ensures !IsDue(log, e)
    {
      var changed := ClaimConstructionState(e.id, e.key);
      assert (log + [e])[..|log|] == log;
      log := log + [e];
      return changed && e.alarming;
    }

    method FanOut(p: Progress, deals: seq<Deal>, deliveries: seq<Delivery>)
      requires |deliveries| == |deals|
      modifies this`notifications, this`mails
      ensures notifications == old(notifications) + Notes(p, deals, deliveries, |deals|)
      ensures mails == old(mails) + Addresses(deliveries, |deals|)
    {
      for n := 0 to |deals|
        invariant notifications == old(notifications) + Notes(p, deals, deliveries, n)
        invariant mails == old(mails) + Addresses(deliveries, n)
      {
        if !deliveries[n].insert.Failed? {
          notifications := notifications + [NoteFor(p, deals[n])];
        }
        if deliveries[n].insert.Answered? {
          if deliveries[n].email.Some? && deliveries[n].email.value != "" {
            mails := mails + [deliveries[n].email.value];
          }
        }
      }
    }

    /** claim is what becomes of the claiming statement; listing is None when the deals cannot be read, and the claim
        has been made by then. The caller drops the error that ok stands for. */
    method NotifyConstructionUpdate(p: Progress, claim: Effect, listing: Option<seq<Deal>>, deliveries: seq<Delivery>)
      returns (ok: bool, fanned: bool)
      requires Valid() && (listing.Some? ==> |deliveries| == |listing.value|)
      modifies this
      ensures Valid()
      ensures log == if claim.Failed? then old(log) else old(log) + [EntryOf(p)]
      ensures fanned <==> IsDue(old(log), EntryOf(p)) && claim.Answered? && listing.Some?
      ensures ok <==> claim.Answered? && (IsDue(old(log), EntryOf(p)) ==> fanned)
      ensures fanned ==>
                && notifications == old(notifications) + Notes(p, listing.value, deliveries, |listing.value|)
                && mails == old(mails) + Addresses(deliveries, |listing.value|)
      ensures !fanned ==> notifications == old(notifications) && mails == old(mails)
      // what is not fanned out and not due any more is lost for good
      ensures IsDue(old(log), EntryOf(p)) ==>
                (!fanned && !IsDue(log, EntryOf(p)) <==> claim.Unanswered? || (claim.Answered? && listing.None?))
    {
      if claim.Failed? {
        return false, false;
      }
      var due := Claim(EntryOf(p));
      if claim.Unanswered? {
        return false, false;
      }
      if !due {
        return true, false;
      }
      if listing.None? {
        return false, false;
      }
      FanOut(p, listing.value, deliveries);
      return true, true;
    }
  }
}
