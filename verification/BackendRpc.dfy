/**
 The agent's RPC client: a table of pending futures keyed by correlation id. Every coroutine is
 cut at its awaits, so that calls, replies, timeouts, publish failures, task cancellation and
 close interleave freely. Next is the transition function, the class performs the same
 transitions on its fields, and the lemmas speak of every run of Next.
 */
module BackendRpc {
  import opened Wrappers

  datatype Response = Response(requestId: string, success: bool, code: string)

  datatype Body = BadJson | BadSchema | Decoded(response: Response)

  datatype ErrorCode =
    | NOT_STARTED | BAD_TIMEOUT | BAD_PAYLOAD | PUBLISH_ERROR | TIMEOUT | REQUEST_ID_MISMATCH
    | INVALID_RESPONSE_JSON | INVALID_RESPONSE_SCHEMA | CLIENT_CLOSED | CANCELLED
    | BACKEND(code: string)

  datatype FutureState = Unset | Value(response: Response) | Failed(error: ErrorCode) | Dropped

  /** owner is the number of the call that made the future; completions counts how often the future
      was given a result, an error or a cancellation. */
  datatype Future = Future(owner: nat, state: FutureState, completions: nat) {
    predicate Done() {
      !state.Unset?
    }
  }

  datatype Outcome = Returned(response: Response) | Raised(error: ErrorCode)

  datatype Phase = Publishing | Waiting | Ended(outcome: Outcome)

  /** One invocation of call; future is None when it was refused at entry; ends counts its exits. */
  datatype Call = Call(correlationId: string, requestId: string, future: Option<nat>, phase: Phase, ends: nat) {
    predicate Live() {
      !phase.Ended?
    }
  }

  /** delivered holds the well-formed replies that met a table entry, leaked the correlation ids of the
      calls that failed to serialize their payload since the last close. */
  datatype State = State(
    started: bool,
    pending: map<string, nat>,
    futures: seq<Future>,
    calls: seq<Call>,
    delivered: set<(string, Response)>,
    leaked: set<string>
  )

  datatype Event =
    | Start
    | Close
    | Begin(correlationId: string, requestId: string, timeoutPositive: bool, serializes: bool)
    | Published(call: nat)
    | PublishFailed(call: nat)
    | Deliver(replyTo: Option<string>, body: Body)
    | Wake(call: nat)
    | TimedOut(call: nat)
    | Abort(call: nat)

  const Initial := State(false, map[], [], [], {}, {})

  // ---------- transitions ----------

  function Complete(f: Future, state: FutureState): Future {
    f.(state := state, completions := f.completions + 1)
  }

  /** The correlation ids ever used: uuid4 never repeats one. */
  ghost predicate IsFresh(s: State, correlationId: string) {
    forall c :: 0 <= c < |s.calls| ==> s.calls[c].correlationId != correlationId
  }

  function CompletionOf(body: Body): FutureState {
    match body
    case BadJson => Failed(INVALID_RESPONSE_JSON)
    case BadSchema => Failed(INVALID_RESPONSE_SCHEMA)
    case Decoded(response) => Value(response)
  }

  function Delivered(s: State, replyTo: Option<string>, body: Body): State {
    if replyTo.None? || replyTo.value !in s.pending then s
    else
      var id := s.pending[replyTo.value];
      var s' := if body.Decoded? then s.(delivered := s.delivered + {(replyTo.value, body.response)}) else s;
      if id < |s.futures| && !s.futures[id].Done()
      then s'.(futures := s.futures[id := Complete(s.futures[id], CompletionOf(body))]) else s'
  }

  /** The finally block: the table entry goes, and a future nobody completed is cancelled. */
  function Exit(s: State, c: nat, outcome: Outcome): State
    requires c < |s.calls|
  {
    var call := s.calls[c];
    var ended := call.(phase := Ended(outcome), ends := call.ends + 1);
    var s' := s.(calls := s.calls[c := ended], pending := s.pending - {call.correlationId});
    if call.correlationId in s.pending then
      var id := s.pending[call.correlationId];
      if id < |s.futures| && !s.futures[id].Done()
      then s'.(futures := s.futures[id := Complete(s.futures[id], Dropped)]) else s'
    else s'
  }

  /** What call does with a completed future. */
  function OutcomeOf(call: Call, state: FutureState): Outcome {
    match state
    case Value(response) =>
      if response.requestId != call.requestId then Raised(REQUEST_ID_MISMATCH)
      else if !response.success then Raised(BACKEND(response.code))
      else Returned(response)
    case Failed(error) => Raised(error)
    case _ => Raised(CANCELLED)
  }

  function ClosedFuture(s: State, id: nat): Future
    requires id < |s.futures|
  {
    if id in s.pending.Values && !s.futures[id].Done()
    then Complete(s.futures[id], Failed(CLIENT_CLOSED)) else s.futures[id]
  }

  function Closed(s: State): State {
    s.(started := false, pending := map[], leaked := {},
       futures := seq(|s.futures|, i requires 0 <= i < |s.futures| => ClosedFuture(s, i)))
  }

  /** call up to its first await. The table entry is made before the message is built and outside the
      try block, so a payload that does not serialize ends the call and leaves the entry behind. */
  function Begun(s: State, correlationId: string, requestId: string, timeoutPositive: bool, serializes: bool): State {
    if !s.started then
      s.(calls := s.calls + [Call(correlationId, requestId, None, Ended(Raised(NOT_STARTED)), 1)])
    else if !timeoutPositive then
      s.(calls := s.calls + [Call(correlationId, requestId, None, Ended(Raised(BAD_TIMEOUT)), 1)])
    else
      s.(futures := s.futures + [Future(|s.calls|, Unset, 0)],
         pending := s.pending[correlationId := |s.futures|],
         calls := s.calls + [if serializes then Call(correlationId, requestId, Some(|s.futures|), Publishing, 0)
                             else Call(correlationId, requestId, Some(|s.futures|), Ended(Raised(BAD_PAYLOAD)), 1)],
         leaked := if serializes then s.leaked else s.leaked + {correlationId})
  }

  /** An event that cannot happen in s (a step of a call that is not at that await) is not enabled. */
  ghost predicate Enabled(s: State, e: Event) {
    match e
    case Begin(correlationId, _, _, _) => IsFresh(s, correlationId)
    case Published(c) => c < |s.calls| && s.calls[c].phase == Publishing
    case PublishFailed(c) => c < |s.calls| && s.calls[c].phase == Publishing
    case Wake(c) => c < |s.calls| && s.calls[c].phase == Waiting && FutureDone(s, c)
    case TimedOut(c) => c < |s.calls| && s.calls[c].phase == Waiting
    case Abort(c) => c < |s.calls| && s.calls[c].Live()
    case _ => true
  }

  predicate FutureDone(s: State, c: nat)
    requires c < |s.calls|
  {
    s.calls[c].future.Some? && s.calls[c].future.value < |s.futures| && s.futures[s.calls[c].future.value].Done()
  }

  ghost function Next(s: State, e: Event): State
    requires Enabled(s, e)
  {
    match e
    case Start => s.(started := true)
    case Close => Closed(s)
    case Begin(correlationId, requestId, timeoutPositive, serializes) =>
      Begun(s, correlationId, requestId, timeoutPositive, serializes)
    case Published(c) => s.(calls := s.calls[c := s.calls[c].(phase := Waiting)])
    case PublishFailed(c) => Exit(s, c, Raised(PUBLISH_ERROR))
    case Deliver(replyTo, body) => Delivered(s, replyTo, body)
    case Wake(c) => Exit(s, c, OutcomeOf(s.calls[c], s.futures[s.calls[c].future.value].state))
    case TimedOut(c) => Exit(s, c, Raised(TIMEOUT))
    case Abort(c) => Exit(s, c, Raised(CANCELLED))
  }

  ghost predicate IsRun(s: State, events: seq<Event>)
    decreases |events|
  {
    events == [] || (Enabled(s, events[0]) && IsRun(Next(s, events[0]), events[1..]))
  }

  ghost function Run(s: State, events: seq<Event>): State
    requires IsRun(s, events)
    decreases |events|
  {
    if events == [] then s else Run(Next(s, events[0]), events[1..])
  }

  // ---------- the invariant ----------

  ghost predicate HasFuture(s: State, c: nat)
    requires c < |s.calls|
  {
    s.calls[c].future.Some? && s.calls[c].future.value < |s.futures|
  }

  /** A live call owns a future, and its table entry, if still there, is that future. */
  ghost predicate CallOk(s: State, c: nat)
    requires c < |s.calls|
  {
    var call := s.calls[c];
    && (call.future.Some? ==> HasFuture(s, c) && s.futures[call.future.value].owner == c)
    && (call.Live() ==>
          && HasFuture(s, c)
          && (InTable(s, c) || s.futures[call.future.value].Done())
          && call.correlationId !in s.leaked)
    && call.ends == (if call.Live() then 0 else 1)
    && (HasFuture(s, c) && s.futures[call.future.value].state.Value? ==>
          (call.correlationId, s.futures[call.future.value].state.response) in s.delivered)
    && (call.phase.Ended? && call.phase.outcome.Returned? ==> Earned(s, call))
  }

  ghost predicate InTable(s: State, c: nat)
    requires c < |s.calls|
  {
    s.calls[c].correlationId in s.pending && Some(s.pending[s.calls[c].correlationId]) == s.calls[c].future
  }

  /** The response a call returns came under its own correlation id, names its own request and reports success. */
  ghost predicate Earned(s: State, call: Call)
    requires call.phase.Ended? && call.phase.outcome.Returned?
  {
    var response := call.phase.outcome.response;
    (call.correlationId, response) in s.delivered && response.requestId == call.requestId && response.success
  }

  /** A future is completed at most once, and an open one belongs to a live or leaked call. */
  ghost predicate FutureOk(s: State, id: nat)
    requires id < |s.futures|
  {
    var f := s.futures[id];
    && f.completions == (if f.Done() then 1 else 0)
    && f.owner < |s.calls|
    && s.calls[f.owner].future == Some(id)
    && (!f.Done() ==> s.calls[f.owner].Live() || s.calls[f.owner].correlationId in s.leaked)
  }

  /** A table entry leads to the call of its correlation id, which is live or leaked. */
  ghost predicate EntryOk(s: State, k: string)
    requires k in s.pending
  {
    && s.pending[k] < |s.futures|
    && s.futures[s.pending[k]].owner < |s.calls|
    && (s.calls[s.futures[s.pending[k]].owner].Live() || k in s.leaked)
    && s.calls[s.futures[s.pending[k]].owner].correlationId == k
  }

  ghost predicate Inv(s: State) {
    && (forall c: nat :: c < |s.calls| ==> CallOk(s, c))
    && (forall c: nat, d: nat :: c < d < |s.calls| ==> s.calls[c].correlationId != s.calls[d].correlationId)
    && (forall id: nat :: id < |s.futures| ==> FutureOk(s, id))
    && (forall k :: k in s.pending ==> EntryOk(s, k))
    && s.leaked <= s.pending.Keys
  }

  lemma EntryOfCall(s: State, c: nat)
    requires Inv(s) && c < |s.calls| && s.calls[c].correlationId in s.pending
    ensures HasFuture(s, c) && InTable(s, c)
  {
    var k := s.calls[c].correlationId;
    assert EntryOk(s, k) && FutureOk(s, s.pending[k]);
    var o := s.futures[s.pending[k]].owner;
    assert o < c || c < o || o == c;
  }

  lemma EntryIsOwn(s: State, c: nat)
    requires Inv(s) && c < |s.calls| && s.calls[c].Live()
    ensures HasFuture(s, c)
    ensures s.calls[c].correlationId in s.pending ==> InTable(s, c)
    ensures s.calls[c].correlationId !in s.pending ==> s.futures[s.calls[c].future.value].Done()
  {
    assert CallOk(s, c);
    if s.calls[c].correlationId in s.pending {
      EntryOfCall(s, c);
    }
  }

  /** What a live call's exit does to its own future, and to no other. */
  lemma ExitOfFuture(s: State, c: nat, outcome: Outcome)
    requires Inv(s) && c < |s.calls| && s.calls[c].Live()
    ensures HasFuture(s, c)
    ensures var id := s.calls[c].future.value;
            Exit(s, c, outcome).futures ==
            if s.futures[id].Done() then s.futures else s.futures[id := Complete(s.futures[id], Dropped)]
  {
    EntryIsOwn(s, c);
  }

  lemma ExitKeepsCall(s: State, c: nat, outcome: Outcome, d: nat)
    requires Inv(s) && c < |s.calls| && s.calls[c].Live() && d < |s.calls|
    requires outcome.Returned? ==> Earned(s, s.calls[c].(phase := Ended(outcome)))
    ensures CallOk(Exit(s, c, outcome), d)
  {
    ExitOfFuture(s, c, outcome);
    assert CallOk(s, c) && CallOk(s, d);
  }

  lemma ExitKeepsFuture(s: State, c: nat, outcome: Outcome, i: nat)
    requires Inv(s) && c < |s.calls| && s.calls[c].Live() && i < |s.futures|
    ensures i < |Exit(s, c, outcome).futures| && FutureOk(Exit(s, c, outcome), i)
  {
    ExitOfFuture(s, c, outcome);
    assert CallOk(s, c) && FutureOk(s, i);
  }

  lemma ExitKeepsEntry(s: State, c: nat, outcome: Outcome, k: string)
    requires Inv(s) && c < |s.calls| && s.calls[c].Live() && k in Exit(s, c, outcome).pending
    ensures EntryOk(Exit(s, c, outcome), k)
  {
    ExitOfFuture(s, c, outcome);
    assert EntryOk(s, k);
  }

  lemma ExitKeeps(s: State, c: nat, outcome: Outcome)
    requires Inv(s) && c < |s.calls| && s.calls[c].Live()
    requires outcome.Returned? ==> Earned(s, s.calls[c].(phase := Ended(outcome)))
    ensures Inv(Exit(s, c, outcome))
  {
    var s' := Exit(s, c, outcome);
    ExitOfFuture(s, c, outcome);
    assert CallOk(s, c);
    forall d: nat | d < |s'.calls|
      ensures CallOk(s', d)
    {
      ExitKeepsCall(s, c, outcome, d);
    }
    forall i: nat | i < |s'.futures|
      ensures FutureOk(s', i)
    {
      ExitKeepsFuture(s, c, outcome, i);
    }
    forall k | k in s'.pending
      ensures EntryOk(s', k)
    {
      ExitKeepsEntry(s, c, outcome, k);
    }
  }

  lemma DeliverKeeps(s: State, replyTo: Option<string>, body: Body)
    requires Inv(s)
    ensures Inv(Delivered(s, replyTo, body))
  {
    var s' := Delivered(s, replyTo, body);
    if replyTo.Some? && replyTo.value in s.pending {
      assert EntryOk(s, replyTo.value);
      assert FutureOk(s, s.pending[replyTo.value]);
      forall d: nat | d < |s'.calls|
        ensures CallOk(s', d)
      {
        assert CallOk(s, d);
      }
      forall i: nat | i < |s'.futures|
        ensures FutureOk(s', i)
      {
        assert FutureOk(s, i);
      }
      forall k | k in s'.pending
        ensures EntryOk(s', k)
      {
        assert EntryOk(s, k);
      }
    }
  }

  lemma CloseKeeps(s: State)
    requires Inv(s)
    ensures Inv(Closed(s))
  {
    var s' := Closed(s);
    forall i: nat | i < |s'.futures|
      ensures FutureOk(s', i) && s'.futures[i].Done()
    {
      assert FutureOk(s, i) && s'.futures[i] == ClosedFuture(s, i);
      var o := s.futures[i].owner;
      assert CallOk(s, o);
      if s.calls[o].correlationId in s.pending {
        EntryOfCall(s, o);
      }
    }
    forall d: nat | d < |s'.calls|
      ensures CallOk(s', d)
    {
      assert CallOk(s, d);
    }
  }

  lemma BeginKeeps(s: State, correlationId: string, requestId: string, timeoutPositive: bool, serializes: bool)
    requires Inv(s) && IsFresh(s, correlationId)
    ensures Inv(Begun(s, correlationId, requestId, timeoutPositive, serializes))
  {
    var s' := Begun(s, correlationId, requestId, timeoutPositive, serializes);
    forall k | k in s.pending
      ensures k != correlationId
    {
      assert EntryOk(s, k);
    }
    forall d: nat | d < |s'.calls|
      ensures CallOk(s', d)
    {
      if d < |s.calls| {
        assert CallOk(s, d) && s'.calls[d] == s.calls[d];
      }
    }
    forall i: nat | i < |s'.futures|
      ensures FutureOk(s', i)
    {
      if i < |s.futures| {
        assert FutureOk(s, i) && s'.futures[i] == s.futures[i];
      }
    }
    forall k | k in s'.pending
      ensures EntryOk(s', k)
    {
      if k in s.pending {
        assert EntryOk(s, k);
      }
    }
  }

  /** Steps that change neither the futures nor the table, and no call but for its two live phases. */
  lemma QuietKeeps(s: State, s': State)
    requires Inv(s) && s'.pending == s.pending && s'.futures == s.futures && s'.delivered == s.delivered
    requires s'.leaked == s.leaked && |s'.calls| == |s.calls|
    requires forall c: nat :: c < |s.calls| ==>
               s'.calls[c] == s.calls[c] || (s.calls[c].Live() && s'.calls[c] == s.calls[c].(phase := Waiting))
    ensures Inv(s')
  {
    forall d: nat | d < |s'.calls|
      ensures CallOk(s', d)
    {
      assert CallOk(s, d);
    }
    forall i: nat | i < |s'.futures|
      ensures FutureOk(s', i)
    {
      assert FutureOk(s, i);
    }
    forall k | k in s'.pending
      ensures EntryOk(s', k)
    {
      assert EntryOk(s, k);
    }
  }

  lemma NextKeeps(s: State, e: Event)
    requires Inv(s) && Enabled(s, e)
    ensures Inv(Next(s, e))
  {
    match e
    case Start => QuietKeeps(s, Next(s, e));
    case Close => CloseKeeps(s);
    case Begin(correlationId, requestId, timeoutPositive, serializes) =>
      BeginKeeps(s, correlationId, requestId, timeoutPositive, serializes);
    case Published(c) => QuietKeeps(s, Next(s, e));
    case PublishFailed(c) => ExitKeeps(s, c, Raised(PUBLISH_ERROR));
    case Deliver(replyTo, body) => DeliverKeeps(s, replyTo, body);
    case Wake(c) =>
      assert CallOk(s, c);
      ExitKeeps(s, c, OutcomeOf(s.calls[c], s.futures[s.calls[c].future.value].state));
    case TimedOut(c) => ExitKeeps(s, c, Raised(TIMEOUT));
    case Abort(c) => ExitKeeps(s, c, Raised(CANCELLED));
  }

  lemma {:induction false} RunKeeps(s: State, events: seq<Event>)
    requires Inv(s) && IsRun(s, events)
    ensures Inv(Run(s, events))
    decreases |events|
  {
    if events != [] {
      NextKeeps(s, events[0]);
      RunKeeps(Next(s, events[0]), events[1..]);
    }
  }

  // ---------- main results ----------

  /** In every run: a call has ended at most once and exactly once when it is no longer live; what it
      returns it has earned; no future is completed twice; and with no live call the table holds exactly
      the entries leaked since the last close. */
  lemma EveryRun(events: seq<Event>)
    requires IsRun(Initial, events)
    ensures var s := Run(Initial, events);
            && (forall c: nat :: c < |s.calls| ==> s.calls[c].ends == if s.calls[c].Live() then 0 else 1)
            && (forall c: nat :: c < |s.calls| && s.calls[c].phase.Ended? && s.calls[c].phase.outcome.Returned? ==>
                  Earned(s, s.calls[c]))
            && (forall id: nat :: id < |s.futures| ==> s.futures[id].completions <= 1)
            && s.leaked <= s.pending.Keys
            && (s.pending.Keys != s.leaked ==> exists c: nat :: c < |s.calls| && s.calls[c].Live())
  {
    RunKeeps(Initial, events);
    var s := Run(Initial, events);
    forall c: nat | c < |s.calls|
      ensures s.calls[c].ends == if s.calls[c].Live() then 0 else 1
      ensures s.calls[c].phase.Ended? && s.calls[c].phase.outcome.Returned? ==> Earned(s, s.calls[c])
    {
      assert CallOk(s, c);
    }
    forall id: nat | id < |s.futures|
      ensures s.futures[id].completions <= 1
    {
      assert FutureOk(s, id);
    }
    if s.pending.Keys != s.leaked {
      var k :| k in s.pending && k !in s.leaked;
      assert EntryOk(s, k);
    }
  }

  /** The table is not always empty at rest: one unserializable payload leaves its entry for good. */
  lemma UnserializablePayloadLeaks(k: string, requestId: string)
    ensures var events := [Start, Begin(k, requestId, true, false)];
            IsRun(Initial, events) && Run(Initial, events).pending == map[k := 0]
            && Run(Initial, events).leaked == {k}
            && forall c: nat :: c < |Run(Initial, events).calls| ==> !Run(Initial, events).calls[c].Live()
  {
    var events := [Start, Begin(k, requestId, true, false)];
    var s1 := Next(Initial, Start);
    assert events[1..] == [Begin(k, requestId, true, false)] && events[1..][1..] == [];
    assert IsRun(s1, events[1..]) && IsRun(Next(s1, events[1]), []);
    assert Run(Initial, events) == Run(s1, events[1..]) == Next(s1, events[1]);
  }

  /** Whether the events leave the client started. */
  function StartedAfter(events: seq<Event>): bool {
    if events == [] then false
    else
      match events[|events| - 1]
      case Start => true
      case Close => false
      case _ => StartedAfter(events[..|events| - 1])
  }

  /** The correlation ids of the calls since the last close that a started client accepted with a payload that it could
      not serialize. */
  function LeakedBy(events: seq<Event>): set<string> {
    if events == [] then {}
    else
      var before := events[..|events| - 1];
      match events[|events| - 1]
      case Close => {}
      case Begin(correlationId, _, timeoutPositive, serializes) =>
        if StartedAfter(before) && timeoutPositive && !serializes then LeakedBy(before) + {correlationId}
        else LeakedBy(before)
      case _ => LeakedBy(before)
  }

  lemma {:induction false} RunSnoc(s: State, events: seq<Event>, e: Event)
    requires IsRun(s, events + [e])
    ensures IsRun(s, events) && Enabled(Run(s, events), e) && Run(s, events + [e]) == Next(Run(s, events), e)
    decreases |events|
  {
    var all := events + [e];
    if events == [] {
      assert all == [e] && all[1..] == [];
    } else {
      assert all[1..] == events[1..] + [e];
      RunSnoc(Next(s, events[0]), events[1..], e);
    }
  }

  lemma {:induction false} LeakedIsLeakedBy(events: seq<Event>)
    requires IsRun(Initial, events)
    ensures Run(Initial, events).leaked == LeakedBy(events) && Run(Initial, events).started == StartedAfter(events)
  {
    if events != [] {
      var before, e := events[..|events| - 1], events[|events| - 1];
      assert events == before + [e];
      RunSnoc(Initial, before, e);
      LeakedIsLeakedBy(before);
      StepLeaks(Run(Initial, before), e);
    }
  }

  lemma StepLeaks(s: State, e: Event)
    requires Enabled(s, e)
    ensures Next(s, e).started == (if e.Start? then true else if e.Close? then false else s.started)
    ensures Next(s, e).leaked ==
            if e.Close? then {}
            else if e.Begin? && s.started && e.timeoutPositive && !e.serializes then s.leaked + {e.correlationId}
            else s.leaked
  {
  }

  /** With no call running the table holds exactly the leaked ids; so it is empty exactly when no call since the last
      close was accepted with a payload that does not serialize. */
  lemma EmptyAtRestIff(events: seq<Event>)
    requires IsRun(Initial, events)
    requires var s := Run(Initial, events); forall c: nat :: c < |s.calls| ==> !s.calls[c].Live()
    ensures Run(Initial, events).pending.Keys == LeakedBy(events)
    ensures Run(Initial, events).pending == map[] <==> LeakedBy(events) == {}
  {
    EveryRun(events);
    LeakedIsLeakedBy(events);
    var s := Run(Initial, events);
    assert s.pending.Keys == s.leaked;
    assert s.pending == map[] <==> s.pending.Keys == {};
  }

  function Rank(phase: Phase): nat {
    match phase
    case Publishing => 2
    case Waiting => 1
    case Ended(_) => 0
  }

  /** Only its own steps touch a call, and each of them moves it strictly forward: a call makes at most
      two steps, and nothing disturbs one that has ended. */
  lemma CallsMoveForward(s: State, e: Event, c: nat)
    requires Inv(s) && Enabled(s, e) && c < |s.calls|
    ensures var call, call' := s.calls[c], Next(s, e).calls[c];
            if StepOf(e, c) then Rank(call'.phase) < Rank(call.phase) else call' == call
  {
  }

  /** A live call is never stuck: whatever the others have done, a timeout or a failed publish ends it. */
  lemma CallsCanEnd(s: State, c: nat)
    requires Inv(s) && c < |s.calls| && s.calls[c].Live()
    ensures var e := if s.calls[c].phase.Publishing? then PublishFailed(c) else TimedOut(c);
            Enabled(s, e) && Next(s, e).calls[c].phase ==
                             Ended(Raised(if s.calls[c].phase.Publishing? then PUBLISH_ERROR else TIMEOUT))
  {
    assert CallOk(s, c);
  }

  predicate StepOf(e: Event, c: nat) {
    match e
    case Published(d) => d == c
    case PublishFailed(d) => d == c
    case Wake(d) => d == c
    case TimedOut(d) => d == c
    case Abort(d) => d == c
    case _ => false
  }

  /** The matching reply does get through: delivered to a waiting call whose future is still open, it is
      what the call returns when it wakes, whatever later replies bring under any correlation id. */
  lemma {:induction false} ReplyIsReturned(s: State, c: nat, response: Response, later: seq<(Option<string>, Body)>)
    requires Inv(s) && c < |s.calls| && s.calls[c].phase == Waiting && !FutureDone(s, c)
    requires response.requestId == s.calls[c].requestId && response.success
    ensures var s1 := DeliverAll(Delivered(s, Some(s.calls[c].correlationId), Decoded(response)), later);
            Enabled(s1, Wake(c)) && Next(s1, Wake(c)).calls[c].phase == Ended(Returned(response))
  {
    assert CallOk(s, c);
    var s0 := Delivered(s, Some(s.calls[c].correlationId), Decoded(response));
    LaterRepliesIgnored(s0, c, response, later);
  }

  ghost function DeliverAll(s: State, replies: seq<(Option<string>, Body)>): State
    decreases |replies|
  {
    if replies == [] then s else DeliverAll(Delivered(s, replies[0].0, replies[0].1), replies[1..])
  }

  lemma {:induction false} LaterRepliesIgnored(s: State, c: nat, response: Response, later: seq<(Option<string>, Body)>)
    requires c < |s.calls| && HasFuture(s, c) && s.futures[s.calls[c].future.value].state == Value(response)
    ensures var s1 := DeliverAll(s, later);
            s1.calls == s.calls && |s1.futures| == |s.futures|
            && s1.futures[s.calls[c].future.value].state == Value(response)
    decreases |later|
  {
    if later != [] {
      LaterRepliesIgnored(Delivered(s, later[0].0, later[0].1), c, response, later[1..]);
    }
  }

  /** What the first reply to a waiting call makes of it, and what a close makes of it: each way of failing has its own
      error. */
  lemma WaitingCallEnds(s: State, c: nat, body: Body)
    requires Inv(s) && c < |s.calls| && s.calls[c].phase == Waiting && !FutureDone(s, c)
    ensures var s1, s2 := Delivered(s, Some(s.calls[c].correlationId), body), Closed(s);
            && Enabled(s1, Wake(c)) && Enabled(s2, Wake(c))
            && Next(s1, Wake(c)).calls[c].phase ==
               (match body
                case BadJson => Ended(Raised(INVALID_RESPONSE_JSON))
                case BadSchema => Ended(Raised(INVALID_RESPONSE_SCHEMA))
                case Decoded(response) =>
                  if response.requestId != s.calls[c].requestId then Ended(Raised(REQUEST_ID_MISMATCH))
                  else if !response.success then Ended(Raised(BACKEND(response.code)))
                  else Ended(Returned(response)))
            && Next(s2, Wake(c)).calls[c].phase == Ended(Raised(CLIENT_CLOSED))
  {
    assert CallOk(s, c);
    var id := s.calls[c].future.value;
    assert id == s.pending[s.calls[c].correlationId] && id in s.pending.Values;
    assert Closed(s).futures[id] == ClosedFuture(s, id);
  }

  /** A call is refused at entry exactly when the client is not started or the timeout is not positive, and then leaves
      no trace in the table; an accepted one waits under its own id. */
  lemma CallBegins(s: State, correlationId: string, requestId: string, timeoutPositive: bool, serializes: bool)
    ensures var s' := Begun(s, correlationId, requestId, timeoutPositive, serializes);
            && |s'.calls| == |s.calls| + 1 && s'.calls[..|s.calls|] == s.calls
            && var call := s'.calls[|s.calls|];
               && call.correlationId == correlationId && call.requestId == requestId
               && (if !s.started || !timeoutPositive then
                     && call.phase == Ended(Raised(if s.started then BAD_TIMEOUT else NOT_STARTED))
                     && s'.pending == s.pending && s'.futures == s.futures
                   else
                     && call.phase == (if serializes then Publishing else Ended(Raised(BAD_PAYLOAD)))
                     && correlationId in s'.pending && call.future == Some(s'.pending[correlationId])
                     && s'.pending - {correlationId} == s.pending - {correlationId})
  {
  }

  // ---------- the client ----------

  class BackendRpcClient {
    var started: bool
    var pending: map<string, nat>
    var futures: seq<Future>
    var calls: seq<Call>
    ghost var delivered: set<(string, Response)>
    ghost var leaked: set<string>

    ghost function View(): State
      reads this
    {
      State(started, pending, futures, calls, delivered, leaked)
    }

    constructor ()
      ensures View() == Initial
    {
      started, pending, futures, calls, delivered, leaked := false, map[], [], [], {}, {};
    }

    method StartClient()
      modifies this
      ensures View() == Next(old(View()), Start)
    {
      if started {
        return;
      }
      started := true;
    }

    /** Fails the open futures of the table one by one; a dict iterates in insertion order, which is
        the order of the future numbers. */
    method CloseClient()
      requires Inv(View())
      modifies this
      ensures View() == Next(old(View()), Close)
    {
      ghost var s := View();
      var id := 0;
      while id < |futures|
        invariant id <= |futures| == |s.futures|
        invariant View() == s.(futures := futures)
        invariant forall i :: 0 <= i < id ==> futures[i] == ClosedFuture(s, i)
        invariant forall i :: id <= i < |futures| ==> futures[i] == s.futures[i]
      {
        if id in pending.Values && !futures[id].Done() {
          futures := futures[id := Complete(futures[id], Failed(CLIENT_CLOSED))];
        }
        id := id + 1;
      }
      pending := map[];
      leaked := {};
      started := false;
    }

    /** call up to its first await. */
    method BeginCall(correlationId: string, requestId: string, timeoutPositive: bool, serializes: bool) returns (c: nat)
      requires IsFresh(View(), correlationId)
      modifies this
      ensures View() == Next(old(View()), Begin(correlationId, requestId, timeoutPositive, serializes))
      ensures c == |old(calls)| < |calls|
    {
      c := |calls|;
      if !started {
        calls := calls + [Call(correlationId, requestId, None, Ended(Raised(NOT_STARTED)), 1)];
        return;
      }
      if !timeoutPositive {
        calls := calls + [Call(correlationId, requestId, None, Ended(Raised(BAD_TIMEOUT)), 1)];
        return;
      }
      var future := |futures|;
      futures := futures + [Future(c, Unset, 0)];
      pending := pending[correlationId := future];
      if !serializes {
        calls := calls + [Call(correlationId, requestId, Some(future), Ended(Raised(BAD_PAYLOAD)), 1)];
        leaked := leaked + {correlationId};
        return;
      }
      calls := calls + [Call(correlationId, requestId, Some(future), Publishing, 0)];
    }

    /** call from the publish await to the next one, or to its end when publishing failed. */
    method AfterPublish(c: nat, failed: bool)
      requires Enabled(View(), Published(c))
      modifies this
      ensures View() == Next(old(View()), if failed then PublishFailed(c) else Published(c))
    {
      if failed {
        Finish(c, Raised(PUBLISH_ERROR));
      } else {
        calls := calls[c := calls[c].(phase := Waiting)];
      }
    }

    /** call from the shielded wait to its end. */
    method AfterWait(c: nat, timedOut: bool)
      requires Enabled(View(), if timedOut then TimedOut(c) else Wake(c))
      modifies this
      ensures View() == Next(old(View()), if timedOut then TimedOut(c) else Wake(c))
    {
      if timedOut {
        Finish(c, Raised(TIMEOUT));
        return;
      }
      var outcome;
      match futures[calls[c].future.value].state {
        case Value(response) =>
          if response.requestId != calls[c].requestId {
            outcome := Raised(REQUEST_ID_MISMATCH);
          } else if !response.success {
            outcome := Raised(BACKEND(response.code));
          } else {
            outcome := Returned(response);
          }
        case Failed(error) => outcome := Raised(error);
        case _ => outcome := Raised(CANCELLED);
      }
      Finish(c, outcome);
    }

    method AbortCall(c: nat)
      requires Enabled(View(), Abort(c))
      modifies this
      ensures View() == Next(old(View()), Abort(c))
    {
      Finish(c, Raised(CANCELLED));
    }

    /** The finally block of call. */
    method Finish(c: nat, outcome: Outcome)
      requires c < |calls|
      modifies this
      ensures View() == Exit(old(View()), c, outcome)
    {
      var call := calls[c];
      var popped := if call.correlationId in pending then Some(pending[call.correlationId]) else None;
      pending := pending - {call.correlationId};
      if popped.Some? && popped.value < |futures| && !futures[popped.value].Done() {
        futures := futures[popped.value := Complete(futures[popped.value], Dropped)];
      }
      calls := calls[c := call.(phase := Ended(outcome), ends := call.ends + 1)];
    }

    method HandleResponse(replyTo: Option<string>, body: Body)
      modifies this
      ensures View() == Next(old(View()), Deliver(replyTo, body))
    {
      if replyTo.None? || replyTo.value !in pending {
        return;
      }
      var future := pending[replyTo.value];
      var open := future < |futures| && !futures[future].Done();
      match body {
        case BadJson =>
          if open {
            futures := futures[future := Complete(futures[future], Failed(INVALID_RESPONSE_JSON))];
          }
        case BadSchema =>
          if open {
            futures := futures[future := Complete(futures[future], Failed(INVALID_RESPONSE_SCHEMA))];
          }
        case Decoded(response) =>
          delivered := delivered + {(replyTo.value, response)};
          if open {
            futures := futures[future := Complete(futures[future], Value(response))];
          }
      }
    }
  }
}
