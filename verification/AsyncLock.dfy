/** The per-key asynchronous mutex (apps/runtime-mcp/src/shared/async-lock.ts and its identical copy in
    apps/runtime-worker). Code between two awaits runs without interruption, so a call of `run` is three
    steps: it registers, it enters fn once the promise it waits for has resolved, and it leaves fn by
    returning or by throwing. A promise is named by the call that created it. */
module AsyncLock {
  import opened Option

  type Key = string

  datatype Phase = Waiting | Inside | Done(threw: bool)

  datatype Call = Call(key: Key, prev: Option<nat>, phase: Phase)

  /** `entered` logs the order in which calls entered fn. */
  datatype State = State(calls: seq<Call>, tails: map<Key, nat>, entered: seq<nat>)

  datatype Event = Register(key: Key) | Enter(id: nat) | Exit(id: nat, threw: bool)

  /** tail = prev.then(() => gate): resolved once the previous tail is and the call has left fn. */
  predicate TailResolved(calls: seq<Call>, id: nat)
    decreases id, 1
  {
    id < |calls| && calls[id].phase.Done? && PrevResolved(calls, id)
  }

  predicate PrevResolved(calls: seq<Call>, id: nat)
    requires id < |calls|
    decreases id, 0
  {
    calls[id].prev.None? || (calls[id].prev.value < id && TailResolved(calls, calls[id].prev.value))
  }

  predicate Enabled(s: State, e: Event) {
    match e
    case Register(_) => true
    case Enter(id) => id < |s.calls| && s.calls[id].phase == Waiting && PrevResolved(s.calls, id)
    case Exit(id, _) => id < |s.calls| && s.calls[id].phase == Inside
  }

  function Step(s: State, e: Event): State
    requires Enabled(s, e)
  {
    match e
    case Register(key) =>
      var prev := if key in s.tails then Some(s.tails[key]) else None;
      State(s.calls + [Call(key, prev, Waiting)], s.tails[key := |s.calls|], s.entered)
    case Enter(id) =>
      State(s.calls[id := s.calls[id].(phase := Inside)], s.tails, s.entered + [id])
    case Exit(id, threw) =>
      var c := s.calls[id];
      State(s.calls[id := c.(phase := Done(threw))],
            if c.key in s.tails && s.tails[c.key] == id then s.tails - {c.key} else s.tails,
            s.entered)
  }

  const INITIAL := State([], map[], [])

  /** The state after a run; None when some event was not possible. */
  function Run(s: State, events: seq<Event>): Option<State>
    decreases |events|
  {
    if events == [] then Some(s)
    else if Enabled(s, events[0]) then Run(Step(s, events[0]), events[1..])
    else None
  }

  // ----- The invariant -----

  ghost predicate EarlierDone(calls: seq<Call>, id: nat)
    requires id < |calls|
  {
    forall j :: 0 <= j < id && calls[j].key == calls[id].key ==> calls[j].phase.Done?
  }

  /** prev is the latest earlier call on the key, unless those had all finished at registration. */
  ghost predicate ChainOk(calls: seq<Call>, id: nat)
    requires id < |calls|
  {
    match calls[id].prev
    case None => EarlierDone(calls, id)
    case Some(p) =>
      && p < id && calls[p].key == calls[id].key
      && forall j :: p < j < id ==> calls[j].key != calls[id].key
  }

  ghost predicate ChainInv(calls: seq<Call>) {
    forall id :: 0 <= id < |calls| ==> ChainOk(calls, id)
  }

  ghost predicate OrderInv(calls: seq<Call>) {
    forall id :: 0 <= id < |calls| && calls[id].phase != Waiting ==> EarlierDone(calls, id)
  }

  /** The tail kept for a key is its latest call, which has not finished. */
  ghost predicate TailOk(calls: seq<Call>, k: Key, id: nat) {
    && id < |calls| && calls[id].key == k && !calls[id].phase.Done?
    && forall j :: id < j < |calls| ==> calls[j].key != k
  }

  ghost predicate TailsInv(s: State) {
    && (forall k :: k in s.tails ==> TailOk(s.calls, k, s.tails[k]))
    && (forall id :: 0 <= id < |s.calls| && s.calls[id].key !in s.tails ==> s.calls[id].phase.Done?)
  }

  ghost predicate LogInv(s: State) {
    && (forall i :: 0 <= i < |s.entered| ==> s.entered[i] < |s.calls| && s.calls[s.entered[i]].phase != Waiting)
    && (forall i, j :: 0 <= i < j < |s.entered| && s.calls[s.entered[i]].key == s.calls[s.entered[j]].key ==>
          s.entered[i] < s.entered[j])
  }

  ghost predicate Inv(s: State) {
    ChainInv(s.calls) && OrderInv(s.calls) && TailsInv(s) && LogInv(s)
  }

  /** The promise a call waits for has resolved exactly when every earlier call on its key has finished. */
  lemma {:induction false} ResolvedIffEarlierDone(calls: seq<Call>, id: nat)
    requires id < |calls| && ChainInv(calls)
    ensures PrevResolved(calls, id) <==> EarlierDone(calls, id)
    decreases id
  {
    assert ChainOk(calls, id);
    if calls[id].prev.Some? {
      ResolvedIffEarlierDone(calls, calls[id].prev.value);
    }
  }

  /** t differs from s by one call that moved on, without un-finishing. */
  lemma AdvanceKeepsChains(calls: seq<Call>, id: nat, c: Call)
    requires id < |calls| && c.key == calls[id].key && c.prev == calls[id].prev && !calls[id].phase.Done?
    requires ChainInv(calls)
    ensures ChainInv(calls[id := c])
  {
    var after := calls[id := c];
    forall i | 0 <= i < |after| ensures ChainOk(after, i) {
      assert ChainOk(calls, i);
    }
  }

  lemma StepKeepsChains(s: State, e: Event)
    requires Inv(s) && Enabled(s, e)
    ensures ChainInv(Step(s, e).calls)
  {
    var t := Step(s, e);
    if e.Register? {
      forall i | 0 <= i < |t.calls| ensures ChainOk(t.calls, i) {
        if i < |s.calls| {
          assert ChainOk(s.calls, i);
        } else if e.key in s.tails {
          assert TailOk(s.calls, e.key, s.tails[e.key]);
        }
      }
    } else {
      AdvanceKeepsChains(s.calls, e.id, t.calls[e.id]);
    }
  }

  lemma StepKeepsOrder(s: State, e: Event)
    requires Inv(s) && Enabled(s, e)
    ensures OrderInv(Step(s, e).calls)
  {
    var t := Step(s, e);
    if e.Enter? {
      ResolvedIffEarlierDone(s.calls, e.id);
    }
    forall i | 0 <= i < |t.calls| && t.calls[i].phase != Waiting ensures EarlierDone(t.calls, i) {
      assert i < |s.calls| && ((e.Enter? && i == e.id) || s.calls[i].phase != Waiting);
      assert EarlierDone(s.calls, i);
    }
  }

  lemma StepKeepsTails(s: State, e: Event)
    requires Inv(s) && Enabled(s, e)
    ensures TailsInv(Step(s, e))
  {
    var t := Step(s, e);
    forall k | k in t.tails ensures TailOk(t.calls, k, t.tails[k]) {
      if !(e.Register? && e.key == k) {
        assert TailOk(s.calls, k, s.tails[k]);
      }
    }
    forall i | 0 <= i < |t.calls| && t.calls[i].key !in t.tails ensures t.calls[i].phase.Done? {
      var k := t.calls[i].key;
      if k in s.tails {
        assert TailOk(s.calls, k, s.tails[k]);
        assert EarlierDone(s.calls, e.id);
      }
    }
  }

  lemma StepKeepsLog(s: State, e: Event)
    requires Inv(s) && Enabled(s, e)
    ensures LogInv(Step(s, e))
  {
    if e.Enter? {
      ResolvedIffEarlierDone(s.calls, e.id);
      forall i | 0 <= i < |s.entered| && s.calls[s.entered[i]].key == s.calls[e.id].key
        ensures s.entered[i] < e.id
      {
        assert EarlierDone(s.calls, s.entered[i]);
      }
    }
  }

  /** Every step of every call keeps the invariant. */
  lemma StepKeepsInv(s: State, e: Event)
    requires Inv(s) && Enabled(s, e)
    ensures Inv(Step(s, e))
  {
    StepKeepsChains(s, e);
    StepKeepsOrder(s, e);
    StepKeepsTails(s, e);
    StepKeepsLog(s, e);
  }

  lemma {:induction false} RunKeepsInv(s: State, events: seq<Event>)
    requires Inv(s) && Run(s, events).Some?
    ensures Inv(Run(s, events).value)
    decreases |events|
  {
    if events != [] {
      StepKeepsInv(s, events[0]);
      RunKeepsInv(Step(s, events[0]), events[1..]);
    }
  }

  // ----- Safety of every run -----

  ghost predicate Reachable(s: State) {
    exists events :: Run(INITIAL, events) == Some(s)
  }

  lemma ReachableInv(s: State)
    requires Reachable(s)
    ensures Inv(s)
  {
    var events :| Run(INITIAL, events) == Some(s);
    RunKeepsInv(INITIAL, events);
  }

  /** At most one call per key is inside fn. */
  lemma MutualExclusion(s: State, i: nat, j: nat)
    requires Reachable(s)
    requires i < |s.calls| && j < |s.calls| && s.calls[i].key == s.calls[j].key
    requires s.calls[i].phase == Inside && s.calls[j].phase == Inside
    ensures i == j
  {
    ReachableInv(s);
    assert EarlierDone(s.calls, i) && EarlierDone(s.calls, j);
  }

  /** Calls on one key enter fn in registration order, and a call enters only after all earlier ones
      on its key have left. */
  lemma FirstComeFirstServed(s: State)
    requires Reachable(s)
    ensures forall i :: 0 <= i < |s.entered| ==> s.entered[i] < |s.calls|
    ensures forall i, j :: 0 <= i < j < |s.entered| && s.calls[s.entered[i]].key == s.calls[s.entered[j]].key ==>
              s.entered[i] < s.entered[j]
    ensures forall i, j :: 0 <= i < j < |s.calls| && s.calls[i].key == s.calls[j].key && s.calls[j].phase != Waiting ==>
              s.calls[i].phase.Done?
  {
    ReachableInv(s);
    forall i, j | 0 <= i < j < |s.calls| && s.calls[i].key == s.calls[j].key && s.calls[j].phase != Waiting
      ensures s.calls[i].phase.Done?
    {
      assert EarlierDone(s.calls, j);
    }
  }

  /** The map holds a key exactly while some call on it is unfinished. */
  lemma TailsAreLive(s: State, k: Key)
    requires Reachable(s)
    ensures k in s.tails <==> exists id :: 0 <= id < |s.calls| && s.calls[id].key == k && !s.calls[id].phase.Done?
  {
    ReachableInv(s);
    if k in s.tails {
      assert TailOk(s.calls, k, s.tails[k]);
    }
  }

  // ----- Progress -----

  lemma {:induction false} FirstUnfinished(calls: seq<Call>, id: nat) returns (first: nat)
    requires id < |calls| && !calls[id].phase.Done?
    ensures first <= id && calls[first].key == calls[id].key && !calls[first].phase.Done?
    ensures EarlierDone(calls, first)
    decreases id
  {
    if j :| 0 <= j < id && calls[j].key == calls[id].key && !calls[j].phase.Done? {
      first := FirstUnfinished(calls, j);
    } else {
      first := id;
    }
  }

  /** While a call is unfinished, some call on its key can enter or leave. */
  lemma Progress(s: State, id: nat) returns (e: Event)
    requires Inv(s) && id < |s.calls| && !s.calls[id].phase.Done?
    ensures Enabled(s, e) && !e.Register? && s.calls[e.id].key == s.calls[id].key
  {
    var first := FirstUnfinished(s.calls, id);
    ResolvedIffEarlierDone(s.calls, first);
    e := if s.calls[first].phase == Inside then Exit(first, false) else Enter(first);
  }

  function StepsLeft(calls: seq<Call>): nat {
    if calls == [] then 0
    else (match calls[0].phase case Waiting => 2 case Inside => 1 case Done(_) => 0) + StepsLeft(calls[1..])
  }

  lemma {:induction false} StepsLeftUpdate(calls: seq<Call>, id: nat, c: Call)
    requires id < |calls|
    ensures StepsLeft(calls[id := c]) == StepsLeft(calls) - StepsLeft([calls[id]]) + StepsLeft([c])
  {
    if id > 0 {
      StepsLeftUpdate(calls[1..], id - 1, c);
      assert calls[id := c][1..] == calls[1..][id - 1 := c];
    } else {
      assert calls[id := c][1..] == calls[1..];
    }
  }

  lemma StepsLeftDrops(s: State, e: Event)
    requires Enabled(s, e) && !e.Register?
    ensures StepsLeft(Step(s, e).calls) == StepsLeft(s.calls) - 1
  {
    StepsLeftUpdate(s.calls, e.id, Step(s, e).calls[e.id]);
  }

  /** Nothing is ever stuck: without new registrations, entering and leaving alone finish every call
      and empty the map, in exactly the number of steps the waiting and running calls still need. */
  lemma {:induction false} Drain(s: State) returns (events: seq<Event>)
    requires Inv(s)
    ensures forall e :: e in events ==> !e.Register?
    ensures Run(s, events).Some?
    ensures var t := Run(s, events).value;
            (forall id :: 0 <= id < |t.calls| ==> t.calls[id].phase.Done?) && t.tails == map[]
    ensures |events| == StepsLeft(s.calls)
    decreases StepsLeft(s.calls)
  {
    if id :| 0 <= id < |s.calls| && !s.calls[id].phase.Done? {
      var e := Progress(s, id);
      StepKeepsInv(s, e);
      StepsLeftDrops(s, e);
      var rest := Drain(Step(s, e));
      events := [e] + rest;
      assert events[1..] == rest;
    } else {
      events := [];
      assert s.tails.Keys == {};
      NothingLeft(s.calls);
    }
  }

  lemma {:induction false} NothingLeft(calls: seq<Call>)
    requires forall id :: 0 <= id < |calls| ==> calls[id].phase.Done?
    ensures StepsLeft(calls) == 0
  {
    if calls != [] {
      NothingLeft(calls[1..]);
    }
  }

  // ----- The lock object -----

  class Lock {
    var tails: map<Key, nat>
    /** The suspended calls of `run`, with the promise each one awaits. */
    var calls: seq<Call>
    ghost var entered: seq<nat>

    ghost function Abs(): State
      reads this
    {
      State(calls, tails, entered)
    }

    ghost predicate Valid()
      reads this
    {
      Inv(Abs())
    }

    constructor ()
      ensures Valid() && Abs() == INITIAL
    {
      tails, calls, entered := map[], [], [];
    }

    /** From the call of run up to its await. */
    method BeginRun(key: Key) returns (id: nat)
      requires Valid()
      modifies this
      ensures Valid() && Abs() == Step(old(Abs()), Register(key)) && id == |old(calls)|
    {
      StepKeepsInv(Abs(), Register(key));
      id := |calls|;
      var prev := if key in tails then Some(tails[key]) else None;
      calls := calls + [Call(key, prev, Waiting)];
      tails := tails[key := id];
    }

    /** The await has returned: fn starts. */
    method EnterFn(id: nat)
      requires Valid() && Enabled(Abs(), Enter(id))
      modifies this
      ensures Valid() && Abs() == Step(old(Abs()), Enter(id))
    {
      StepKeepsInv(Abs(), Enter(id));
      calls := calls[id := calls[id].(phase := Inside)];
      entered := entered + [id];
    }

    /** fn has returned or thrown: the finally block. */
    method Finally(id: nat, threw: bool)
      requires Valid() && Enabled(Abs(), Exit(id, threw))
      modifies this
      ensures Valid() && Abs() == Step(old(Abs()), Exit(id, threw))
    {
      StepKeepsInv(Abs(), Exit(id, threw));
      var key := calls[id].key;
      calls := calls[id := calls[id].(phase := Done(threw))];
      if key in tails && tails[key] == id {
        tails := tails - {key};
      }
    }
  }
}
