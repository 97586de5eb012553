/** The resource governor's hysteresis over CPU and memory samples
    (apps/runtime-worker/src/core/governor/resource-governor.ts). */
module Governor {
  import opened Option

  datatype Load = Normal | Warning | Reject

  datatype Sample = Sample(cpu: real, mem: real)

  datatype Thresholds = Thresholds(maxCpu: real, maxMem: real, rejectCpu: real, rejectMem: real)

  const WARN_CLEAR_MARGIN := 5.0
  const REJECT_CLEAR_MARGIN := 3.0

  predicate RejectEnter(s: Sample, t: Thresholds) {
    s.cpu >= t.rejectCpu || s.mem >= t.rejectMem
  }

  predicate RejectExit(s: Sample, t: Thresholds) {
    s.cpu < t.rejectCpu - REJECT_CLEAR_MARGIN && s.mem < t.rejectMem - REJECT_CLEAR_MARGIN
  }

  predicate WarnEnter(s: Sample, t: Thresholds) {
    s.cpu >= t.maxCpu || s.mem >= t.maxMem
  }

  predicate WarnExit(s: Sample, t: Thresholds) {
    s.cpu < t.maxCpu - WARN_CLEAR_MARGIN && s.mem < t.maxMem - WARN_CLEAR_MARGIN
  }

  /** computeGovernorState */
  function Next(s: Sample, t: Thresholds, current: Load): Load {
    match current
    case Reject =>
      if !RejectExit(s, t) then Reject
      else if RejectEnter(s, t) then Reject
      else if WarnEnter(s, t) then Warning else Normal
    case Warning =>
      if RejectEnter(s, t) then Reject else if !WarnExit(s, t) then Warning else Normal
    case Normal =>
      if RejectEnter(s, t) then Reject else if WarnEnter(s, t) then Warning else Normal
  }

  function Level(l: Load): nat {
    match l
    case Normal => 0
    case Warning => 1
    case Reject => 2
  }

  /** From any state, a higher load never leads to a lower state. */
  lemma NextIsMonotone(a: Sample, b: Sample, t: Thresholds, current: Load)
    requires a.cpu <= b.cpu && a.mem <= b.mem
    ensures Level(Next(a, t, current)) <= Level(Next(b, t, current))
  {
    match current
    case Reject => assert RejectExit(b, t) ==> RejectExit(a, t);
    case Warning => assert WarnExit(b, t) ==> WarnExit(a, t);
    case Normal => assert WarnEnter(a, t) ==> WarnEnter(b, t);
  }

  /** Leaving the reject state goes past the hold band of the warning state: the governor ends lower than it
      would from warning exactly when the load is out of the reject band and between the warning limits. */
  lemma RejectSkipsHoldBandIff(s: Sample, t: Thresholds)
    ensures Level(Next(s, t, Reject)) < Level(Next(s, t, Warning))
            <==> RejectExit(s, t) && !WarnEnter(s, t) && !WarnExit(s, t)
    ensures Level(Next(s, t, Normal)) <= Level(Next(s, t, Warning))
  {
    assert RejectExit(s, t) ==> !RejectEnter(s, t);
    assert WarnEnter(s, t) ==> !WarnExit(s, t);
  }

  // ----- Runs of samples -----

  /** The state after the samples so far, starting from normal. */
  function After(t: Thresholds, samples: seq<Sample>): Load {
    if samples == [] then Normal
    else Next(samples[|samples| - 1], t, After(t, samples[..|samples| - 1]))
  }

  /** The states announced on the way. */
  function Announced(t: Thresholds, samples: seq<Sample>): seq<Load> {
    if samples == [] then []
    else
      var front := samples[..|samples| - 1];
      Announced(t, front) + (if After(t, samples) != After(t, front) then [After(t, samples)] else [])
  }

  function Rise(a: real, b: real): real {
    if b > a then b - a else 0.0
  }

  /** Total upward movement of CPU plus memory between successive samples. */
  function UpwardMovement(samples: seq<Sample>): real {
    if |samples| <= 1 then 0.0
    else
      var n := |samples| - 1;
      UpwardMovement(samples[..n])
      + Rise(samples[n - 1].cpu, samples[n].cpu) + Rise(samples[n - 1].mem, samples[n].mem)
  }

  /** Number of moves into the reject state. */
  function RejectEntries(t: Thresholds, samples: seq<Sample>): nat {
    if samples == [] then 0
    else
      var front := samples[..|samples| - 1];
      RejectEntries(t, front) + if After(t, front) != Reject && After(t, samples) == Reject then 1 else 0
  }

  /** Number of moves from normal to warning. */
  function WarnEntries(t: Thresholds, samples: seq<Sample>): nat {
    if samples == [] then 0
    else
      var front := samples[..|samples| - 1];
      WarnEntries(t, front) + if After(t, front) == Normal && After(t, samples) == Warning then 1 else 0
  }

  /** How far a sample is above the limits at which a state is left. */
  function Above(s: Sample, cpu: real, mem: real): real {
    Rise(cpu, s.cpu) + Rise(mem, s.mem)
  }

  function AboveReject(s: Sample, t: Thresholds): real {
    Above(s, t.rejectCpu - REJECT_CLEAR_MARGIN, t.rejectMem - REJECT_CLEAR_MARGIN)
  }

  function AboveWarn(s: Sample, t: Thresholds): real {
    Above(s, t.maxCpu - WARN_CLEAR_MARGIN, t.maxMem - WARN_CLEAR_MARGIN)
  }

  lemma AboveRises(a: Sample, b: Sample, cpu: real, mem: real)
    ensures Above(b, cpu, mem) <= Above(a, cpu, mem) + Rise(a.cpu, b.cpu) + Rise(a.mem, b.mem)
  {
  }

  /** Outside the reject state, the movement also pays for the height above the exit limits. */
  lemma {:induction false} RejectPotential(t: Thresholds, samples: seq<Sample>)
    requires samples != []
    ensures RejectEntries(t, samples) > 0 ==>
              3.0 * (RejectEntries(t, samples) - 1) as real
              + (if After(t, samples) == Reject then 0.0 else AboveReject(samples[|samples| - 1], t))
              <= UpwardMovement(samples)
    ensures UpwardMovement(samples) >= 0.0
    ensures RejectEntries(t, samples) == 0 ==> After(t, samples) != Reject
    decreases |samples|
  {
    var n := |samples| - 1;
    if n > 0 {
      RejectPotential(t, samples[..n]);
      AboveRises(samples[n - 1], samples[n], t.rejectCpu - REJECT_CLEAR_MARGIN, t.rejectMem - REJECT_CLEAR_MARGIN);
    } else {
      assert samples[..n] == [];
    }
  }

  /** Flapping costs movement: three times the number of re-entries into reject is at most the total
      upward movement of the samples. */
  lemma ReentriesAreBounded(t: Thresholds, samples: seq<Sample>)
    ensures 3.0 * (RejectEntries(t, samples) - 1) as real <= UpwardMovement(samples)
  {
    if samples != [] {
      RejectPotential(t, samples);
    }
  }

  /** Whether normal was last reached from warning. */
  predicate CameFromWarning(t: Thresholds, samples: seq<Sample>) {
    if samples == [] then false
    else
      var front := samples[..|samples| - 1];
      if After(t, samples) != Normal then false
      else if After(t, front) == Normal then CameFromWarning(t, front)
      else After(t, front) == Warning
  }

  /** Normal reached from the start or from reject: the next warning needs no movement to speak of. */
  function FreeWarning(t: Thresholds, samples: seq<Sample>): nat {
    if After(t, samples) == Normal && !CameFromWarning(t, samples) then 1 else 0
  }

  lemma {:induction false} WarnPotential(t: Thresholds, samples: seq<Sample>)
    requires samples != []
    ensures 5.0 * (WarnEntries(t, samples) + FreeWarning(t, samples) - 1 - RejectEntries(t, samples)) as real
            + (if CameFromWarning(t, samples) then AboveWarn(samples[|samples| - 1], t) else 0.0)
            + (if After(t, samples) == Reject then 5.0 else 0.0)
            <= UpwardMovement(samples)
    decreases |samples|
  {
    var n := |samples| - 1;
    var front := samples[..n];
    if n > 0 {
      WarnPotential(t, front);
      AboveRises(samples[n - 1], samples[n], t.maxCpu - WARN_CLEAR_MARGIN, t.maxMem - WARN_CLEAR_MARGIN);
    } else {
      assert front == [];
    }
  }

  /** Moves from normal to warning beyond the first and those that follow a stay in reject cost five each. */
  lemma WarningsAreBounded(t: Thresholds, samples: seq<Sample>)
    ensures 5.0 * (WarnEntries(t, samples) - 1 - RejectEntries(t, samples)) as real <= UpwardMovement(samples)
  {
    if samples != [] {
      WarnPotential(t, samples);
      var w: int, e: int := WarnEntries(t, samples), RejectEntries(t, samples);
      assert CameFromWarning(t, samples) ==> AboveWarn(samples[|samples| - 1], t) >= 0.0;
      assert (w + FreeWarning(t, samples) - 1 - e) as real >= (w - 1 - e) as real;
    }
  }

  /** Every announcement is paid for by a rise in level: a drop gives back what a rise paid. */
  lemma {:induction false} AnnouncementsAreRises(t: Thresholds, samples: seq<Sample>)
    ensures |Announced(t, samples)| + Level(After(t, samples)) <= 2 * WarnEntries(t, samples) + 3 * RejectEntries(t, samples)
    decreases |samples|
  {
    if samples != [] {
      AnnouncementsAreRises(t, samples[..|samples| - 1]);
    }
  }

  /** The number of announcements is linear in the upward movement, whatever the thresholds. */
  lemma FlappingIsBounded(t: Thresholds, samples: seq<Sample>)
    ensures 15.0 * |Announced(t, samples)| as real <= 105.0 + 31.0 * UpwardMovement(samples)
  {
    AnnouncementsAreRises(t, samples);
    ReentriesAreBounded(t, samples);
    WarningsAreBounded(t, samples);
    var n: int, w: int, e: int := |Announced(t, samples)|, WarnEntries(t, samples), RejectEntries(t, samples);
    assert n as real <= 2.0 * w as real + 3.0 * e as real;
    assert (w - 1 - e) as real == w as real - 1.0 - e as real;
    assert (e - 1) as real == e as real - 1.0;
  }

  // ----- Listeners -----

  datatype Delivery = Delivery(listener: nat, load: Load)

  datatype Gov = Gov(load: Load, listeners: seq<nat>, delivered: seq<Delivery>)

  /** A tick, whose sample may have failed and some of whose listeners throw, or a change of the listeners. */
  datatype Event = Tick(sample: Option<Sample>, faulty: set<nat>) | Subscribe(id: nat) | Unsubscribe(id: nat)

  /** One emission: a listener that throws has been told, but the loop ends there. */
  function Emit(listeners: seq<nat>, load: Load, faulty: set<nat>): seq<Delivery> {
    if listeners == [] then []
    else [Delivery(listeners[0], load)] + if listeners[0] in faulty then [] else Emit(listeners[1..], load, faulty)
  }

  /** The listener is subscribed and nobody before it throws. */
  ghost predicate Reached(listeners: seq<nat>, faulty: set<nat>, id: nat) {
    exists i :: 0 <= i < |listeners| && listeners[i] == id && forall j :: 0 <= j < i ==> listeners[j] !in faulty
  }

  function Without(listeners: seq<nat>, id: nat): seq<nat> {
    if listeners == [] then []
    else (if listeners[0] == id then [] else [listeners[0]]) + Without(listeners[1..], id)
  }

  function Step(g: Gov, t: Thresholds, e: Event): Gov {
    match e
    case Tick(sample, faulty) =>
      if sample.None? then g
      else
        var next := Next(sample.value, t, g.load);
        if next == g.load then g else Gov(next, g.listeners, g.delivered + Emit(g.listeners, next, faulty))
    case Subscribe(id) => if id in g.listeners then g else g.(listeners := g.listeners + [id])
    case Unsubscribe(id) => g.(listeners := Without(g.listeners, id))
  }

  function Run(g: Gov, t: Thresholds, events: seq<Event>): Gov
    decreases |events|
  {
    if events == [] then g else Step(Run(g, t, events[..|events| - 1]), t, events[|events| - 1])
  }

  const START := Gov(Normal, [], [])

  function Samples(events: seq<Event>): seq<Sample> {
    if events == [] then []
    else
      var e := events[|events| - 1];
      Samples(events[..|events| - 1]) + (if e.Tick? && e.sample.Some? then [e.sample.value] else [])
  }

  /** What one listener has been told. */
  function Seen(delivered: seq<Delivery>, id: nat): seq<Load> {
    if delivered == [] then []
    else
      var n := |delivered| - 1;
      Seen(delivered[..n], id) + (if delivered[n].listener == id then [delivered[n].load] else [])
  }

  predicate NoRepeats(loads: seq<Load>) {
    forall i :: 0 < i < |loads| ==> loads[i - 1] != loads[i]
  }

  predicate Unique(ids: seq<nat>) {
    forall i, j :: 0 <= i < j < |ids| ==> ids[i] != ids[j]
  }

  lemma AfterSnoc(t: Thresholds, samples: seq<Sample>, s: Sample)
    ensures After(t, samples + [s]) == Next(s, t, After(t, samples))
  {
    assert (samples + [s])[..|samples|] == samples;
  }

  lemma StepLoad(g: Gov, t: Thresholds, e: Event)
    ensures Step(g, t, e).load == if e.Tick? && e.sample.Some? then Next(e.sample.value, t, g.load) else g.load
  {
  }

  lemma {:induction false} RunFollowsSamples(t: Thresholds, events: seq<Event>)
    ensures Run(START, t, events).load == After(t, Samples(events))
    decreases |events|
  {
    if events != [] {
      var front, e := events[..|events| - 1], events[|events| - 1];
      RunFollowsSamples(t, front);
      StepLoad(Run(START, t, front), t, e);
      if e.Tick? && e.sample.Some? {
        AfterSnoc(t, Samples(front), e.sample.value);
      } else {
        assert Samples(events) == Samples(front);
      }
    }
  }

  lemma {:induction false} SeenAppend(xs: seq<Delivery>, ys: seq<Delivery>, id: nat)
    ensures Seen(xs + ys, id) == Seen(xs, id) + Seen(ys, id)
    decreases |ys|
  {
    if ys == [] {
      assert xs + ys == xs;
    } else {
      assert (xs + ys)[..|xs + ys| - 1] == xs + ys[..|ys| - 1];
      SeenAppend(xs, ys[..|ys| - 1], id);
    }
  }

  lemma SeenOne(d: Delivery, id: nat)
    ensures Seen([d], id) == if d.listener == id then [d.load] else []
  {
    assert [d][..0] == [];
  }

  lemma ReachedStep(listeners: seq<nat>, faulty: set<nat>, id: nat)
    requires listeners != [] && listeners[0] != id
    ensures Reached(listeners, faulty, id) <==> listeners[0] !in faulty && Reached(listeners[1..], faulty, id)
  {
    var rest := listeners[1..];
    if Reached(listeners, faulty, id) {
      var i :| 0 <= i < |listeners| && listeners[i] == id && forall j :: 0 <= j < i ==> listeners[j] !in faulty;
      assert rest[i - 1] == id && forall j :: 0 <= j < i - 1 ==> rest[j] == listeners[j + 1];
    }
    if listeners[0] !in faulty && Reached(rest, faulty, id) {
      var i :| 0 <= i < |rest| && rest[i] == id && forall j :: 0 <= j < i ==> rest[j] !in faulty;
      assert listeners[i + 1] == id && forall j :: 1 <= j < i + 1 ==> listeners[j] == rest[j - 1];
    }
  }

  lemma ReachedFirst(listeners: seq<nat>, faulty: set<nat>)
    requires listeners != [] && Unique(listeners)
    ensures Reached(listeners, faulty, listeners[0])
    ensures !Reached(listeners[1..], faulty, listeners[0])
  {
    var rest := listeners[1..];
    assert forall i :: 0 <= i < |rest| ==> rest[i] == listeners[i + 1];
  }

  lemma UniqueTail(ids: seq<nat>)
    requires ids != [] && Unique(ids)
    ensures Unique(ids[1..])
  {
  }

  lemma SeenCons(d: Delivery, rest: seq<Delivery>, id: nat)
    ensures Seen([d] + rest, id) == (if d.listener == id then [d.load] else []) + Seen(rest, id)
  {
    SeenAppend([d], rest, id);
    SeenOne(d, id);
  }

  /** One emission tells a listener exactly once if it is reached, and otherwise not at all. */
  lemma {:induction false} EmitOnce(listeners: seq<nat>, load: Load, faulty: set<nat>, id: nat)
    requires Unique(listeners)
    ensures Seen(Emit(listeners, load, faulty), id) == if Reached(listeners, faulty, id) then [load] else []
  {
    if listeners != [] {
      var first, rest := listeners[0], listeners[1..];
      UniqueTail(listeners);
      EmitOnce(rest, load, faulty, id);
      SeenCons(Delivery(first, load), if first in faulty then [] else Emit(rest, load, faulty), id);
      if first == id {
        ReachedFirst(listeners, faulty);
      } else {
        ReachedStep(listeners, faulty, id);
      }
    }
  }

  lemma {:induction false} WithoutKeeps(ids: seq<nat>, id: nat)
    requires Unique(ids)
    ensures Unique(Without(ids, id))
    ensures forall x :: x in Without(ids, id) <==> x in ids && x != id
  {
    if ids != [] {
      var rest := ids[1..];
      assert forall i :: 0 <= i < |rest| ==> rest[i] == ids[i + 1];
      WithoutKeeps(rest, id);
      assert ids[0] !in rest;
      assert forall x :: x in ids <==> x == ids[0] || x in rest;
    }
  }

  lemma StepKeepsUnique(g: Gov, t: Thresholds, e: Event)
    requires Unique(g.listeners)
    ensures Unique(Step(g, t, e).listeners)
  {
    if e.Unsubscribe? {
      WithoutKeeps(g.listeners, e.id);
    }
  }

  /** The sample of the tick changes the state. */
  predicate Changes(g: Gov, t: Thresholds, e: Event) {
    e.Tick? && e.sample.Some? && Next(e.sample.value, t, g.load) != g.load
  }

  /** The states entered in a run from g. */
  function Entered(g: Gov, t: Thresholds, events: seq<Event>): seq<Load>
    decreases |events|
  {
    if events == [] then []
    else
      var front, e := events[..|events| - 1], events[|events| - 1];
      Entered(g, t, front) + (if Changes(Run(g, t, front), t, e) then [Run(g, t, events).load] else [])
  }

  /** Every emission of the run reaches the listener. */
  ghost predicate AlwaysReached(g: Gov, t: Thresholds, events: seq<Event>, id: nat)
    decreases |events|
  {
    events == []
    || var front, e := events[..|events| - 1], events[|events| - 1];
       && AlwaysReached(g, t, front, id)
       && (Changes(Run(g, t, front), t, e) ==> Reached(Run(g, t, front).listeners, e.faulty, id))
  }

  /** What the listener is told in a run from g. */
  ghost function Told(g: Gov, t: Thresholds, events: seq<Event>, id: nat): seq<Load>
    decreases |events|
  {
    if events == [] then []
    else
      var front, e := events[..|events| - 1], events[|events| - 1];
      var before := Run(g, t, front);
      Told(g, t, front, id)
      + (if Changes(before, t, e) && Reached(before.listeners, e.faulty, id) then [Run(g, t, events).load] else [])
  }

  lemma {:induction false} RunKeepsUnique(g: Gov, t: Thresholds, events: seq<Event>)
    requires Unique(g.listeners)
    ensures Unique(Run(g, t, events).listeners)
    decreases |events|
  {
    if events != [] {
      RunKeepsUnique(g, t, events[..|events| - 1]);
      StepKeepsUnique(Run(g, t, events[..|events| - 1]), t, events[|events| - 1]);
    }
  }

  lemma EmitTells(delivered: seq<Delivery>, listeners: seq<nat>, load: Load, faulty: set<nat>, id: nat)
    requires Unique(listeners)
    ensures Seen(delivered + Emit(listeners, load, faulty), id)
            == Seen(delivered, id) + if Reached(listeners, faulty, id) then [load] else []
  {
    EmitOnce(listeners, load, faulty, id);
    SeenAppend(delivered, Emit(listeners, load, faulty), id);
  }

  lemma StepTells(g: Gov, t: Thresholds, e: Event, id: nat)
    requires Unique(g.listeners)
    ensures Seen(Step(g, t, e).delivered, id)
            == Seen(g.delivered, id)
               + if Changes(g, t, e) && Reached(g.listeners, e.faulty, id) then [Step(g, t, e).load] else []
  {
    if Changes(g, t, e) {
      EmitTells(g.delivered, g.listeners, Next(e.sample.value, t, g.load), e.faulty, id);
    } else {
      assert Step(g, t, e).delivered == g.delivered;
    }
  }

  lemma {:induction false} SeenIsTold(g: Gov, t: Thresholds, events: seq<Event>, id: nat)
    requires Unique(g.listeners)
    ensures Seen(Run(g, t, events).delivered, id) == Seen(g.delivered, id) + Told(g, t, events, id)
    decreases |events|
  {
    if events != [] {
      var front, e := events[..|events| - 1], events[|events| - 1];
      SeenIsTold(g, t, front, id);
      RunKeepsUnique(g, t, front);
      StepTells(Run(g, t, front), t, e, id);
    }
  }

  lemma {:induction false} MissingIsShorter(g: Gov, t: Thresholds, events: seq<Event>, id: nat)
    ensures |Told(g, t, events, id)| <= |Entered(g, t, events)|
    ensures AlwaysReached(g, t, events, id) ==> Told(g, t, events, id) == Entered(g, t, events)
    ensures !AlwaysReached(g, t, events, id) ==> |Told(g, t, events, id)| < |Entered(g, t, events)|
    decreases |events|
  {
    if events != [] {
      MissingIsShorter(g, t, events[..|events| - 1], id);
    }
  }

  /** What a listener hears of a run that starts in g is every state entered, in order and each once, if and only
      if every emission reached it: the first listener that throws cuts off the ones behind it. */
  lemma ListenersHearAllIff(g: Gov, t: Thresholds, events: seq<Event>, id: nat)
    requires Unique(g.listeners)
    ensures Seen(Run(g, t, events).delivered, id) == Seen(g.delivered, id) + Entered(g, t, events)
            <==> AlwaysReached(g, t, events, id)
  {
    SeenIsTold(g, t, events, id);
    MissingIsShorter(g, t, events, id);
  }

  lemma {:induction false} EnteredDoNotRepeat(g: Gov, t: Thresholds, events: seq<Event>)
    ensures var states := [g.load] + Entered(g, t, events);
            NoRepeats(states) && states[|states| - 1] == Run(g, t, events).load
    decreases |events|
  {
    if events != [] {
      var front, e := events[..|events| - 1], events[|events| - 1];
      EnteredDoNotRepeat(g, t, front);
      StepLoad(Run(g, t, front), t, e);
      if Changes(Run(g, t, front), t, e) {
        assert [g.load] + Entered(g, t, events) == [g.load] + Entered(g, t, front) + [Run(g, t, events).load];
      } else {
        assert Entered(g, t, events) == Entered(g, t, front);
      }
    }
  }

  /** So a listener that is always reached never hears a state twice in a row, first hears a state other than the
      one the run started in, and has last heard the current one. */
  lemma ListenersHearNoRepeats(g: Gov, t: Thresholds, events: seq<Event>, id: nat)
    requires Unique(g.listeners) && AlwaysReached(g, t, events, id)
    ensures Seen(g.delivered, id) <= Seen(Run(g, t, events).delivered, id)
    ensures var heard := [g.load] + Seen(Run(g, t, events).delivered, id)[|Seen(g.delivered, id)|..];
            NoRepeats(heard) && heard[|heard| - 1] == Run(g, t, events).load
  {
    ListenersHearAllIff(g, t, events, id);
    EnteredDoNotRepeat(g, t, events);
    assert (Seen(g.delivered, id) + Entered(g, t, events))[|Seen(g.delivered, id)|..] == Entered(g, t, events);
  }

  /** The listener that has been subscribed longest is always reached, whoever throws. */
  lemma {:induction false} FirstIsAlwaysReached(g: Gov, t: Thresholds, events: seq<Event>, id: nat)
    requires g.listeners != [] && g.listeners[0] == id
    requires Unsubscribe(id) !in events
    ensures Run(g, t, events).listeners != [] && Run(g, t, events).listeners[0] == id
    ensures AlwaysReached(g, t, events, id)
    decreases |events|
  {
    if events != [] {
      var front, e := events[..|events| - 1], events[|events| - 1];
      FirstIsAlwaysReached(g, t, front, id);
      assert e in events;
      assert e.Unsubscribe? ==> e.id != id;
    }
  }

  lemma RunSnoc(g: Gov, t: Thresholds, events: seq<Event>, e: Event)
    ensures Run(g, t, events + [e]) == Step(Run(g, t, events), t, e)
  {
    assert (events + [e])[..|events|] == events;
  }

  lemma ReachedOfTwo(first: nat, second: nat, faulty: set<nat>)
    requires first != second
    ensures Reached([first, second], faulty, second) <==> first !in faulty
  {
    var listeners := [first, second];
    assert listeners[0] == first && listeners[1] == second;
    if Reached(listeners, faulty, second) {
      var i :| 0 <= i < |listeners| && listeners[i] == second && forall j :: 0 <= j < i ==> listeners[j] !in faulty;
      assert i == 1;
    }
  }

  lemma ChangeTellsSecond(g: Gov, t: Thresholds, sample: Sample, faulty: set<nat>, first: nat, second: nat)
    requires g.listeners == [first, second] && first != second
    requires Next(sample, t, g.load) != g.load
    ensures var h := Step(g, t, Tick(Some(sample), faulty));
            && h.load == Next(sample, t, g.load) && h.listeners == g.listeners
            && Seen(h.delivered, second) == Seen(g.delivered, second) + if first in faulty then [] else [h.load]
  {
    ReachedOfTwo(first, second, faulty);
    StepTells(g, t, Tick(Some(sample), faulty), second);
  }

  lemma RunThree(g: Gov, t: Thresholds, a: Event, b: Event, c: Event)
    ensures Run(g, t, [a, b, c]) == Step(Step(Step(g, t, a), t, b), t, c)
  {
    RunSnoc(g, t, [a] + [b], c);
    RunSnoc(g, t, [a], b);
    assert [a][..0] == [] && Run(g, t, [a]) == Step(g, t, a);
    assert [a] + [b] + [c] == [a, b, c];
    assert Run(g, t, [a] + [b]) == Step(Step(g, t, a), t, b);
    assert Run(g, t, [a] + [b] + [c]) == Step(Step(Step(g, t, a), t, b), t, c);
  }

  /** When the first of two listeners throws once, the second can hear the same state twice in a row. */
  lemma CutOffListenerHearsARepeat(g: Gov, t: Thresholds, high: Sample, low: Sample, first: nat, second: nat)
    requires g.load == Normal && g.listeners == [first, second] && first != second
    requires Next(high, t, Normal) == Warning && Next(low, t, Warning) == Normal
    ensures var events := [Tick(Some(high), {}), Tick(Some(low), {first}), Tick(Some(high), {})];
            Seen(Run(g, t, events).delivered, second) == Seen(g.delivered, second) + [Warning] + [Warning]
  {
    var up, down := Tick(Some(high), {}), Tick(Some(low), {first});
    var one := Step(g, t, up);
    var two := Step(one, t, down);
    ChangeTellsSecond(g, t, high, {}, first, second);
    ChangeTellsSecond(one, t, low, {first}, first, second);
    ChangeTellsSecond(two, t, high, {}, first, second);
    RunThree(g, t, up, down, up);
  }

  lemma EmitStep(listeners: seq<nat>, i: nat, load: Load, faulty: set<nat>, front: seq<Delivery>)
    requires i < |listeners|
    ensures front + Emit(listeners[i..], load, faulty)
            == (front + [Delivery(listeners[i], load)])
               + if listeners[i] in faulty then [] else Emit(listeners[i + 1..], load, faulty)
  {
    assert listeners[i..][1..] == listeners[i + 1..];
  }

  class ResourceGovernor {
    const thresholds: Thresholds
    var load: Load
    var listeners: seq<nat>
    var delivered: seq<Delivery>

    ghost function Abs(): Gov
      reads this
    {
      Gov(load, listeners, delivered)
    }

    ghost predicate Valid()
      reads this
    {
      Unique(listeners)
    }

    constructor (thresholds: Thresholds)
      ensures Valid() && Abs() == START && this.thresholds == thresholds
    {
      this.thresholds := thresholds;
      load, listeners, delivered := Normal, [], [];
    }

    method OnStateChange(id: nat)
      requires Valid()
      modifies this
      ensures Valid() && Abs() == Step(old(Abs()), thresholds, Subscribe(id))
    {
      if id !in listeners {
        listeners := listeners + [id];
      }
    }

    method Remove(id: nat)
      requires Valid()
      modifies this
      ensures Valid() && Abs() == Step(old(Abs()), thresholds, Unsubscribe(id))
    {
      WithoutKeeps(listeners, id);
      listeners := Without(listeners, id);
    }

    /** for (const listener of this.listeners) listener(next); a listener that throws ends the loop. */
    method EmitAll(next: Load, faulty: set<nat>)
      modifies this`delivered
      ensures delivered == old(delivered) + Emit(listeners, next, faulty)
    {
      var i := 0;
      while i < |listeners|
        invariant 0 <= i <= |listeners|
        invariant delivered + Emit(listeners[i..], next, faulty) == old(delivered) + Emit(listeners, next, faulty)
      {
        EmitStep(listeners, i, next, faulty, delivered);
        delivered := delivered + [Delivery(listeners[i], next)];
        if listeners[i] in faulty {
          return;
        }
        i := i + 1;
      }
    }

    /** One sampling cycle; a sampler that throws leaves everything as it was, and a listener that throws ends the
        cycle after the state has changed. */
    method Tick(sample: Option<Sample>, faulty: set<nat>)
      requires Valid()
      modifies this`load, this`delivered
      ensures Valid() && Abs() == Step(old(Abs()), thresholds, Event.Tick(sample, faulty))
    {
      if sample.None? {
        return;
      }
      var next := Next(sample.value, thresholds, load);
      if next != load {
        load := next;
        EmitAll(next, faulty);
      }
    }
  }
}
