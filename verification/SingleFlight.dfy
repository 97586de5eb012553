/** Two "dirty flag and in-flight flag" loops of the editor extension: the metrics refresh
    (apps/vscode-extension/src/extension/filesystem/FileWatcherService.ts) and the background services that follow
    visibility and workspace folder (apps/vscode-extension/src/extension/extension.ts). Each step is the code
    that runs between two awaits. */
module SingleFlight {
  import opened Option

  // ===== The refresh loop =====

  /** What a run leaves behind: calls of refresh, and starts and ends of passes. */
  datatype Mark = Requested | Started | Ended

  datatype State = State(queued: bool, inFlight: bool, log: seq<Mark>)

  /** A pass returns also when its own work fails, which it reports and swallows; an error that escapes it leaves
      the loop through its finally block. */
  datatype Event = Request | PassReturns | PassThrows

  predicate Enabled(s: State, e: Event) {
    e == Request || s.inFlight
  }

  function Step(s: State, e: Event): State {
    match e
    case Request =>
      if s.inFlight then State(true, true, s.log + [Requested]) else State(false, true, s.log + [Requested] + [Started])
    case PassReturns =>
      if s.queued then State(false, true, s.log + [Ended] + [Started]) else State(false, false, s.log + [Ended])
    case PassThrows => State(s.queued, false, s.log + [Ended])
  }

  const IDLE := State(false, false, [])

  function Run(s: State, events: seq<Event>): Option<State>
    decreases |events|
  {
    if events == [] then Some(s)
    else if Enabled(s, events[0]) then Run(Step(s, events[0]), events[1..])
    else None
  }

  function Count(log: seq<Mark>, m: Mark): nat {
    if log == [] then 0 else Count(log[..|log| - 1], m) + if log[|log| - 1] == m then 1 else 0
  }

  /** At every moment of the run at most one pass is under way. */
  ghost predicate NoOverlap(log: seq<Mark>) {
    forall n :: 0 <= n <= |log| ==> 0 <= Count(log[..n], Started) - Count(log[..n], Ended) <= 1
  }

  /** Some pass starts after the request at position i. */
  ghost predicate ServedAfter(log: seq<Mark>, i: nat) {
    exists j :: i < j < |log| && log[j] == Started
  }

  ghost predicate AllServed(log: seq<Mark>) {
    forall i :: 0 <= i < |log| && log[i] == Requested ==> ServedAfter(log, i)
  }

  ghost predicate Inv(s: State) {
    && (s.queued <==> !AllServed(s.log))
    && Count(s.log, Started) - Count(s.log, Ended) == (if s.inFlight then 1 else 0)
    && NoOverlap(s.log)
    && Count(s.log, Started) + (if s.queued then 1 else 0) <= Count(s.log, Requested)
  }

  lemma CountAppend(log: seq<Mark>, x: Mark, m: Mark)
    ensures Count(log + [x], m) == Count(log, m) + if x == m then 1 else 0
  {
    assert (log + [x])[..|log|] == log;
  }

  lemma NoOverlapAppend(log: seq<Mark>, x: Mark)
    requires NoOverlap(log)
    requires 0 <= Count(log + [x], Started) - Count(log + [x], Ended) <= 1
    ensures NoOverlap(log + [x])
  {
    forall n | 0 <= n <= |log| + 1
      ensures 0 <= Count((log + [x])[..n], Started) - Count((log + [x])[..n], Ended) <= 1
    {
      if n <= |log| {
        assert (log + [x])[..n] == log[..n];
      } else {
        assert (log + [x])[..n] == log + [x];
      }
    }
  }

  lemma ServedAppend(log: seq<Mark>, x: Mark)
    ensures x == Started ==> AllServed(log + [x])
    ensures x == Requested ==> !AllServed(log + [x])
    ensures x == Ended ==> (AllServed(log + [x]) <==> AllServed(log))
  {
    var after := log + [x];
    if x == Started {
      assert after[|log|] == Started;
    } else if x == Requested {
      assert after[|log|] == Requested && !ServedAfter(after, |log|);
    } else {
      forall i | 0 <= i < |log| ensures ServedAfter(after, i) <==> ServedAfter(log, i) {
        if j :| i < j < |log| && log[j] == Started {
          assert after[j] == Started;
        }
      }
      assert forall i :: 0 <= i < |log| ==> after[i] == log[i];
      if AllServed(after) {
        forall i | 0 <= i < |log| && log[i] == Requested ensures ServedAfter(log, i) {
          assert after[i] == Requested;
        }
      }
    }
  }

  lemma AppendOne(log: seq<Mark>, x: Mark)
    ensures forall m :: Count(log + [x], m) == Count(log, m) + if x == m then 1 else 0
    ensures NoOverlap(log) && 0 <= Count(log + [x], Started) - Count(log + [x], Ended) <= 1 ==> NoOverlap(log + [x])
  {
    forall m ensures Count(log + [x], m) == Count(log, m) + if x == m then 1 else 0 {
      CountAppend(log, x, m);
    }
    if NoOverlap(log) && 0 <= Count(log + [x], Started) - Count(log + [x], Ended) <= 1 {
      NoOverlapAppend(log, x);
    }
  }

  lemma RequestedKeepsInv(s: State)
    requires Inv(s)
    ensures Inv(State(true, s.inFlight, s.log + [Requested]))
  {
    AppendOne(s.log, Requested);
    ServedAppend(s.log, Requested);
  }

  lemma StartedKeepsInv(s: State)
    requires Inv(s) && s.queued && !s.inFlight
    ensures Inv(State(false, true, s.log + [Started]))
  {
    AppendOne(s.log, Started);
    ServedAppend(s.log, Started);
  }

  lemma EndedKeepsInv(s: State)
    requires Inv(s) && s.inFlight
    ensures Inv(State(s.queued, false, s.log + [Ended]))
  {
    AppendOne(s.log, Ended);
    ServedAppend(s.log, Ended);
  }

  lemma StepKeepsInv(s: State, e: Event)
    requires Inv(s) && Enabled(s, e)
    ensures Inv(Step(s, e))
  {
    match e
    case Request =>
      RequestedKeepsInv(s);
      if !s.inFlight {
        StartedKeepsInv(State(true, false, s.log + [Requested]));
      }
    case PassReturns =>
      EndedKeepsInv(s);
      if s.queued {
        StartedKeepsInv(State(true, false, s.log + [Ended]));
      }
    case PassThrows => EndedKeepsInv(s);
  }

  lemma {:induction false} RunKeepsInv(s: State, events: seq<Event>)
    requires Inv(s) && Run(s, events).Some?
    ensures Inv(Run(s, events).value)
    decreases |events|
  {
    if events != [] {
      StepKeepsInv(s, events[0]);
      RunKeepsInv(Step(s, events[0]), events[1..]);
    }
  }

  /** In every run passes never overlap and are no more than the requests; and at rest every request has been
      followed by a pass that started after it exactly when the dirty flag is down. */
  lemma RefreshIsSingleFlight(events: seq<Event>)
    requires Run(IDLE, events).Some?
    ensures var s := Run(IDLE, events).value;
            && NoOverlap(s.log)
            && Count(s.log, Started) <= Count(s.log, Requested)
            && (AllServed(s.log) <==> !s.queued)
  {
    RunKeepsInv(IDLE, events);
  }

  lemma {:induction false} NoThrowNoRest(s: State, events: seq<Event>)
    requires Run(s, events).Some? && PassThrows !in events
    requires s.queued ==> s.inFlight
    ensures var t := Run(s, events).value; t.queued ==> t.inFlight
    decreases |events|
  {
    if events != [] {
      NoThrowNoRest(Step(s, events[0]), events[1..]);
    }
  }

  /** No lost request: when no pass throws, a loop at rest has served every request. */
  lemma RefreshLosesNothing(events: seq<Event>)
    requires Run(IDLE, events).Some? && PassThrows !in events
    requires !Run(IDLE, events).value.inFlight
    ensures AllServed(Run(IDLE, events).value.log)
  {
    RefreshIsSingleFlight(events);
    NoThrowNoRest(IDLE, events);
  }

  /** Two passes that return bring any run to rest with everything served. */
  lemma RefreshSettles(events: seq<Event>)
    requires Run(IDLE, events).Some?
    requires Run(IDLE, events).value.inFlight
    ensures var s := Run(IDLE, events).value;
            var one := Step(s, PassReturns);
            var t := if one.inFlight then Step(one, PassReturns) else one;
            !t.inFlight && AllServed(t.log)
  {
    RunKeepsInv(IDLE, events);
    var s := Run(IDLE, events).value;
    StepKeepsInv(s, PassReturns);
    if Step(s, PassReturns).inFlight {
      StepKeepsInv(Step(s, PassReturns), PassReturns);
    }
  }

  /** The finally block of refresh does not look at the dirty flag. A pass catches every failure of its own work,
      so this event is only an error that escapes from an event emitter or from the logger: then the loop comes
      to rest with every request served if and only if none was queued during the pass. */
  lemma ThrowServesIff(s: State)
    requires Inv(s) && s.inFlight
    ensures !Step(s, PassThrows).inFlight
    ensures AllServed(Step(s, PassThrows).log) <==> !s.queued
  {
    EndedKeepsInv(s);
  }

  /** In that state the next request, whoever makes it, serves the forgotten ones too. */
  lemma NextRequestServesAll(s: State)
    requires Inv(s) && !s.inFlight
    ensures AllServed(Step(s, Request).log)
  {
    ServedAppend(s.log + [Requested], Started);
  }

  class FileWatcherService {
    var refreshQueued: bool
    var refreshInFlight: bool
    ghost var log: seq<Mark>

    ghost function Abs(): State
      reads this
    {
      State(refreshQueued, refreshInFlight, log)
    }

    ghost predicate Valid()
      reads this
    {
      Inv(Abs())
    }

    constructor ()
      ensures Valid() && Abs() == IDLE
    {
      refreshQueued, refreshInFlight, log := false, false, [];
    }

    /** The call of refresh, up to its return or to the await of its first pass. */
    method Refresh()
      requires Valid()
      modifies this
      ensures Valid() && Abs() == Step(old(Abs()), Request)
    {
      StepKeepsInv(Abs(), Request);
      refreshQueued := true;
      log := log + [Requested];
      if refreshInFlight {
        return;
      }
      refreshInFlight := true;
      refreshQueued := false;
      log := log + [Started];
    }

    /** A pass has returned or thrown: back in the loop, or through the finally block. */
    method PassEnds(threw: bool)
      requires Valid() && refreshInFlight
      modifies this
      ensures Valid() && Abs() == Step(old(Abs()), if threw then PassThrows else PassReturns)
    {
      StepKeepsInv(Abs(), if threw then PassThrows else PassReturns);
      log := log + [Ended];
      if !threw && refreshQueued {
        refreshQueued := false;
        log := log + [Started];
      } else {
        refreshInFlight := false;
      }
    }
  }

  // ===== The background services =====

  /** What the services should follow. */
  datatype Wanted = Wanted(visible: bool, folder: Option<string>)

  datatype Services = Services(pinging: bool, watching: Option<string>)

  datatype Sync = Sync(queued: bool, inFlight: bool, wanted: Wanted, services: Services)

  datatype SyncEvent = Change(wanted: Wanted) | RefreshReturns | RefreshThrows

  function Target(w: Wanted): Services {
    if w.visible then Services(true, w.folder) else Services(false, None)
  }

  /** One turn of the loop awaits a refresh only when something is visible and there is a folder. */
  predicate Awaits(w: Wanted) {
    w.visible && w.folder.Some?
  }

  predicate SyncEnabled(s: Sync, e: SyncEvent) {
    e.Change? || s.inFlight
  }

  /** The turns of the loop up to the next await or its end. */
  function Turn(wanted: Wanted): Sync {
    Sync(false, Awaits(wanted), wanted, Target(wanted))
  }

  function SyncStep(s: Sync, e: SyncEvent): Sync {
    match e
    case Change(w) => if s.inFlight then s.(queued := true, wanted := w) else Turn(w)
    case RefreshReturns => if s.queued then Turn(s.wanted) else s.(inFlight := false)
    case RefreshThrows => if s.queued then Turn(s.wanted) else s.(inFlight := false)
  }

  function SyncRun(s: Sync, events: seq<SyncEvent>): Option<Sync>
    decreases |events|
  {
    if events == [] then Some(s)
    else if SyncEnabled(s, events[0]) then SyncRun(SyncStep(s, events[0]), events[1..])
    else None
  }

  const QUIET := Sync(false, false, Wanted(false, None), Services(false, None))

  ghost predicate SyncInv(s: Sync) {
    && (!s.queued ==> s.services == Target(s.wanted))
    && (!s.inFlight ==> !s.queued)
  }

  lemma {:induction false} SyncRunKeepsInv(s: Sync, events: seq<SyncEvent>)
    requires SyncInv(s) && SyncRun(s, events).Some?
    ensures SyncInv(SyncRun(s, events).value)
    decreases |events|
  {
    if events != [] {
      SyncRunKeepsInv(SyncStep(s, events[0]), events[1..]);
    }
  }

  /** After any run, with refreshes returning or throwing, services at rest match the latest visibility and folder. */
  lemma ServicesFollowTheLatestChange(events: seq<SyncEvent>)
    requires SyncRun(QUIET, events).Some?
    ensures var s := SyncRun(QUIET, events).value;
            !s.inFlight ==> s.services == Target(s.wanted)
  {
    SyncRunKeepsInv(QUIET, events);
  }

  class BackgroundSync {
    var queued: bool
    var inFlight: bool
    var visible: bool
    var currentFolder: Option<string>
    var pinging: bool
    var watching: Option<string>

    ghost function Abs(): Sync
      reads this
    {
      Sync(queued, inFlight, Wanted(visible, currentFolder), Services(pinging, watching))
    }

    ghost predicate Valid()
      reads this
    {
      SyncInv(Abs())
    }

    constructor ()
      ensures Valid() && Abs() == QUIET
    {
      queued, inFlight, visible, pinging := false, false, false, false;
      currentFolder, watching := None, None;
    }

    /** The while loop up to the await of a refresh, or up to its end. */
    method Loop() returns (awaiting: bool)
      modifies this
      ensures visible == old(visible) && currentFolder == old(currentFolder) && inFlight == old(inFlight) && !queued
      ensures if old(queued) then Services(pinging, watching) == Target(Wanted(visible, currentFolder))
              else Services(pinging, watching) == old(Services(pinging, watching))
      ensures awaiting == (old(queued) && Awaits(Wanted(visible, currentFolder)))
    {
      awaiting := false;
      while queued
        invariant visible == old(visible) && currentFolder == old(currentFolder) && inFlight == old(inFlight)
        invariant queued ==> Services(pinging, watching) == old(Services(pinging, watching)) && old(queued)
        invariant !queued && old(queued) ==>
                    && Services(pinging, watching) == Target(Wanted(visible, currentFolder))
                    && !Awaits(Wanted(visible, currentFolder))
        invariant !old(queued) ==> Services(pinging, watching) == old(Services(pinging, watching))
        decreases queued
      {
        queued := false;
        if !visible {
          watching := None;
          pinging := false;
          continue;
        }
        pinging := true;
        if currentFolder.Some? {
          watching := currentFolder;
          return true;
        } else {
          watching := None;
        }
      }
    }

    /** A change of visibility or folder, followed by syncBackgroundWork up to its return or first await. */
    method ApplyChange(w: Wanted)
      requires Valid()
      modifies this
      ensures Valid() && Abs() == SyncStep(old(Abs()), Change(w))
    {
      visible, currentFolder := w.visible, w.folder;
      queued := true;
      if inFlight {
        return;
      }
      inFlight := true;
      var awaiting := Loop();
      inFlight := awaiting;
    }

    /** The awaited refresh has ended; a throw goes through the finally block, which starts over when a change is
        queued. */
    method RefreshEnds(threw: bool)
      requires Valid() && inFlight
      modifies this
      ensures Valid() && Abs() == SyncStep(old(Abs()), if threw then RefreshThrows else RefreshReturns)
    {
      if threw {
        inFlight := false;
        if queued {
          queued, inFlight := true, true;
          var awaiting := Loop();
          inFlight := awaiting;
        }
      } else {
        var awaiting := Loop();
        inFlight := awaiting;
      }
    }
  }
}
