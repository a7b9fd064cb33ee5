/** The backend's supervision of the collector process. Handlers, exit watchers and
    restart timers change the server's fields under one mutex; stopping a collector
    releases that mutex in the middle while it waits for the process to go. Each step
    below is one critical section, so a stop is two of them. */
module Supervisor {
  import opened Text

  datatype Connection = Stopped | Stopping | Starting | RestartWait | Failing

  /** What a request does once its stop is over. */
  datatype Goal = Return | StartAgain

  /** A request inside the unlocked window, waiting for a process to go. */
  datatype Stop = Stop(child: nat, goal: Goal)

  /** cmd is the tracked child. live holds every child that was started and whose exit
      has not been seen; signalled those a stop has addressed; displaced those that a
      restart request replaced without stopping them. */
  datatype Server = Server(recording: bool, autoRestart: bool, cmd: Option<nat>, stopRequested: bool,
                           autoRestarting: bool, connection: Connection, restartCount: nat,
                           stops: map<nat, Stop>, timers: nat, requests: nat, children: nat,
                           live: set<nat>, signalled: set<nat>, displaced: set<nat>)

  datatype Event =
    | PutConfig(recording: bool, autoRestart: bool)
    | StartRequest(spawnOk: bool)
    | StopRequest
    | RestartRequest(spawnOk: bool)
    | StopEnds(request: nat, spawnOk: bool)
    | ChildExits(child: nat, clean: bool)
    | TimerFires(spawnOk: bool)

  function Fresh(recording: bool, autoRestart: bool): Server {
    Server(recording, autoRestart, None, false, false, Stopped, 0, map[], 0, 0, 0, {}, {}, {})
  }

  /** Refused while recording is off; spawning may also fail on its own. */
  function StartChild(s: Server, isRestart: bool, spawnOk: bool): Server {
    if !s.recording || !spawnOk then s
    else s.(cmd := Some(s.children), connection := Starting, autoRestarting := false, stopRequested := false,
            restartCount := if isRestart then s.restartCount + 1 else s.restartCount,
            children := s.children + 1, live := s.live + {s.children},
            displaced := if s.cmd.Some? then s.displaced + {s.cmd.value} else s.displaced)
  }

  predicate Started(s: Server, spawnOk: bool) { s.recording && spawnOk }

  function StopCollector(s: Server, goal: Goal): Server {
    if s.cmd.None? then s.(connection := Stopped, stopRequested := true, autoRestarting := false)
    else s.(connection := Stopping, stopRequested := true, autoRestarting := false,
            stops := s.stops[s.requests := Stop(s.cmd.value, goal)], requests := s.requests + 1,
            signalled := s.signalled + {s.cmd.value})
  }

  function FinishStop(s: Server, request: nat): Server
    requires request in s.stops
  {
    s.(cmd := if s.cmd == Some(s.stops[request].child) then None else s.cmd,
       connection := Stopped, stops := s.stops - {request})
  }

  function WatchExit(s: Server, child: nat, clean: bool): Server {
    var gone := s.(cmd := if s.cmd == Some(child) then None else s.cmd, autoRestarting := false, live := s.live - {child});
    if s.stopRequested then gone.(connection := Stopped, stopRequested := false)
    else if s.autoRestart then gone.(connection := RestartWait, autoRestarting := true, timers := s.timers + 1)
    else gone.(connection := if clean then Stopped else Failing)
  }

  function FireTimer(s: Server, spawnOk: bool): Server
    requires s.timers > 0
  {
    var fired := s.(timers := s.timers - 1, autoRestarting := false);
    if s.stopRequested || !s.autoRestart then fired.(connection := if s.cmd.None? then Stopped else s.connection)
    else if s.cmd.Some? then fired
    else if Started(s, spawnOk) then StartChild(fired, true, spawnOk)
    else fired.(connection := Failing)
  }

  function Step(s: Server, e: Event): Server {
    match e
    case PutConfig(recording, autoRestart) =>
      var updated := s.(recording := recording, autoRestart := autoRestart);
      if recording then updated else StopCollector(updated, Return)
    case StartRequest(spawnOk) =>
      if !s.recording || s.cmd.Some? then s else StartChild(s.(stopRequested := false), false, spawnOk)
    case StopRequest => StopCollector(s, Return)
    case RestartRequest(spawnOk) =>
      if s.cmd.None? then StartChild(StopCollector(s, StartAgain), true, spawnOk) else StopCollector(s, StartAgain)
    case StopEnds(request, spawnOk) =>
      if request !in s.stops then s
      else if s.stops[request].goal.Return? then FinishStop(s, request)
      else StartChild(FinishStop(s, request), true, spawnOk)
    case ChildExits(child, clean) => if child in s.live then WatchExit(s, child, clean) else s
    case TimerFires(spawnOk) => if s.timers > 0 then FireTimer(s, spawnOk) else s
  }

  function Run(s: Server, es: seq<Event>): Server
    decreases |es|
  {
    if es == [] then s else Run(Step(s, es[0]), es[1..])
  }

  /** Recording is on, or nothing is tracked, or a stop is in progress for exactly the
      tracked child. */
  ghost predicate Quenched(s: Server) {
    s.recording || s.cmd.None? || exists r :: r in s.stops && s.stops[r].child == s.cmd.value
  }

  /** A stop in progress is an earlier request and has addressed its child. */
  ghost predicate StopsKnown(s: Server) {
    forall r :: r in s.stops ==> r < s.requests && s.stops[r].child in s.signalled
  }

  /** The tracked child lives, and children are numbered in order. */
  ghost predicate TrackedLives(s: Server) {
    (s.cmd.Some? ==> s.cmd.value in s.live) && forall c :: c in s.live ==> c < s.children
  }

  /** Identifiers are used in order, and announced restarts have a timer. */
  ghost predicate Numbered(s: Server) {
    StopsKnown(s) && TrackedLives(s) && (s.autoRestarting ==> s.timers > 0)
  }

  ghost predicate Accounted(s: Server) {
    forall c :: c in s.live ==> s.cmd == Some(c) || c in s.signalled || c in s.displaced
  }

  ghost predicate Inv(s: Server) { Quenched(s) && Numbered(s) && Accounted(s) }

  lemma StopCollectorQuenches(s: Server, goal: Goal)
    ensures Quenched(StopCollector(s, goal))
  {
    var t := StopCollector(s, goal);
    assert s.cmd.Some? ==> t.stops[s.requests].child == t.cmd.value;
  }

  lemma FinishStopQuenched(s: Server, request: nat)
    requires Quenched(s) && request in s.stops
    ensures Quenched(FinishStop(s, request))
  {
    var t := FinishStop(s, request);
    if !s.recording && t.cmd.Some? {
      var r :| r in s.stops && s.stops[r].child == s.cmd.value;
      assert r in t.stops;
    }
  }

  lemma StartQuenched(s: Server, isRestart: bool, spawnOk: bool)
    requires Quenched(s)
    ensures Quenched(StartChild(s, isRestart, spawnOk))
  {
  }

  /** Watching an exit and firing a timer leave the stops alone. */
  lemma ExitOrTimerQuenched(s: Server, e: Event)
    requires Quenched(s) && (e.ChildExits? || e.TimerFires?)
    ensures Quenched(Step(s, e))
  {
  }

  lemma QuenchedKept(s: Server, e: Event)
    requires Quenched(s)
    ensures Quenched(Step(s, e))
  {
    match e
    case PutConfig(recording, autoRestart) =>
      StopCollectorQuenches(s.(recording := recording, autoRestart := autoRestart), Return);
    case StartRequest(spawnOk) => StartQuenched(s.(stopRequested := false), false, spawnOk);
    case StopRequest => StopCollectorQuenches(s, Return);
    case RestartRequest(spawnOk) =>
      StopCollectorQuenches(s, StartAgain);
      StartQuenched(StopCollector(s, StartAgain), true, spawnOk);
    case StopEnds(request, spawnOk) =>
      if request in s.stops {
        FinishStopQuenched(s, request);
        StartQuenched(FinishStop(s, request), true, spawnOk);
      }
    case _ => ExitOrTimerQuenched(s, e);
  }

  lemma StopCollectorKnown(s: Server, goal: Goal)
    requires StopsKnown(s)
    ensures StopsKnown(StopCollector(s, goal))
  {
  }

  lemma FinishStopKnown(s: Server, request: nat)
    requires StopsKnown(s) && request in s.stops
    ensures StopsKnown(FinishStop(s, request))
  {
  }

  lemma StopsKnownKept(s: Server, e: Event)
    requires StopsKnown(s)
    ensures StopsKnown(Step(s, e))
  {
    match e
    case PutConfig(recording, autoRestart) =>
      StopCollectorKnown(s.(recording := recording, autoRestart := autoRestart), Return);
    case StopRequest => StopCollectorKnown(s, Return);
    case RestartRequest(_) => StopCollectorKnown(s, StartAgain);
    case StopEnds(request, _) =>
      if request in s.stops {
        FinishStopKnown(s, request);
      }
    case _ =>
  }

  lemma TrackedLivesKept(s: Server, e: Event)
    requires TrackedLives(s)
    ensures TrackedLives(Step(s, e))
  {
  }

  lemma TimerBehindKept(s: Server, e: Event)
    requires s.autoRestarting ==> s.timers > 0
    ensures Step(s, e).autoRestarting ==> Step(s, e).timers > 0
  {
  }

  lemma NumberedKept(s: Server, e: Event)
    requires Numbered(s)
    ensures Numbered(Step(s, e))
  {
    StopsKnownKept(s, e);
    TrackedLivesKept(s, e);
    TimerBehindKept(s, e);
  }

  lemma AccountedKept(s: Server, e: Event)
    requires Numbered(s) && Accounted(s)
    ensures Accounted(Step(s, e))
  {
  }

  lemma StepKeeps(s: Server, e: Event)
    requires Inv(s)
    ensures Inv(Step(s, e))
  {
    QuenchedKept(s, e);
    NumberedKept(s, e);
    AccountedKept(s, e);
  }

  /** In every run: a collector is tracked with recording off only while a stop is in
      progress for it, an announced auto-restart has a timer behind it, and every live
      collector is tracked, was told to stop, or was displaced by a restart. */
  lemma {:induction false} RunKeeps(s: Server, es: seq<Event>)
    requires Inv(s)
    ensures Inv(Run(s, es))
    decreases |es|
  {
    if es != [] {
      StepKeeps(s, es[0]);
      RunKeeps(Step(s, es[0]), es[1..]);
    }
  }

  lemma EveryRunQuenched(recording: bool, autoRestart: bool, es: seq<Event>)
    ensures var s := Run(Fresh(recording, autoRestart), es);
            && (s.recording || s.cmd.None? || exists r :: r in s.stops && s.stops[r].child == s.cmd.value)
            && (s.autoRestarting ==> s.timers > 0)
            && (forall c :: c in s.live ==> s.cmd == Some(c) || c in s.signalled || c in s.displaced)
  {
    RunKeeps(Fresh(recording, autoRestart), es);
  }

  // ---- disabling is final

  predicate KeepsRecordingOff(es: seq<Event>) {
    forall i :: 0 <= i < |es| && es[i].PutConfig? ==> !es[i].recording
  }

  /** Recording is off and the only child request r may still find is its own. */
  ghost predicate Disabled(s: Server, r: nat) {
    && !s.recording && (r < s.requests || s.cmd.None?)
    && (s.cmd.None? || (r in s.stops && s.stops[r].child == s.cmd.value))
  }

  lemma DisabledKept(s: Server, r: nat, e: Event)
    requires Disabled(s, r) && (e.PutConfig? ==> !e.recording)
    ensures Disabled(Step(s, e), r)
  {
  }

  lemma {:induction false} StaysDisabled(s: Server, r: nat, es: seq<Event>)
    requires Disabled(s, r) && KeepsRecordingOff(es)
    ensures Disabled(Run(s, es), r)
    decreases |es|
  {
    if es != [] {
      DisabledKept(s, r, es[0]);
      assert forall i :: 0 <= i < |es[1..]| ==> es[1..][i] == es[i + 1];
      StaysDisabled(Step(s, es[0]), r, es[1..]);
    }
  }

  /** With recording off and nothing tracked, nothing comes to be tracked. */
  lemma {:induction false} StaysIdle(s: Server, es: seq<Event>)
    requires !s.recording && s.cmd.None? && KeepsRecordingOff(es)
    ensures !Run(s, es).recording && Run(s, es).cmd.None?
    decreases |es|
  {
    if es != [] {
      IdleKept(s, es[0]);
      assert forall i :: 0 <= i < |es[1..]| ==> es[1..][i] == es[i + 1];
      StaysIdle(Step(s, es[0]), es[1..]);
    }
  }

  lemma IdleKept(s: Server, e: Event)
    requires !s.recording && s.cmd.None? && (e.PutConfig? ==> !e.recording)
    ensures !Step(s, e).recording && Step(s, e).cmd.None?
  {
  }

  /** Whatever happened before, and however starts, stops, restarts, exits and timers
      interleave afterwards: the request that disables recording returns at once if nothing
      is tracked and otherwise waits under its own number; once it has returned, no
      collector is tracked until recording is enabled again. */
  lemma DisablingIsFinal(recording: bool, autoRestart: bool, before: seq<Event>, restart: bool, after: seq<Event>)
    requires KeepsRecordingOff(after)
    ensures var s := Run(Fresh(recording, autoRestart), before);
            var t := Run(Step(s, PutConfig(false, restart)), after);
            !t.recording && (t.cmd.None? || (s.cmd.Some? && s.requests in t.stops))
  {
    var s := Run(Fresh(recording, autoRestart), before);
    var disabled := Step(s, PutConfig(false, restart));
    if s.cmd.None? {
      StaysIdle(disabled, after);
    } else {
      StaysDisabled(disabled, s.requests, after);
    }
  }

  // ---- orphans

  predicate NoRestarts(es: seq<Event>) { forall i :: 0 <= i < |es| ==> !es[i].RestartRequest? }

  ghost predicate Tidy(s: Server) { s.displaced == {} && forall r :: r in s.stops ==> s.stops[r].goal.Return? }

  lemma TidyKept(s: Server, e: Event)
    requires Tidy(s) && !e.RestartRequest?
    ensures Tidy(Step(s, e))
  {
  }

  lemma {:induction false} RunTidy(s: Server, es: seq<Event>)
    requires Tidy(s) && NoRestarts(es)
    ensures Tidy(Run(s, es))
    decreases |es|
  {
    if es != [] {
      TidyKept(s, es[0]);
      assert forall i :: 0 <= i < |es[1..]| ==> es[1..][i] == es[i + 1];
      RunTidy(Step(s, es[0]), es[1..]);
    }
  }

  /** Without restart requests no child is ever displaced, so every live collector is
      tracked or has been told to stop. */
  lemma NoOrphansWithoutRestarts(recording: bool, autoRestart: bool, es: seq<Event>)
    requires NoRestarts(es)
    ensures var s := Run(Fresh(recording, autoRestart), es);
            forall c :: c in s.live ==> s.cmd == Some(c) || c in s.signalled
  {
    RunKeeps(Fresh(recording, autoRestart), es);
    RunTidy(Fresh(recording, autoRestart), es);
  }

  /** Every live collector is tracked or has been told to stop. */
  ghost predicate AllReached(s: Server) { forall c :: c in s.live ==> s.cmd == Some(c) || c in s.signalled }

  /** A restart whose wait is over starts a collector although a collector other than the
      one it stopped is tracked by then and nobody has told that one to stop. */
  predicate Orphans(s: Server, e: Event) {
    && e.StopEnds? && e.request in s.stops && s.stops[e.request].goal.StartAgain? && Started(s, e.spawnOk)
    && s.cmd.Some? && s.cmd.value != s.stops[e.request].child && s.cmd.value !in s.signalled
  }

  /** A step loses a collector exactly when it orphans the tracked one. */
  lemma StepReaches(s: Server, e: Event)
    requires Numbered(s) && AllReached(s)
    ensures AllReached(Step(s, e)) <==> !Orphans(s, e)
  {
    if Orphans(s, e) {
      assert s.cmd.value in Step(s, e).live;
    }
  }

  lemma {:induction false} RunSnoc(s: Server, es: seq<Event>, e: Event)
    ensures Run(s, es + [e]) == Step(Run(s, es), e)
    decreases |es|
  {
    if es == [] {
      assert [e][1..] == [];
    } else {
      assert (es + [e])[1..] == es[1..] + [e];
      RunSnoc(Step(s, es[0]), es[1..], e);
    }
  }

  ghost predicate OrphansAt(s: Server, es: seq<Event>, i: nat)
    requires i < |es|
  {
    Orphans(Run(s, es[..i]), es[i])
  }

  lemma PrefixStep(s: Server, es: seq<Event>, i: nat)
    requires i < |es| && Numbered(Run(s, es[..i])) && AllReached(Run(s, es[..i]))
    ensures Numbered(Run(s, es[..i + 1]))
    ensures AllReached(Run(s, es[..i + 1])) <==> !OrphansAt(s, es, i)
  {
    assert es[..i + 1] == es[..i] + [es[i]];
    RunSnoc(s, es[..i], es[i]);
    NumberedKept(Run(s, es[..i]), es[i]);
    StepReaches(Run(s, es[..i]), es[i]);
  }

  lemma {:induction false} ReachedSoFar(s: Server, es: seq<Event>, i: nat)
    requires Numbered(s) && AllReached(s) && i <= |es| && forall k: nat :: k < i ==> !OrphansAt(s, es, k)
    ensures Numbered(Run(s, es[..i])) && AllReached(Run(s, es[..i]))
  {
    if i > 0 {
      ReachedSoFar(s, es, i - 1);
      PrefixStep(s, es, i - 1);
    }
  }

  lemma {:induction false} NumberedSoFar(s: Server, es: seq<Event>, i: nat)
    requires Numbered(s) && i <= |es|
    ensures Numbered(Run(s, es[..i]))
  {
    if i > 0 {
      NumberedSoFar(s, es, i - 1);
      assert es[..i] == es[..i - 1] + [es[i - 1]];
      RunSnoc(s, es[..i - 1], es[i - 1]);
      NumberedKept(Run(s, es[..i - 1]), es[i - 1]);
    }
  }

  /** Throughout a run every live collector is tracked or has been told to stop if and only
      if no restart, at the end of its wait, replaces a tracked collector that nobody has
      told to stop. */
  lemma OrphansIff(recording: bool, autoRestart: bool, es: seq<Event>)
    ensures var s := Fresh(recording, autoRestart);
            (forall i :: 0 <= i <= |es| ==> AllReached(Run(s, es[..i]))) <==>
            (forall i: nat :: i < |es| ==> !OrphansAt(s, es, i))
  {
    var s := Fresh(recording, autoRestart);
    if forall i: nat :: i < |es| ==> !OrphansAt(s, es, i) {
      forall i | 0 <= i <= |es| ensures AllReached(Run(s, es[..i])) {
        ReachedSoFar(s, es, i);
      }
    } else if forall i :: 0 <= i <= |es| ==> AllReached(Run(s, es[..i])) {
      var i: nat :| i < |es| && OrphansAt(s, es, i);
      NumberedSoFar(s, es, i);
      PrefixStep(s, es, i);
    }
  }

  /** With one, a child that slips in while the restart waits is displaced: it runs
      untracked and nobody has told it to stop. */
  lemma RestartCanOrphan()
    ensures var s := Run(Fresh(true, true), [StartRequest(true), RestartRequest(true), ChildExits(0, true),
                                             StartRequest(true), StopEnds(0, true)]);
            1 in s.live && s.cmd == Some(2) && 1 !in s.signalled
  {
    var s0 := Fresh(true, true);
    var s1 := Step(s0, StartRequest(true));
    var s2 := Step(s1, RestartRequest(true));
    var s3 := Step(s2, ChildExits(0, true));
    var s4 := Step(s3, StartRequest(true));
    var s5 := Step(s4, StopEnds(0, true));
    var es := [StartRequest(true), RestartRequest(true), ChildExits(0, true), StartRequest(true), StopEnds(0, true)];
    assert Run(s4, es[4..]) == Run(s5, es[5..]) == s5;
    assert es[3..][1..] == es[4..] && es[2..][1..] == es[3..] && es[1..][1..] == es[2..];
    assert Run(s0, es) == Run(s1, es[1..]) == Run(s2, es[2..]) == Run(s3, es[3..]) == s5;
  }
}
