/** What the supervisor does start and stop: collectors that exit come back, requests are
    carried out, and nothing comes back that was told to stop. */
module SupervisorProgress {
  import opened Text
  import opened Supervisor

  lemma Tracked(recording: bool, autoRestart: bool, es: seq<Event>, c: nat)
    requires Run(Fresh(recording, autoRestart), es).cmd == Some(c)
    ensures c in Run(Fresh(recording, autoRestart), es).live
  {
    RunKeeps(Fresh(recording, autoRestart), es);
  }

  /** s tracks the next child, started as asked for. */
  ghost predicate Starts(s: Server, t: Server, restarted: bool) {
    && t.cmd == Some(s.children) && s.children in t.live && t.children == s.children + 1
    && t.restartCount == (if restarted then s.restartCount + 1 else s.restartCount)
    && t.connection == Starting && !t.stopRequested && !t.autoRestarting
  }

  /** In every reachable state: when the tracked collector exits unasked, with recording and
      auto-restart on, one more restart is pending and announced; when it fires with nothing
      in between, the next collector is started and counted as a restart. */
  lemma ExitIsFollowedByRestart(recording: bool, autoRestart: bool, es: seq<Event>, c: nat, clean: bool)
    requires var s := Run(Fresh(recording, autoRestart), es);
      s.cmd == Some(c) && s.recording && s.autoRestart && !s.stopRequested
    ensures var s := Run(Fresh(recording, autoRestart), es);
      var waiting := Step(s, ChildExits(c, clean));
      && waiting.cmd.None? && c !in waiting.live && waiting.timers == s.timers + 1
      && waiting.autoRestarting && waiting.connection == RestartWait
      && Starts(waiting, Step(waiting, TimerFires(true)), true)
      && Step(waiting, TimerFires(true)).timers == s.timers
  {
    Tracked(recording, autoRestart, es, c);
  }

  /** In every reachable state: an exit that was asked for, or without auto-restart,
      schedules nothing. */
  lemma AskedExitStays(recording: bool, autoRestart: bool, es: seq<Event>, c: nat, clean: bool)
    requires var s := Run(Fresh(recording, autoRestart), es); s.cmd == Some(c) && (s.stopRequested || !s.autoRestart)
    ensures var s := Run(Fresh(recording, autoRestart), es);
      var t := Step(s, ChildExits(c, clean));
      && t.cmd.None? && c !in t.live && t.timers == s.timers && !t.autoRestarting && !t.stopRequested
      && t.connection == if s.stopRequested || clean then Stopped else Failing
  {
    Tracked(recording, autoRestart, es, c);
  }

  /** A pending restart waits through everything but its own firing. */
  lemma TimersWait(s: Server, e: Event)
    requires !e.TimerFires?
    ensures Step(s, e).timers >= s.timers
  {
  }

  /** A restart that fires starts a collector exactly if it is still wanted: not stopped,
      auto-restart and recording on, nothing tracked, and the process can be spawned. */
  lemma TimerStartsIff(s: Server, spawnOk: bool)
    requires s.timers > 0
    ensures var t := Step(s, TimerFires(spawnOk));
      && t.timers == s.timers - 1 && !t.autoRestarting
      && (if !s.stopRequested && s.autoRestart && s.recording && s.cmd.None? && spawnOk
          then Starts(s, t, true)
          else t.cmd == s.cmd && t.children == s.children && t.live == s.live && t.restartCount == s.restartCount)
  {
  }

  /** A start request starts a collector exactly if recording is on, nothing is tracked and
      the process can be spawned. */
  lemma StartRequestStartsIff(s: Server, spawnOk: bool)
    ensures var t := Step(s, StartRequest(spawnOk));
      if s.recording && s.cmd.None? && spawnOk then Starts(s, t, false)
      else t.cmd == s.cmd && t.children == s.children && t.live == s.live && t.restartCount == s.restartCount
  {
  }

  /** A stop request with a collector tracked tells that one to stop and waits for it; when
      the wait is over nothing is tracked unless another was started meanwhile. */
  lemma StopRequestStops(s: Server, c: nat)
    requires s.cmd == Some(c)
    ensures var t := Step(s, StopRequest);
      && c in t.signalled && t.stopRequested && s.requests in t.stops && t.stops[s.requests] == Stop(c, Return)
      && t.connection == Stopping && Step(t, StopEnds(s.requests, true)).cmd.None?
      && Step(t, StopEnds(s.requests, true)).connection == Stopped
  {
  }

  /** A restart request stops the tracked collector and then starts the next one. */
  lemma RestartRequestRestarts(s: Server, c: nat)
    requires s.cmd == Some(c) && s.recording
    ensures var t := Step(s, RestartRequest(true));
      && c in t.signalled && t.cmd == s.cmd && s.requests in t.stops
      && Starts(t, Step(t, StopEnds(s.requests, true)), true)
  {
  }

  /** The configuration request stores both switches, and stops the tracked collector when
      it turns recording off. */
  lemma ConfigIsStored(s: Server, recording: bool, autoRestart: bool)
    ensures var t := Step(s, PutConfig(recording, autoRestart));
      && t.recording == recording && t.autoRestart == autoRestart && t.cmd == s.cmd && t.live == s.live
      && (!recording && s.cmd.Some? ==>
            s.cmd.value in t.signalled && s.requests in t.stops && t.stops[s.requests].child == s.cmd.value)
      && (recording ==> t.stops == s.stops && t.stopRequested == s.stopRequested)
  {
  }
}
