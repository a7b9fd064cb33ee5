/** What the live channel promises in every run: one handler per topic, an ack and then one
    reply per request, and a session that is set once. */
module LiveGuarantees {
  import opened Text
  import opened LiveSession

  // ---- what a step may write

  /** m may be written on connection k next: it concerns no request, the request that
      is being read there, or a request in progress there. */
  predicate MayWrite(s: Client, k: nat, m: Sent) {
    (m.Ack? || m.Result? || m.Failure?) ==> InProgress(s, k, m.ticket) || (m.ticket == s.tickets && k == Last(s))
  }

  /** A later version of the same connection. */
  predicate Later(c: Connection, d: Connection) {
    && c.log <= d.log
    && (d.alive ==> c.alive)
    && (c.sid != "" ==> d.sid == c.sid && d.revision == c.revision)
  }

  predicate OneWrite(s: Client, k: nat, before: seq<Sent>, after: seq<Sent>) {
    || after == before
    || (|after| == |before| + 1 && after[..|before|] == before && MayWrite(s, k, after[|before|]))
  }

  lemma SendWrites(s: Client, m: Sent, ok: bool, k: nat)
    requires k < |s.conns|
    ensures |Send(s, m, ok).conns| == |s.conns|
    ensures Later(s.conns[k], Send(s, m, ok).conns[k])
    ensures var after := Send(s, m, ok).conns[k].log;
            after == s.conns[k].log || (k == Last(s) && after == s.conns[k].log + [m])
  {
  }

  lemma WelcomeWrites(s: Client, f: Frame, ok: bool, k: nat)
    requires k < |s.conns| && Welcome(s.conns[Last(s)], f)
    ensures |OnFrame(s, f, ok).conns| == |s.conns|
    ensures OneWrite(s, k, s.conns[k].log, OnFrame(s, f, ok).conns[k].log)
    ensures Later(s.conns[k], OnFrame(s, f, ok).conns[k])
  {
    var c := s.conns[Last(s)];
    var welcomed := c.(sid := f.sessionId, revision := if f.revision > 1 then f.revision else c.revision);
    SendWrites(Update(s, Last(s), welcomed), Ready(f.sessionId), ok, k);
  }

  lemma ReceiveWrites(s: Client, f: Frame, ok: bool, k: nat)
    requires k < |s.conns|
    ensures |OnFrame(s, f, ok).conns| == |s.conns|
    ensures OneWrite(s, k, s.conns[k].log, OnFrame(s, f, ok).conns[k].log)
    ensures Later(s.conns[k], OnFrame(s, f, ok).conns[k])
  {
    var c := s.conns[Last(s)];
    if Welcome(c, f) {
      WelcomeWrites(s, f, ok, k);
    } else {
      SendWrites(s, Pong(c.sid, f.nonce), ok, k);
      SendWrites(s.(tickets := s.tickets + 1), FirstFrame(c.sid, f, s.tickets), ok, k);
    }
  }

  lemma ReplyWrites(s: Client, t: nat, configSame: bool, error: Option<Fault>, expired: bool, ok: bool, k: nat)
    requires t in s.jobs && s.jobs[t].phase.Returned? && s.jobs[t].conn < |s.conns| && k < |s.conns|
    ensures |OnReply(s, t, configSame, error, expired, ok).conns| == |s.conns|
    ensures OneWrite(s, k, s.conns[k].log, OnReply(s, t, configSame, error, expired, ok).conns[k].log)
    ensures Later(s.conns[k], OnReply(s, t, configSame, error, expired, ok).conns[k])
  {
  }

  lemma RefuseWrites(s: Client, ok: bool, k: nat)
    requires k < |s.conns|
    ensures |Step(s, RefuseBusy(ok)).conns| == |s.conns|
    ensures OneWrite(s, k, s.conns[k].log, Step(s, RefuseBusy(ok)).conns[k].log)
    ensures Later(s.conns[k], Step(s, RefuseBusy(ok)).conns[k])
  {
    if s.reader.Occupied? {
      var c := s.conns[Last(s)];
      SendWrites(s.(reader := Reading), Failure(c.sid, s.reader.request.requestId, CollectionBusy, s.reader.ticket), ok, k);
    }
  }

  /** The remaining steps write nothing on an existing connection. */
  lemma QuietWrites(s: Client, e: Event, k: nat)
    requires k < |s.conns| && !e.Receive? && !e.RefuseBusy? && !e.Reply?
    ensures |Step(s, e).conns| >= |s.conns|
    ensures Step(s, e).conns[k].log == s.conns[k].log && Later(s.conns[k], Step(s, e).conns[k])
  {
  }

  /** A step adds at most one frame to one connection and never unsets a session. */
  lemma StepWrites(s: Client, e: Event, k: nat)
    requires k < |s.conns|
    ensures k < |Step(s, e).conns|
    ensures OneWrite(s, k, s.conns[k].log, Step(s, e).conns[k].log)
    ensures Later(s.conns[k], Step(s, e).conns[k])
  {
    match e
    case Receive(f, configSame, ok) => ReceiveWrites(s, f, ok, k);
    case RefuseBusy(ok) => RefuseWrites(s, ok, k);
    case Reply(t, configSame, error, expired, ok) =>
      if t in s.jobs && s.jobs[t].phase.Returned? && s.jobs[t].conn < |s.conns| {
        ReplyWrites(s, t, configSame, error, expired, ok, k);
      }
    case _ => QuietWrites(s, e, k);
  }

  lemma OnlyFramesSetSession(s: Client, e: Event, k: nat)
    requires k < |s.conns| && k < |Step(s, e).conns| && !e.Receive?
    ensures Step(s, e).conns[k].sid == s.conns[k].sid
  {
  }

  /** The session id is only ever set by a version 1 welcome with a 36-character id. */
  lemma SessionSetByWelcome(s: Client, e: Event, k: nat)
    requires k < |s.conns|
    requires k < |Step(s, e).conns| && Step(s, e).conns[k].sid != s.conns[k].sid
    ensures e.Receive? && Welcome(s.conns[k], e.frame) && k == Last(s)
    ensures Step(s, e).conns[k].sid == e.frame.sessionId
    ensures Step(s, e).conns[k].revision == if e.frame.revision > 1 then e.frame.revision else s.conns[k].revision
  {
    assert e.Receive? by {
      if !e.Receive? {
        OnlyFramesSetSession(s, e, k);
      }
    }
    FrameSetsSession(s, e.frame, e.writeOk, k);
  }

  lemma FrameSetsSession(s: Client, f: Frame, ok: bool, k: nat)
    requires k < |s.conns|
    ensures k < |OnFrame(s, f, ok).conns|
    ensures var c, d := s.conns[k], OnFrame(s, f, ok).conns[k];
      d.sid != c.sid ==>
        && Welcome(c, f) && k == Last(s) && d.sid == f.sessionId
        && d.revision == if f.revision > 1 then f.revision else c.revision
  {
  }

  /** The frames about one request are all on one connection. */
  ghost predicate OneHome(s: Client) {
    forall i: nat, k: nat, t: nat :: i < k < |s.conns| ==>
      Standings(s.conns[i].log, t).Silent? || Standings(s.conns[k].log, t).Silent?
  }

  lemma NewlyAbout(s: Client, k: nat, t: nat, after: seq<Sent>)
    requires k < |s.conns| && TraceOk(s, k, t) && OneWrite(s, k, s.conns[k].log, after)
    ensures Standings(s.conns[k].log, t).Silent? && !Standings(after, t).Silent? ==> t == s.tickets && k == Last(s)
  {
    var before := s.conns[k].log;
    if after != before {
      assert Write(s.conns[k], after[|before|]).log == after;
      StandingAfterWrite(s.conns[k], after[|before|], t);
    }
  }

  lemma HomeKept(s: Client, e: Event, i: nat, k: nat, t: nat)
    requires i < k < |s.conns| && TraceOk(s, i, t) && TraceOk(s, k, t)
    requires Standings(s.conns[i].log, t).Silent? || Standings(s.conns[k].log, t).Silent?
    ensures |Step(s, e).conns| >= |s.conns|
    ensures Standings(Step(s, e).conns[i].log, t).Silent? || Standings(Step(s, e).conns[k].log, t).Silent?
  {
    StepWrites(s, e, |s.conns| - 1);
    StepWrites(s, e, i);
    StepWrites(s, e, k);
    NewlyAbout(s, i, t, Step(s, e).conns[i].log);
    NewlyAbout(s, k, t, Step(s, e).conns[k].log);
  }

  /** A connection that a step opens has said nothing but hello. */
  lemma NewConnection(s: Client, e: Event, k: nat, t: nat)
    requires |s.conns| <= k < |Step(s, e).conns|
    ensures Standings(Step(s, e).conns[k].log, t).Silent?
  {
    assert Step(s, e).conns[k].log == [Hello] && [Hello][..0] == [];
  }

  lemma OneHomeKept(s: Client, e: Event)
    requires Inv(s) && OneHome(s)
    ensures OneHome(Step(s, e))
  {
    var r := Step(s, e);
    forall i: nat, k: nat, t: nat | i < k < |r.conns|
      ensures Standings(r.conns[i].log, t).Silent? || Standings(r.conns[k].log, t).Silent?
    {
      if k < |s.conns| {
        assert TraceOk(s, i, t) && TraceOk(s, k, t);
        HomeKept(s, e, i, k, t);
      } else {
        NewConnection(s, e, k, t);
      }
    }
  }

  // ---- theorems over every run

  lemma {:induction false} RunKeepsHome(s: Client, es: seq<Event>)
    requires Inv(s) && OneHome(s)
    ensures OneHome(Run(s, es)) && Inv(Run(s, es))
    decreases |es|
  {
    if es != [] {
      StepKeeps(s, es[0]);
      OneHomeKept(s, es[0]);
      RunKeepsHome(Step(s, es[0]), es[1..]);
    }
  }

  /** In every interleaving, reconnects included, no two unfinished jobs share a
      topic, and a topic is busy exactly while it is held. */
  lemma OneHandlerPerTopic(es: seq<Event>)
    ensures var s := Run(START, es);
            && (forall t, u :: t in s.jobs && u in s.jobs && t != u ==> s.jobs[t].topic != s.jobs[u].topic)
            && (forall topic :: topic in s.busy <==> HoldsTopic(s, topic))
  {
    RunKeeps(START, es);
  }

  /** In every run each request gets nothing, one refusal, an ack, or an ack and then
      exactly one reply with the same request id, all on one connection; and while
      that connection lives an acked request that is no longer in progress has been
      answered. */
  lemma AckThenOneReply(es: seq<Event>, i: nat, k: nat, t: nat)
    requires i < |Run(START, es).conns| && k < |Run(START, es).conns|
    ensures var s := Run(START, es);
            var st := Standings(s.conns[i].log, t);
            && !st.Garbled?
            && (s.conns[i].alive && !InProgress(s, i, t) ==> !st.Waiting?)
            && (InProgress(s, i, t) ==> st.Waiting?)
            && (!st.Silent? && k != i ==> Standings(s.conns[k].log, t).Silent?)
  {
    RunKeepsHome(START, es);
    var s := Run(START, es);
    assert TraceOk(s, i, t);
    assert i < k ==> Standings(s.conns[i].log, t).Silent? || Standings(s.conns[k].log, t).Silent?;
    assert k < i ==> Standings(s.conns[k].log, t).Silent? || Standings(s.conns[i].log, t).Silent?;
  }

  /** What the standings mean for the log itself. */
  lemma {:induction false} StandingMeans(log: seq<Sent>, t: nat)
    ensures Standings(log, t).Silent? ==> forall i :: 0 <= i < |log| ==> !About(log[i], t)
    ensures Standings(log, t).Waiting? ==>
              exists a :: 0 <= a < |log| && log[a].Ack? && About(log[a], t)
                          && forall i :: 0 <= i < |log| && About(log[i], t) ==> i == a
    ensures Standings(log, t).Refused? ==>
              exists a :: 0 <= a < |log| && log[a].Failure? && About(log[a], t)
                          && log[a].requestId == Standings(log, t).requestId
                          && forall i :: 0 <= i < |log| && About(log[i], t) ==> i == a
    ensures Standings(log, t).Answered? ==>
              exists a, b :: 0 <= a < b < |log| && About(log[a], t) && About(log[b], t)
                             && log[a].Ack? && (log[b].Result? || log[b].Failure?)
                             && log[a].requestId == log[b].requestId == Standings(log, t).requestId
                             && forall i :: 0 <= i < |log| && About(log[i], t) ==> i == a || i == b
  {
    if log != [] {
      var n := |log| - 1;
      StandingMeans(log[..n], t);
      assert forall i :: 0 <= i < n ==> log[..n][i] == log[i];
      StandingIds(log[..n], t);
    }
  }

  lemma {:induction false} StandingIds(log: seq<Sent>, t: nat)
    ensures Standings(log, t).Waiting? ==>
              forall i :: 0 <= i < |log| && About(log[i], t) ==> log[i].requestId == Standings(log, t).requestId
    ensures Standings(log, t).Silent? ==> forall i :: 0 <= i < |log| ==> !About(log[i], t)
  {
    if log != [] {
      StandingIds(log[..|log| - 1], t);
      assert forall i :: 0 <= i < |log| - 1 ==> log[..|log| - 1][i] == log[i];
    }
  }

  /** Every frame after the hello carries the session id; before a session exists
      nothing but the hello is sent, and the Hub revision is at least 1. */
  lemma FramesCarrySession(es: seq<Event>, k: nat)
    requires k < |Run(START, es).conns|
    ensures var c := Run(START, es).conns[k];
            && |c.log| > 0 && c.log[0] == Hello && c.revision >= 1
            && (c.sid == "" ==> |c.log| == 1) && (c.sid != "" ==> |c.sid| == ID_LENGTH)
            && forall i :: 1 <= i < |c.log| ==> Carries(c.log[i], c.sid)
  {
    RunKeeps(START, es);
    assert Framed(Run(START, es).conns[k]);
  }

  lemma {:induction false} RunGrows(s: Client, es: seq<Event>, k: nat)
    requires Inv(s) && k < |s.conns|
    ensures k < |Run(s, es).conns| && Later(s.conns[k], Run(s, es).conns[k])
    decreases |es|
  {
    if es != [] {
      StepKeeps(s, es[0]);
      StepWrites(s, es[0], k);
      RunGrows(Step(s, es[0]), es[1..], k);
    }
  }

  /** Once set, a connection's session id and Hub revision never change again; what
      was sent stays sent and a cancelled session stays cancelled. */
  lemma SessionIsFixed(es: seq<Event>, more: seq<Event>, k: nat)
    requires k < |Run(START, es).conns|
    ensures k < |Run(Run(START, es), more).conns|
    ensures Later(Run(START, es).conns[k], Run(Run(START, es), more).conns[k])
  {
    RunKeeps(START, es);
    RunGrows(Run(START, es), more, k);
  }

  /** A handler is told the revision of its own connection. */
  lemma JobsServeTheirSession(es: seq<Event>, t: nat)
    requires t in Run(START, es).jobs
    ensures var s := Run(START, es);
            && s.jobs[t].conn < |s.conns| && s.jobs[t].revision == s.conns[s.jobs[t].conn].revision >= 1
            && s.jobs[t].sid == s.conns[s.jobs[t].conn].sid != ""
  {
    RunKeeps(START, es);
    assert JobOk(Run(START, es), t);
    assert Framed(Run(START, es).conns[Run(START, es).jobs[t].conn]);
  }
}
