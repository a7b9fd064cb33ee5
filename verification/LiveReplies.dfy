/** What the agent writes on the live channel, frame by frame, in every reachable state. */
module LiveReplies {
  import opened Text
  import opened LiveSession

  /** The log of connection k grows by exactly one frame and no other log changes. */
  ghost predicate Appends(s: Client, r: Client, k: nat, m: Sent) {
    && |r.conns| == |s.conns| && k < |s.conns| && r.conns[k].log == s.conns[k].log + [m]
    && forall i :: 0 <= i < |s.conns| && i != k ==> r.conns[i].log == s.conns[i].log
  }

  // ---- where jobs come from

  /** The run read request f as its t-th request. */
  ghost predicate Asked(es: seq<Event>, t: nat, f: Frame) {
    exists k :: 0 <= k < |es| && AskedAt(es, t, f, k)
  }

  ghost predicate AskedAt(es: seq<Event>, t: nat, f: Frame, k: int)
    requires 0 <= k < |es|
  {
    es[k].Receive? && es[k].frame == f && f.kind.RequestKind? && Run(START, es[..k]).tickets == t
  }

  ghost predicate JobAsked(es: seq<Event>, t: nat, j: Job) {
    exists f :: Asked(es, t, f) && f.topic == j.topic && f.requestId == j.requestId
  }

  ghost predicate Sourced(es: seq<Event>, s: Client) {
    && (s.reader.Acked? || s.reader.Occupied? || s.reader.Claimed? ==> Asked(es, s.reader.ticket, s.reader.request))
    && forall t: nat :: t in s.jobs ==> JobAsked(es, t, s.jobs[t])
  }

  lemma {:induction false} RunSnoc(s: Client, es: seq<Event>, e: Event)
    ensures Run(s, es + [e]) == Step(Run(s, es), e)
    decreases |es|
  {
    if es == [] {
      assert [e][1..] == [];
    } else {
      assert (es + [e])[1..] == es[1..] + [e];
      RunSnoc(Step(s, es[0]), es[1..], e);
    }
  }

  lemma AskedStays(es: seq<Event>, e: Event, t: nat, f: Frame)
    requires Asked(es, t, f)
    ensures Asked(es + [e], t, f)
  {
    var k :| 0 <= k < |es| && AskedAt(es, t, f, k);
    assert (es + [e])[..k] == es[..k] && AskedAt(es + [e], t, f, k);
  }

  lemma AskedNow(es: seq<Event>, e: Event)
    requires e.Receive? && e.frame.kind.RequestKind?
    ensures Asked(es + [e], Run(START, es).tickets, e.frame)
  {
    assert (es + [e])[..|es|] == es && AskedAt(es + [e], Run(START, es).tickets, e.frame, |es|);
  }

  lemma JobAskedStays(es: seq<Event>, e: Event, t: nat, j: Job)
    requires JobAsked(es, t, j)
    ensures JobAsked(es + [e], t, j)
  {
    var f :| Asked(es, t, f) && f.topic == j.topic && f.requestId == j.requestId;
    AskedStays(es, e, t, f);
  }

  /** A step keeps the topic and id of a job, or makes one for the request it holds. */
  lemma StepJobs(s: Client, e: Event, t: nat)
    requires t in Step(s, e).jobs
    ensures var j := Step(s, e).jobs[t];
      || (t in s.jobs && j.topic == s.jobs[t].topic && j.requestId == s.jobs[t].requestId)
      || (s.reader.Claimed? && t == s.reader.ticket && j.topic == s.reader.request.topic
          && j.requestId == s.reader.request.requestId)
  {
  }

  /** A reader holds the request it held, or the one it has just read. */
  lemma StepReader(s: Client, e: Event)
    ensures var r := Step(s, e).reader;
      r.Acked? || r.Occupied? || r.Claimed? ==>
        || ((s.reader.Acked? || s.reader.Occupied? || s.reader.Claimed?)
            && r.ticket == s.reader.ticket && r.request == s.reader.request)
        || (e.Receive? && e.frame.kind.RequestKind? && r.ticket == s.tickets && r.request == e.frame)
  {
  }

  lemma {:induction false} RunSourced(es: seq<Event>)
    ensures Sourced(es, Run(START, es))
  {
    if es != [] {
      var init, e := es[..|es| - 1], es[|es| - 1];
      RunSourced(init);
      assert es == init + [e];
      RunSnoc(START, init, e);
      StepSourced(init, e);
    }
  }

  lemma StepSourced(es: seq<Event>, e: Event)
    requires Sourced(es, Run(START, es))
    ensures Sourced(es + [e], Step(Run(START, es), e))
  {
    var s := Run(START, es);
    var r := Step(s, e);
    StepReader(s, e);
    if s.reader.Acked? || s.reader.Occupied? || s.reader.Claimed? {
      AskedStays(es, e, s.reader.ticket, s.reader.request);
    }
    if e.Receive? && e.frame.kind.RequestKind? {
      AskedNow(es, e);
    }
    forall t: nat | t in r.jobs ensures JobAsked(es + [e], t, r.jobs[t]) {
      StepJobs(s, e, t);
      if t in s.jobs && r.jobs[t].topic == s.jobs[t].topic && r.jobs[t].requestId == s.jobs[t].requestId {
        JobAskedStays(es, e, t, s.jobs[t]);
      }
    }
  }

  // ---- replies

  /** What a reply must say, given the request, how the handler ended and whether its time
      was up. */
  ghost predicate RightReply(f: Frame, error: Option<Fault>, expired: bool, m: Sent) {
    && (m.Result? <==> error.None? && !expired)
    && (m.Result? ==> m.topic == f.topic && m.requestId == f.requestId)
    && (!m.Result? ==> m.Failure? && m.requestId == f.requestId)
    && (m.Failure? ==>
          if expired then m.code == QueryExpired
          else if error == Some(Disabled) then m.code == Passed(Disabled)
          else if error == Some(DockerUnavailable) then m.code == Passed(DockerUnavailable)
          else if error == Some(DockerDenied) then m.code == Passed(DockerDenied)
          else m.code == CollectionFailed)
  }

  lemma ReplyAppends(s: Client, t: nat, error: Option<Fault>, expired: bool) returns (m: Sent)
    requires t in s.jobs && s.jobs[t].phase.Returned? && s.jobs[t].conn < |s.conns| && s.conns[s.jobs[t].conn].alive
    ensures Appends(s, Step(s, Reply(t, true, error, expired, true)), s.jobs[t].conn, m)
    ensures About(m, t) && m.sid == s.jobs[t].sid
    ensures forall f: Frame :: f.topic == s.jobs[t].topic && f.requestId == s.jobs[t].requestId ==>
              RightReply(f, error, expired, m)
  {
    m := ReplyTo(s.jobs[t], t, error, expired);
  }

  /** In every run a handler that returned, on a connection that lives and with the
      configuration unchanged, is answered by exactly one frame, for the very request that
      was read: a result exactly if it succeeded in time, else the right error. */
  lemma HandlerIsAnswered(es: seq<Event>, t: nat, error: Option<Fault>, expired: bool) returns (f: Frame, m: Sent)
    requires var s := Run(START, es);
      && t in s.jobs && s.jobs[t].phase.Returned? && s.jobs[t].conn < |s.conns| && s.conns[s.jobs[t].conn].alive
    ensures var s := Run(START, es);
      && Appends(s, Step(s, Reply(t, true, error, expired, true)), s.jobs[t].conn, m)
      && Asked(es, t, f) && About(m, t) && RightReply(f, error, expired, m)
      && m.sid == s.conns[s.jobs[t].conn].sid
  {
    var s := Run(START, es);
    RunSourced(es);
    RunKeeps(START, es);
    assert JobOk(s, t);
    assert JobAsked(es, t, s.jobs[t]);
    f :| Asked(es, t, f) && f.topic == s.jobs[t].topic && f.requestId == s.jobs[t].requestId;
    m := ReplyAppends(s, t, error, expired);
  }

  /** A handler that returns makes its job ready to answer, and changes nothing else. */
  lemma ReturnIsNoted(s: Client, t: nat)
    requires t in s.jobs && s.jobs[t].phase.Handling?
    ensures var r := Step(s, HandlerReturns(t));
      r == s.(jobs := s.jobs[t := s.jobs[t].(phase := Returned)])
  {
  }

  /** Otherwise nothing is written: the session is over, or it ends here. */
  lemma HandlerIsNotAnswered(s: Client, t: nat, configSame: bool, error: Option<Fault>, expired: bool, ok: bool)
    requires t in s.jobs && s.jobs[t].phase.Returned? && s.jobs[t].conn < |s.conns|
    requires !s.conns[s.jobs[t].conn].alive || !configSame || !ok
    ensures var r := Step(s, Reply(t, configSame, error, expired, ok));
      && |r.conns| == |s.conns| && (forall i :: 0 <= i < |s.conns| ==> r.conns[i].log == s.conns[i].log)
      && !r.conns[s.jobs[t].conn].alive
  {
  }

  /** Answered or not, the job then gives its topic back. */
  lemma TopicIsReleased(s: Client, t: nat)
    requires t in s.jobs && s.jobs[t].phase.Releasing?
    ensures var r := Step(s, Release(t)); r.jobs == s.jobs - {t} && r.busy == s.busy - {s.jobs[t].topic}
  {
  }

  // ---- what the reader answers

  /** The current connection has a session and waits for frames. */
  predicate Listening(s: Client) {
    s.reader.Reading? && s.conns != [] && s.conns[Last(s)].alive && s.conns[Last(s)].sid != ""
  }

  /** A ping is answered with its own nonce. */
  lemma PingIsAnswered(s: Client, f: Frame)
    requires Listening(s) && f.kind.PingKind? && f.sessionId == s.conns[Last(s)].sid
    ensures Appends(s, Step(s, Receive(f, true, true)), Last(s), Pong(s.conns[Last(s)].sid, f.nonce))
  {
  }

  /** A request is acked if its time limit lies in 1 to 5000 ms and its topic is one of the
      three; any other is refused alone, with `collection_failed`. */
  lemma RequestIsAnswered(s: Client, f: Frame)
    requires Listening(s) && f.kind.RequestKind? && f.sessionId == s.conns[Last(s)].sid && |f.requestId| == 36
    ensures var r, sid := Step(s, Receive(f, true, true)), s.conns[Last(s)].sid;
      if 1 <= f.timeoutMs <= 5000 && (f.topic == Metrics || f.topic == Processes || f.topic == Docker)
      then Appends(s, r, Last(s), Ack(sid, f.requestId, s.tickets)) && r.reader == Acked(f, s.tickets)
      else Appends(s, r, Last(s), Failure(sid, f.requestId, CollectionFailed, s.tickets)) && r.reader.Reading?
    ensures Step(s, Receive(f, true, true)).tickets == s.tickets + 1
  {
  }

  /** An acked request whose topic is busy is answered with `collection_busy`. */
  lemma BusyIsAnswered(s: Client)
    requires s.reader.Acked? && s.conns != [] && s.conns[Last(s)].alive && s.reader.request.topic in s.busy
    ensures var f, t := s.reader.request, s.reader.ticket;
      var r := Step(Step(s, ClaimTopic), RefuseBusy(true));
      && Appends(s, r, Last(s), Failure(s.conns[Last(s)].sid, f.requestId, CollectionBusy, t))
      && r.reader.Reading? && r.jobs == s.jobs && r.busy == s.busy
  {
  }

  /** An acked request whose topic is free gets a handler of its own. */
  lemma FreeTopicIsServed(s: Client)
    requires s.reader.Acked? && s.conns != [] && s.reader.request.topic !in s.busy
    ensures var f, t, c := s.reader.request, s.reader.ticket, s.conns[Last(s)];
      var r := Step(Step(s, ClaimTopic), Spawn);
      && r.jobs == s.jobs[t := Job(Last(s), f.topic, f.requestId, c.sid, c.revision, Handling)]
      && r.busy == s.busy + {f.topic} && r.reader.Reading? && r.conns == s.conns
  {
  }

  /** A welcome is answered with ready, under the new session id. */
  lemma WelcomeIsAnswered(s: Client, f: Frame)
    requires s.reader.Reading? && s.conns != [] && s.conns[Last(s)].alive && s.conns[Last(s)].sid == ""
    requires f.kind.WelcomeKind? && f.protocolVersion == 1 && |f.sessionId| == 36
    ensures Appends(s, Step(s, Receive(f, true, true)), Last(s), Ready(f.sessionId))
    ensures Step(s, Receive(f, true, true)).conns[Last(s)].sid == f.sessionId
  {
  }

  /** Frames of another session, or before any, end the connection without an answer. */
  lemma StrangerEndsConnection(s: Client, f: Frame)
    requires s.reader.Reading? && s.conns != [] && s.conns[Last(s)].alive
    requires f.sessionId != s.conns[Last(s)].sid && s.conns[Last(s)].sid != ""
    ensures var r := Step(s, Receive(f, true, true));
      r.reader.Closed? && !r.conns[Last(s)].alive && r.conns[Last(s)].log == s.conns[Last(s)].log
  {
  }
}
