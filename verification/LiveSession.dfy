/** The agent's live channel: one client, a succession of connections to the Hub,
    and one background job per accepted request. Every step below is one critical
    section or one socket write of the reader or of a job; an event carries what
    the environment decided (the frame, whether a write went through, whether the
    configuration is still the one the connection was opened with). */
module LiveSession {
  import opened Text

  const ID_LENGTH := 36
  const MAX_TIMEOUT_MS := 5000

  datatype Kind = WelcomeKind | PingKind | RequestKind | OtherKind
  datatype Topic = Metrics | Processes | Docker | OtherTopic(name: string)

  /** What a handler may fail with: one of the three error texts the protocol
      passes on, or any other error (a recovered panic included). */
  datatype Fault = Disabled | DockerUnavailable | DockerDenied | OtherFault

  datatype Code = CollectionFailed | CollectionBusy | QueryExpired | Passed(fault: Fault)

  datatype Frame = Frame(kind: Kind, protocolVersion: int, revision: int, sessionId: string,
                         requestId: string, topic: Topic, nonce: string, timeoutMs: int)

  /** A frame the agent wrote. Replies name the request they answer by its ticket,
      the position of that request among all requests the client has read: the Hub
      may reuse a request id. */
  datatype Sent =
    | Hello
    | Ready(sid: string)
    | Pong(sid: string, nonce: string)
    | Ack(sid: string, requestId: string, ticket: nat)
    | Result(sid: string, requestId: string, topic: Topic, ticket: nat)
    | Failure(sid: string, requestId: string, code: Code, ticket: nat)

  predicate About(m: Sent, t: nat) { (m.Ack? || m.Result? || m.Failure?) && m.ticket == t }

  /** sid is empty until the welcome; alive is false once the session context is cancelled. */
  datatype Connection = Connection(sid: string, revision: int, alive: bool, log: seq<Sent>)

  datatype Reader =
    | Closed
    | Reading
    | Acked(request: Frame, ticket: nat)
    | Occupied(request: Frame, ticket: nat)
    | Claimed(request: Frame, ticket: nat)

  datatype Phase = Handling | Returned | Releasing

  datatype Job = Job(conn: nat, topic: Topic, requestId: string, sid: string, revision: int, phase: Phase)

  datatype Client = Client(busy: set<Topic>, conns: seq<Connection>, reader: Reader,
                           jobs: map<nat, Job>, tickets: nat)

  datatype Event =
    | Connect
    | Cancel
    | ReadFails
    | Receive(frame: Frame, configSame: bool, writeOk: bool)
    | ClaimTopic
    | RefuseBusy(writeOk: bool)
    | Spawn
    | HandlerReturns(job: nat)
    | Reply(job: nat, configSame: bool, error: Option<Fault>, expired: bool, writeOk: bool)
    | Release(job: nat)

  const START := Client({}, [], Closed, map[], 0)

  function Last(s: Client): int { |s.conns| - 1 }

  function Update(s: Client, i: nat, c: Connection): Client
    requires i < |s.conns|
  {
    s.(conns := s.conns[i := c])
  }

  function Write(c: Connection, m: Sent): Connection { c.(log := c.log + [m]) }

  /** The reader returns: its session context is cancelled with it. */
  function Close(s: Client): Client
    requires s.conns != []
  {
    Update(s, Last(s), s.conns[Last(s)].(alive := false)).(reader := Closed)
  }

  /** Write on the current connection, or give the connection up. */
  function Send(s: Client, m: Sent, ok: bool): Client
    requires s.conns != []
  {
    if ok && s.conns[Last(s)].alive then Update(s, Last(s), Write(s.conns[Last(s)], m)) else Close(s)
  }

  predicate Servable(f: Frame) { 0 < f.timeoutMs <= MAX_TIMEOUT_MS && !f.topic.OtherTopic? }

  predicate Welcome(c: Connection, f: Frame) {
    f.kind.WelcomeKind? && c.sid == "" && f.protocolVersion == 1 && |f.sessionId| == ID_LENGTH
  }

  function OnFrame(s: Client, f: Frame, ok: bool): Client
    requires s.conns != []
  {
    var c := s.conns[Last(s)];
    if Welcome(c, f) then
      var welcomed := c.(sid := f.sessionId, revision := if f.revision > 1 then f.revision else c.revision);
      Send(Update(s, Last(s), welcomed), Ready(f.sessionId), ok)
    else if c.sid == "" || f.sessionId != c.sid then Close(s)
    else if f.kind.PingKind? then Send(s, Pong(c.sid, f.nonce), ok)
    else if !f.kind.RequestKind? then s
    else if |f.requestId| != ID_LENGTH then Close(s)
    else OnRequest(s.(tickets := s.tickets + 1), c.sid, f, s.tickets, ok)
  }

  function OnRequest(s: Client, sid: string, f: Frame, t: nat, ok: bool): Client
    requires s.conns != []
  {
    if !Servable(f) then Send(s, Failure(sid, f.requestId, CollectionFailed, t), ok)
    else
      var acked := Send(s, Ack(sid, f.requestId, t), ok);
      if acked.reader.Closed? then acked else acked.(reader := Acked(f, t))
  }

  function ReplyTo(j: Job, t: nat, error: Option<Fault>, expired: bool): Sent {
    if expired then Failure(j.sid, j.requestId, QueryExpired, t)
    else match error
      case None => Result(j.sid, j.requestId, j.topic, t)
      case Some(fault) =>
        Failure(j.sid, j.requestId, if fault.OtherFault? then CollectionFailed else Passed(fault), t)
  }

  function OnReply(s: Client, t: nat, configSame: bool, error: Option<Fault>, expired: bool, ok: bool): Client
    requires t in s.jobs && s.jobs[t].conn < |s.conns|
  {
    var j := s.jobs[t];
    var c := s.conns[j.conn];
    var done := s.(jobs := s.jobs[t := j.(phase := Releasing)]);
    if !c.alive then done
    else if configSame && ok then Update(done, j.conn, Write(c, ReplyTo(j, t, error, expired)))
    else Update(done, j.conn, c.(alive := false))
  }

  /** One step of the client; an event that is not enabled changes nothing. */
  function Step(s: Client, e: Event): Client {
    match e
    case Connect =>
      if s.reader.Closed? then s.(conns := s.conns + [Connection("", 1, true, [Hello])], reader := Reading) else s
    case Cancel =>
      if s.conns == [] then s else Update(s, Last(s), s.conns[Last(s)].(alive := false))
    case ReadFails =>
      if s.reader.Reading? && s.conns != [] then Close(s) else s
    case Receive(f, configSame, ok) =>
      if !s.reader.Reading? || s.conns == [] then s
      else if !s.conns[Last(s)].alive || !configSame then Close(s)
      else OnFrame(s, f, ok)
    case ClaimTopic =>
      if !s.reader.Acked? then s
      else if s.reader.request.topic in s.busy then s.(reader := Occupied(s.reader.request, s.reader.ticket))
      else s.(busy := s.busy + {s.reader.request.topic}, reader := Claimed(s.reader.request, s.reader.ticket))
    case RefuseBusy(ok) =>
      if !s.reader.Occupied? || s.conns == [] then s
      else
        var c := s.conns[Last(s)];
        Send(s.(reader := Reading), Failure(c.sid, s.reader.request.requestId, CollectionBusy, s.reader.ticket), ok)
    case Spawn =>
      if !s.reader.Claimed? || s.conns == [] then s
      else
        var c, f := s.conns[Last(s)], s.reader.request;
        s.(jobs := s.jobs[s.reader.ticket := Job(Last(s), f.topic, f.requestId, c.sid, c.revision, Handling)], reader := Reading)
    case HandlerReturns(t) =>
      if t in s.jobs && s.jobs[t].phase.Handling? then s.(jobs := s.jobs[t := s.jobs[t].(phase := Returned)]) else s
    case Reply(t, configSame, error, expired, ok) =>
      if t in s.jobs && s.jobs[t].phase.Returned? && s.jobs[t].conn < |s.conns|
      then OnReply(s, t, configSame, error, expired, ok) else s
    case Release(t) =>
      if t in s.jobs && s.jobs[t].phase.Releasing?
      then s.(jobs := s.jobs - {t}, busy := s.busy - {s.jobs[t].topic}) else s
  }

  function Run(s: Client, es: seq<Event>): Client
    decreases |es|
  {
    if es == [] then s else Run(Step(s, es[0]), es[1..])
  }

  // ---- topic exclusion

  ghost predicate HoldsTopic(s: Client, topic: Topic) {
    || (s.reader.Claimed? && s.reader.request.topic == topic)
    || exists t :: t in s.jobs && s.jobs[t].topic == topic
  }

  /** `busy` names exactly the topics held by a job or by the reader about to start
      one, and no topic is held twice. */
  ghost predicate TopicsExclusive(s: Client) {
    && (forall topic :: topic in s.busy <==> HoldsTopic(s, topic))
    && (forall t, u :: t in s.jobs && u in s.jobs && t != u ==> s.jobs[t].topic != s.jobs[u].topic)
    && (s.reader.Claimed? ==> forall t :: t in s.jobs ==> s.jobs[t].topic != s.reader.request.topic)
  }

  // ---- frames of one connection

  predicate Carries(m: Sent, sid: string) { !m.Hello? && m.sid == sid }

  /** After the hello every frame carries the session id, which is then set. */
  ghost predicate Framed(c: Connection) {
    && |c.log| > 0 && c.log[0] == Hello
    && c.revision >= 1
    && (if c.sid == "" then |c.log| == 1 else |c.sid| == ID_LENGTH)
    && forall i :: 1 <= i < |c.log| ==> Carries(c.log[i], c.sid)
  }

  /** What a connection's log says about one request so far. */
  datatype Standing =
    | Silent                        // nothing written
    | Waiting(requestId: string)    // acked
    | Answered(requestId: string)   // acked, then exactly one result or error
    | Refused(requestId: string)    // one error and no ack
    | Garbled                       // anything else

  function Advance(st: Standing, m: Sent): Standing {
    if st.Silent? && m.Ack? then Waiting(m.requestId)
    else if st.Silent? && m.Failure? then Refused(m.requestId)
    else if st.Waiting? && (m.Result? || m.Failure?) && m.requestId == st.requestId then Answered(st.requestId)
    else Garbled
  }

  function Standings(log: seq<Sent>, t: nat): Standing {
    if log == [] then Silent
    else
      var m, before := log[|log| - 1], Standings(log[..|log| - 1], t);
      if About(m, t) then Advance(before, m) else before
  }

  predicate ReaderHolds(s: Client, t: nat) {
    (s.reader.Acked? || s.reader.Occupied? || s.reader.Claimed?) && s.reader.ticket == t
  }

  /** Request t was acked on connection i and its reply is still to be written. */
  predicate InProgress(s: Client, i: nat, t: nat) {
    || (ReaderHolds(s, t) && i == Last(s))
    || (t in s.jobs && s.jobs[t].conn == i && !s.jobs[t].phase.Releasing?)
  }

  function RequestIdOf(s: Client, t: nat): string
    requires ReaderHolds(s, t) || t in s.jobs
  {
    if t in s.jobs then s.jobs[t].requestId else s.reader.request.requestId
  }

  /** What the log of connection i says about request t: never anything garbled, a
      request in progress is acked and unanswered, and on a live connection the only
      acked requests without a reply are those in progress. */
  predicate TraceOk(s: Client, i: nat, t: nat)
    requires i < |s.conns|
  {
    var st := Standings(s.conns[i].log, t);
    && !st.Garbled?
    && (t >= s.tickets ==> st.Silent?)
    && (InProgress(s, i, t) ==> st == Waiting(RequestIdOf(s, t)))
    && (s.conns[i].alive && st.Waiting? ==> InProgress(s, i, t))
  }

  ghost predicate TracesOrderly(s: Client) {
    forall i: nat, t: nat :: i < |s.conns| ==> TraceOk(s, i, t)
  }

  predicate JobOk(s: Client, t: nat)
    requires t in s.jobs
  {
    var j := s.jobs[t];
    && t < s.tickets && j.conn < |s.conns|
    && j.sid == s.conns[j.conn].sid != ""
    && j.revision == s.conns[j.conn].revision
  }

  ghost predicate Shaped(s: Client) {
    && (forall i :: 0 <= i < |s.conns| ==> Framed(s.conns[i]))
    && (!s.reader.Closed? ==> s.conns != [])
    && (forall t: nat :: ReaderHolds(s, t) ==> t < s.tickets && t !in s.jobs && s.conns[Last(s)].sid != "")
    && (forall t :: t in s.jobs ==> JobOk(s, t))
  }

  ghost predicate Inv(s: Client) { Shaped(s) && TopicsExclusive(s) && TracesOrderly(s) }

  lemma StandingAfterWrite(c: Connection, m: Sent, t: nat)
    ensures Standings(Write(c, m).log, t) ==
            if About(m, t) then Advance(Standings(c.log, t), m) else Standings(c.log, t)
  {
    assert Write(c, m).log[..|c.log|] == c.log;
  }

  // ---- every step keeps the invariant

  /** Changing one connection's liveness, or writing a frame that concerns no
      request, leaves every request where it was. */
  lemma ConnectionKeeps(s: Client, i: nat, c: Connection)
    requires Inv(s) && i < |s.conns| && Framed(c)
    requires c.alive ==> s.conns[i].alive
    requires s.conns[i].sid != "" ==> c.sid == s.conns[i].sid && c.revision == s.conns[i].revision
    requires forall t: nat :: Standings(c.log, t) == Standings(s.conns[i].log, t)
    ensures Inv(Update(s, i, c))
  {
    var r := Update(s, i, c);
    forall k: nat, t: nat | k < |r.conns| ensures TraceOk(r, k, t) {
      assert TraceOk(s, k, t);
    }
    forall k | 0 <= k < |r.conns| ensures Framed(r.conns[k]) {
      assert Framed(s.conns[k]);
    }
    forall t | t in r.jobs ensures JobOk(r, t) {
      assert JobOk(s, t);
    }
    forall t: nat | ReaderHolds(r, t) ensures t < r.tickets && t !in r.jobs && r.conns[Last(r)].sid != "" {
      assert ReaderHolds(s, t);
    }
    assert forall topic :: HoldsTopic(r, topic) <==> HoldsTopic(s, topic);
  }

  /** A reader that holds no request may come and go. */
  lemma IdleReaderKeeps(s: Client, reader: Reader, tickets: nat)
    requires Inv(s) && (s.reader.Reading? || s.reader.Closed?) && tickets >= s.tickets
    requires reader.Closed? || (reader.Reading? && s.conns != [])
    ensures Inv(s.(reader := reader, tickets := tickets))
  {
    var r := s.(reader := reader, tickets := tickets);
    forall k: nat, t: nat | k < |r.conns| ensures TraceOk(r, k, t) {
      assert TraceOk(s, k, t);
    }
    forall t | t in r.jobs ensures JobOk(r, t) {
      assert JobOk(s, t);
    }
    assert forall topic :: HoldsTopic(r, topic) <==> HoldsTopic(s, topic);
  }

  lemma CloseKeeps(s: Client)
    requires Inv(s) && s.reader.Reading?
    ensures Inv(Close(s))
  {
    var dead := s.conns[Last(s)].(alive := false);
    ConnectionKeeps(s, Last(s), dead);
    IdleReaderKeeps(Update(s, Last(s), dead), Closed, s.tickets);
  }

  lemma ConnectKeeps(s: Client)
    requires Inv(s) && s.reader.Closed?
    ensures Inv(Step(s, Connect))
  {
    var r := Step(s, Connect);
    var n := |s.conns|;
    forall k: nat, t: nat | k < |r.conns| ensures TraceOk(r, k, t) {
      if k < n {
        assert TraceOk(s, k, t);
      } else {
        assert [Hello][..0] == [];
        assert t in s.jobs ==> JobOk(s, t);
      }
    }
    forall k | 0 <= k < |r.conns| ensures Framed(r.conns[k]) {
      assert k < n ==> Framed(s.conns[k]);
    }
    forall t | t in r.jobs ensures JobOk(r, t) {
      assert JobOk(s, t);
    }
    assert forall topic :: HoldsTopic(r, topic) <==> HoldsTopic(s, topic);
  }

  /** Frames about no request: ready and pong. */
  lemma SendPlainKeeps(s: Client, m: Sent, ok: bool)
    requires Inv(s) && s.reader.Reading?
    requires (m.Ready? || m.Pong?) && m.sid == s.conns[Last(s)].sid != ""
    ensures Inv(Send(s, m, ok))
  {
    var c := s.conns[Last(s)];
    if ok && c.alive {
      forall t: nat ensures Standings(Write(c, m).log, t) == Standings(c.log, t) {
        StandingAfterWrite(c, m, t);
      }
      assert Framed(c);
      ConnectionKeeps(s, Last(s), Write(c, m));
    } else {
      CloseKeeps(s);
    }
  }

  lemma WelcomeKeeps(s: Client, f: Frame, ok: bool)
    requires Inv(s) && s.reader.Reading? && Welcome(s.conns[Last(s)], f)
    ensures Inv(OnFrame(s, f, ok))
  {
    var c := s.conns[Last(s)];
    assert Framed(c);
    var welcomed := c.(sid := f.sessionId, revision := if f.revision > 1 then f.revision else c.revision);
    ConnectionKeeps(s, Last(s), welcomed);
    SendPlainKeeps(Update(s, Last(s), welcomed), Ready(f.sessionId), ok);
  }

  /** A frame written with the session id keeps the connection framed. */
  lemma WriteFramed(c: Connection, m: Sent)
    requires Framed(c) && Carries(m, c.sid) && c.sid != ""
    ensures Framed(Write(c, m))
  {
  }

  /** The first frame about a new request: an ack, or a refusal without one. */
  function FirstFrame(sid: string, f: Frame, t: nat): Sent {
    if Servable(f) then Ack(sid, f.requestId, t) else Failure(sid, f.requestId, CollectionFailed, t)
  }

  /** r follows s by writing m, the first frame about the next request. */
  ghost predicate Opens(s: Client, r: Client, f: Frame, m: Sent) {
    && s.reader.Reading? && s.conns != []
    && (m.Ack? || m.Failure?) && m.ticket == s.tickets && m.requestId == f.requestId
    && r == Client(s.busy, s.conns[Last(s) := Write(s.conns[Last(s)], m)],
                   if m.Ack? then Acked(f, s.tickets) else Reading, s.jobs, s.tickets + 1)
  }

  lemma FirstFrameTrace(s: Client, r: Client, f: Frame, m: Sent, k: nat, t: nat)
    requires Opens(s, r, f, m) && k < |s.conns|
    requires TraceOk(s, k, t) && (t in s.jobs ==> t < s.tickets)
    ensures TraceOk(r, k, t)
  {
    StandingAfterWrite(s.conns[Last(s)], m, t);
  }

  lemma FirstFrameKeeps(s: Client, r: Client, f: Frame, m: Sent)
    requires Inv(s) && Opens(s, r, f, m)
    requires Carries(m, s.conns[Last(s)].sid) && s.conns[Last(s)].sid != ""
    ensures Inv(r)
  {
    forall t | t in r.jobs ensures JobOk(r, t) {
      assert JobOk(s, t);
    }
    forall k: nat, t: nat | k < |r.conns| ensures TraceOk(r, k, t) {
      assert TraceOk(s, k, t) && (t in s.jobs ==> JobOk(s, t));
      FirstFrameTrace(s, r, f, m, k, t);
    }
    forall k | 0 <= k < |r.conns| ensures Framed(r.conns[k]) {
      assert Framed(s.conns[k]);
      if k == Last(s) {
        WriteFramed(s.conns[k], m);
      }
    }
    forall t: nat | ReaderHolds(r, t) ensures t < r.tickets && t !in r.jobs {
      assert t in s.jobs ==> JobOk(s, t);
    }
    assert forall topic :: HoldsTopic(r, topic) <==> HoldsTopic(s, topic);
  }

  lemma OnRequestKeeps(s: Client, f: Frame, ok: bool)
    requires Inv(s) && s.reader.Reading? && s.conns[Last(s)].sid != ""
    ensures Inv(OnRequest(s.(tickets := s.tickets + 1), s.conns[Last(s)].sid, f, s.tickets, ok))
  {
    if ok && s.conns[Last(s)].alive {
      var sid, n := s.conns[Last(s)].sid, s.tickets;
      FirstFrameKeeps(s, OnRequest(s.(tickets := n + 1), sid, f, n, true), f, FirstFrame(sid, f, n));
    } else {
      IdleReaderKeeps(s, Reading, s.tickets + 1);
      CloseKeeps(s.(tickets := s.tickets + 1));
    }
  }

  lemma OnFrameKeeps(s: Client, f: Frame, ok: bool)
    requires Inv(s) && s.reader.Reading? && s.conns[Last(s)].alive
    ensures Inv(OnFrame(s, f, ok))
  {
    var c := s.conns[Last(s)];
    if Welcome(c, f) {
      WelcomeKeeps(s, f, ok);
    } else if c.sid == "" || f.sessionId != c.sid {
      CloseKeeps(s);
    } else if f.kind.PingKind? {
      SendPlainKeeps(s, Pong(c.sid, f.nonce), ok);
    } else if f.kind.RequestKind? {
      if |f.requestId| == ID_LENGTH {
        OnRequestKeeps(s, f, ok);
      } else {
        CloseKeeps(s);
      }
    }
  }

  lemma ReceiveKeeps(s: Client, f: Frame, configSame: bool, ok: bool)
    requires Inv(s) && s.reader.Reading?
    ensures Inv(Step(s, Receive(f, configSame, ok)))
  {
    if s.conns[Last(s)].alive && configSame {
      OnFrameKeeps(s, f, ok);
    } else {
      CloseKeeps(s);
    }
  }

  lemma ClaimKeeps(s: Client)
    requires Inv(s) && s.reader.Acked?
    ensures Inv(Step(s, ClaimTopic))
  {
    var r := Step(s, ClaimTopic);
    assert ReaderHolds(s, s.reader.ticket);
    forall k: nat, t: nat | k < |r.conns| ensures TraceOk(r, k, t) {
      assert TraceOk(s, k, t);
    }
    forall t | t in r.jobs ensures JobOk(r, t) {
      assert JobOk(s, t);
    }
    forall topic ensures topic in r.busy <==> HoldsTopic(r, topic) {
      assert topic in s.busy <==> HoldsTopic(s, topic);
    }
    assert r.reader.Claimed? ==> !HoldsTopic(s, s.reader.request.topic);
  }

  /** r follows s by answering the request the reader holds with a busy error, or by
      losing the connection while doing so. */
  ghost predicate Refuses(s: Client, r: Client, c: Connection, reader: Reader) {
    && s.reader.Occupied? && s.conns != [] && (reader.Reading? || reader.Closed?)
    && var last := s.conns[Last(s)];
    && r == s.(conns := s.conns[Last(s) := c], reader := reader)
    && (|| c == Write(last, Failure(last.sid, s.reader.request.requestId, CollectionBusy, s.reader.ticket))
        || c == last.(alive := false))
  }

  lemma RefuseTrace(s: Client, r: Client, c: Connection, reader: Reader, k: nat, t: nat)
    requires Refuses(s, r, c, reader) && k < |s.conns|
    requires TraceOk(s, k, t) && s.reader.ticket !in s.jobs && s.reader.ticket < s.tickets
    ensures TraceOk(r, k, t)
  {
    var last := s.conns[Last(s)];
    StandingAfterWrite(last, Failure(last.sid, s.reader.request.requestId, CollectionBusy, s.reader.ticket), t);
  }

  lemma RefusesKeeps(s: Client, r: Client, c: Connection, reader: Reader)
    requires Inv(s) && Refuses(s, r, c, reader)
    ensures Inv(r)
  {
    assert ReaderHolds(s, s.reader.ticket);
    forall k: nat, t: nat | k < |r.conns| ensures TraceOk(r, k, t) {
      assert TraceOk(s, k, t);
      RefuseTrace(s, r, c, reader, k, t);
    }
    var last := s.conns[Last(s)];
    forall k | 0 <= k < |r.conns| ensures Framed(r.conns[k]) {
      assert Framed(s.conns[k]);
      if k == Last(s) {
        WriteFramed(last, Failure(last.sid, s.reader.request.requestId, CollectionBusy, s.reader.ticket));
      }
    }
    forall t | t in r.jobs ensures JobOk(r, t) {
      assert JobOk(s, t);
    }
    assert forall topic :: HoldsTopic(r, topic) <==> HoldsTopic(s, topic);
  }

  lemma RefuseKeeps(s: Client, ok: bool)
    requires Inv(s) && s.reader.Occupied?
    ensures Inv(Step(s, RefuseBusy(ok)))
  {
    var r := Step(s, RefuseBusy(ok));
    RefusesKeeps(s, r, r.conns[Last(s)], r.reader);
  }

  lemma SpawnKeeps(s: Client)
    requires Inv(s) && s.reader.Claimed?
    ensures Inv(Step(s, Spawn))
  {
    var r, n := Step(s, Spawn), s.reader.ticket;
    assert ReaderHolds(s, n);
    forall k: nat, t: nat | k < |r.conns| ensures TraceOk(r, k, t) {
      assert TraceOk(s, k, t);
    }
    forall t | t in r.jobs ensures JobOk(r, t) {
      assert t != n ==> JobOk(s, t);
    }
    SpawnTopics(s);
  }

  lemma SpawnTopics(s: Client)
    requires Inv(s) && s.reader.Claimed?
    ensures TopicsExclusive(Step(s, Spawn))
  {
    var r, n := Step(s, Spawn), s.reader.ticket;
    assert ReaderHolds(s, n);
    forall topic ensures HoldsTopic(r, topic) <==> HoldsTopic(s, topic) {
      assert r.jobs[n].topic == s.reader.request.topic;
      assert forall t :: t in s.jobs ==> t in r.jobs && r.jobs[t] == s.jobs[t];
    }
  }

  /** A job that keeps its topic may change phase; only the reply leaves the
      in-progress phases. */
  lemma PhaseKeepsTopics(s: Client, t: nat, phase: Phase)
    requires Inv(s) && t in s.jobs
    ensures TopicsExclusive(s.(jobs := s.jobs[t := s.jobs[t].(phase := phase)]))
  {
    var r := s.(jobs := s.jobs[t := s.jobs[t].(phase := phase)]);
    forall topic ensures HoldsTopic(r, topic) <==> HoldsTopic(s, topic) {
      assert forall u :: u in s.jobs ==> r.jobs[u].topic == s.jobs[u].topic;
    }
  }

  lemma ReturnKeeps(s: Client, n: nat)
    requires Inv(s) && n in s.jobs && s.jobs[n].phase.Handling?
    ensures Inv(Step(s, HandlerReturns(n)))
  {
    var r := Step(s, HandlerReturns(n));
    PhaseKeepsTopics(s, n, Returned);
    forall k: nat, t: nat | k < |r.conns| ensures TraceOk(r, k, t) {
      assert TraceOk(s, k, t);
    }
    forall t | t in r.jobs ensures JobOk(r, t) {
      assert JobOk(s, t);
    }
    forall t: nat | ReaderHolds(r, t) ensures t < r.tickets && t !in r.jobs && r.conns[Last(r)].sid != "" {
      assert ReaderHolds(s, t);
    }
  }

  lemma ReplyTrace(s: Client, n: nat, configSame: bool, error: Option<Fault>, expired: bool, ok: bool, k: nat, t: nat)
    requires n in s.jobs && s.jobs[n].phase.Returned? && s.jobs[n].conn < |s.conns| && k < |s.conns|
    requires TraceOk(s, k, t) && n < s.tickets && !ReaderHolds(s, n)
    ensures TraceOk(OnReply(s, n, configSame, error, expired, ok), k, t)
  {
    var j := s.jobs[n];
    StandingAfterWrite(s.conns[j.conn], ReplyTo(j, n, error, expired), t);
  }

  lemma ReplyShaped(s: Client, n: nat, configSame: bool, error: Option<Fault>, expired: bool, ok: bool)
    requires Inv(s) && n in s.jobs && s.jobs[n].conn < |s.conns|
    ensures Shaped(OnReply(s, n, configSame, error, expired, ok))
  {
    var j := s.jobs[n];
    var r := OnReply(s, n, configSame, error, expired, ok);
    assert JobOk(s, n);
    forall k | 0 <= k < |r.conns| ensures Framed(r.conns[k]) {
      assert Framed(s.conns[k]);
      if k == j.conn {
        WriteFramed(s.conns[k], ReplyTo(j, n, error, expired));
      }
    }
    forall t | t in r.jobs ensures JobOk(r, t) {
      assert JobOk(s, t);
    }
    forall t: nat | ReaderHolds(r, t) ensures t < r.tickets && t !in r.jobs && r.conns[Last(r)].sid != "" {
      assert ReaderHolds(s, t);
    }
  }

  lemma ReplyKeeps(s: Client, n: nat, configSame: bool, error: Option<Fault>, expired: bool, ok: bool)
    requires Inv(s) && n in s.jobs && s.jobs[n].phase.Returned?
    ensures Inv(Step(s, Reply(n, configSame, error, expired, ok)))
  {
    assert JobOk(s, n);
    var r := OnReply(s, n, configSame, error, expired, ok);
    forall k: nat, t: nat | k < |r.conns| ensures TraceOk(r, k, t) {
      assert TraceOk(s, k, t);
      ReplyTrace(s, n, configSame, error, expired, ok, k, t);
    }
    ReplyShaped(s, n, configSame, error, expired, ok);
    PhaseKeepsTopics(s, n, Releasing);
    var done := s.(jobs := s.jobs[n := s.jobs[n].(phase := Releasing)]);
    assert forall topic :: HoldsTopic(r, topic) <==> HoldsTopic(done, topic);
  }

  lemma ReleaseKeeps(s: Client, n: nat)
    requires Inv(s) && n in s.jobs && s.jobs[n].phase.Releasing?
    ensures Inv(Step(s, Release(n)))
  {
    var r := Step(s, Release(n));
    assert JobOk(s, n);
    forall k: nat, t: nat | k < |r.conns| ensures TraceOk(r, k, t) {
      assert TraceOk(s, k, t);
    }
    forall t | t in r.jobs ensures JobOk(r, t) {
      assert JobOk(s, t);
    }
    forall t: nat | ReaderHolds(r, t) ensures t < r.tickets && t !in r.jobs && r.conns[Last(r)].sid != "" {
      assert ReaderHolds(s, t);
    }
    ReleaseTopics(s, n);
  }

  lemma ReleaseTopics(s: Client, n: nat)
    requires Inv(s) && n in s.jobs && s.jobs[n].phase.Releasing?
    ensures TopicsExclusive(Step(s, Release(n)))
  {
    var r := Step(s, Release(n));
    forall topic ensures topic in r.busy <==> HoldsTopic(r, topic) {
      assert topic in s.busy <==> HoldsTopic(s, topic);
      assert forall t :: t in r.jobs <==> t in s.jobs && t != n;
      assert forall t :: t in s.jobs && t != n ==> r.jobs[t].topic == s.jobs[t].topic != s.jobs[n].topic;
    }
  }

  lemma StepKeeps(s: Client, e: Event)
    requires Inv(s)
    ensures Inv(Step(s, e))
  {
    match e
    case Connect => if s.reader.Closed? { ConnectKeeps(s); }
    case Cancel => if s.conns != [] {
      assert Framed(s.conns[Last(s)]);
      ConnectionKeeps(s, Last(s), s.conns[Last(s)].(alive := false));
    }
    case ReadFails => if s.reader.Reading? { CloseKeeps(s); }
    case Receive(f, configSame, ok) => if s.reader.Reading? { ReceiveKeeps(s, f, configSame, ok); }
    case ClaimTopic => if s.reader.Acked? { ClaimKeeps(s); }
    case RefuseBusy(ok) => if s.reader.Occupied? { RefuseKeeps(s, ok); }
    case Spawn => if s.reader.Claimed? { SpawnKeeps(s); }
    case HandlerReturns(t) => if t in s.jobs && s.jobs[t].phase.Handling? { ReturnKeeps(s, t); }
    case Reply(t, configSame, error, expired, ok) =>
      if t in s.jobs && s.jobs[t].phase.Returned? { ReplyKeeps(s, t, configSame, error, expired, ok); }
    case Release(t) => if t in s.jobs && s.jobs[t].phase.Releasing? { ReleaseKeeps(s, t); }
  }

  lemma {:induction false} RunKeeps(s: Client, es: seq<Event>)
    requires Inv(s)
    ensures Inv(Run(s, es))
    decreases |es|
  {
    if es != [] {
      StepKeeps(s, es[0]);
      RunKeeps(Step(s, es[0]), es[1..]);
    }
  }
}
