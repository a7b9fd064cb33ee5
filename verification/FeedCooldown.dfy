/** The update feed's request cooldown: a cache record persisted in stages, so that a crash
    or a failed write at any point never lets a request go out too early. */
module FeedCooldown {
  import opened Text

  const MAX_CACHE := 5 * 1024 * 1024
  const MIN_DELAY := 60

  datatype Cache<F> = Cache(feed: Option<F>, etag: string, nextRequest: int, nextAuto: int, failures: nat, channel: string)

  /** What a valid feed is, and how long an encoded cache record is. */
  datatype Rules<!F> = Rules(valid: F -> bool, size: Cache<F> -> nat)

  datatype Retry = NoRetry | Seconds(delay: int) | Date(unix: int)

  /** The outcome of one request: the process dies, the transport fails, or a response
      arrives, with its decoded body when it has one. */
  datatype Reply<F> =
    | Died
    | Unreachable
    | Response(status: int, body: Option<F>, etag: string, retry: Retry, reset: Option<int>)

  /** One call: its clock reading, what the network does, and which of the three writes of
      the cache succeed. A crash between writes looks like the later writes failing. */
  datatype Call<F> = Call(now: int, channel: string, reply: Reply<F>, jitter: nat, writes: (bool, bool, bool))

  datatype Answer<F> = Error | CoolingDown | Answer(feed: F, stale: bool)

  /** 64-bit wrap-around. */
  function Wrap64(x: int): int {
    (x + 0x8000_0000_0000_0000) % 0x1_0000_0000_0000_0000 - 0x8000_0000_0000_0000
  }

  function Max(a: int, b: int): int { if a > b then a else b }

  function Pow2(n: nat): nat { if n == 0 then 1 else 2 * Pow2(n - 1) }

  /** The delay after the given number of consecutive failures. */
  function Backoff(failures: nat): nat { MIN_DELAY * Pow2(if failures < 8 then failures else 8) }

  function Blank<F>(): Cache<F> { Cache(None, "", 0, 0, 0, "") }

  /** A record that is missing or too large counts as none; an invalid feed is dropped. */
  function Load<F>(rules: Rules<F>, disk: Option<Cache<F>>): Cache<F> {
    if disk.None? || rules.size(disk.value) > MAX_CACHE then Blank()
    else if disk.value.feed.Some? && !rules.valid(disk.value.feed.value) then disk.value.(feed := None, etag := "")
    else disk.value
  }

  predicate Failed<F>(rules: Rules<F>, state: Cache<F>, reply: Reply<F>) {
    match reply
    case Response(status, body, _, _, _) =>
      if status == 304 && state.feed.Some? then false
      else if status == 200 then body.None? || !rules.valid(body.value)
      else true
    case _ => true
  }

  /** The response headers may push the next request further out. */
  function Deferred<F>(state: Cache<F>, now: int, reply: Reply<F>): int {
    if !reply.Response? || reply.status == 200 then state.nextRequest
    else
      var next := match reply.retry
        case Seconds(delay) => Max(Wrap64(now + delay), state.nextRequest)
        case Date(unix) => Max(unix, state.nextRequest)
        case NoRetry => state.nextRequest;
      if reply.reset.Some? then Max(reply.reset.value, next) else next
  }

  function Settled<F>(rules: Rules<F>, state: Cache<F>, call: Call<F>): Cache<F> {
    if Failed(rules, state, call.reply) then
      var failures := state.failures + 1;
      state.(failures := failures,
             nextRequest := Max(call.now + Backoff(failures), Deferred(state, call.now, call.reply)))
    else
      var renewed := if call.reply.status == 200
        then state.(feed := call.reply.body, etag := call.reply.etag) else state;
      renewed.(failures := 0, nextAuto := call.now + 6 * 3600 + call.jitter % 1800)
  }

  function Opened<F>(rules: Rules<F>, disk: Option<Cache<F>>, channel: string): Cache<F> {
    Load(rules, disk).(channel := if channel == "test" then "preview" else channel)
  }

  function Claimed<F>(state: Cache<F>, now: int): Cache<F> { state.(nextRequest := now + MIN_DELAY) }

  /** The next request time has come. */
  predicate Due<F>(rules: Rules<F>, disk: Option<Cache<F>>, call: Call<F>) { call.now >= Load(rules, disk).nextRequest }

  /** What makes a due call report an error: a failed write, a crash, or a failed request
      without a feed to fall back on. */
  predicate Breaks<F>(rules: Rules<F>, disk: Option<Cache<F>>, call: Call<F>) {
    || !call.writes.1 || !call.writes.2 || call.reply.Died?
    || (Failed(rules, Load(rules, disk), call.reply) && Load(rules, disk).feed.None?)
  }

  /** The call sends a request. */
  predicate Sends<F>(rules: Rules<F>, disk: Option<Cache<F>>, call: Call<F>) {
    call.writes.0 && Due(rules, disk, call) && call.writes.1
  }

  /** The cache record the call leaves on disk. */
  function Stored<F>(rules: Rules<F>, disk: Option<Cache<F>>, call: Call<F>): Option<Cache<F>> {
    var state := Opened(rules, disk, call.channel);
    if !call.writes.0 then disk
    else if !Sends(rules, disk, call) then Some(state)
    else if call.reply.Died? || !call.writes.2 then Some(Claimed(state, call.now))
    else Some(Settled(rules, Claimed(state, call.now), call))
  }

  class Updater<!F> {
    const rules: Rules<F>
    var disk: Option<Cache<F>>

    constructor (rules: Rules<F>)
      ensures disk == None && this.rules == rules
    {
      this.rules := rules;
      disk := None;
    }

    /** Interpreting one response. */
    method Settle(claimed: Cache<F>, call: Call<F>) returns (state: Cache<F>, failed: bool)
      requires !call.reply.Died?
      ensures failed == Failed(rules, claimed, call.reply)
      ensures state == Settled(rules, claimed, call)
    {
      state, failed := claimed, false;
      match call.reply {
        case Unreachable => failed := true;
        case Response(status, body, etag, retry, reset) =>
          if status == 304 && state.feed.Some? {
            state := state.(failures := 0);
          } else if status == 200 {
            failed := body.None? || !rules.valid(body.value);
            if !failed {
              state := state.(feed := body, etag := etag, failures := 0);
            }
          } else {
            failed := true;
            if retry.Seconds? && Wrap64(call.now + retry.delay) > state.nextRequest {
              state := state.(nextRequest := Wrap64(call.now + retry.delay));
            } else if retry.Date? && retry.unix > state.nextRequest {
              state := state.(nextRequest := retry.unix);
            }
            if reset.Some? && reset.value > state.nextRequest {
              state := state.(nextRequest := reset.value);
            }
          }
      }
      if failed {
        state := state.(failures := state.failures + 1);
        var next := call.now + Backoff(state.failures);
        if next > state.nextRequest {
          state := state.(nextRequest := next);
        }
      } else {
        state := state.(nextAuto := call.now + 6 * 3600 + call.jitter % 1800);
      }
    }

    method Fetch(call: Call<F>) returns (sent: bool, answer: Answer<F>)
      modifies this`disk
      ensures sent == Sends(rules, old(disk), call)
      ensures disk == Stored(rules, old(disk), call)
      ensures answer.Error? <==> !call.writes.0 || (Due(rules, old(disk), call) && Breaks(rules, old(disk), call))
      ensures answer.CoolingDown? <==>
                call.writes.0 && !Due(rules, old(disk), call) && Load(rules, old(disk)).feed.None?
      ensures answer.Answer? ==> disk.Some? && disk.value.feed == Some(answer.feed)
      ensures answer.Answer? ==> answer.stale == (disk.value.failures > 0)
    {
      sent := false;
      var state := Load(rules, disk);
      state := state.(channel := if call.channel == "test" then "preview" else call.channel);
      if !call.writes.0 { return sent, Error; }
      disk := Some(state);
      if call.now >= state.nextRequest {
        state := state.(nextRequest := call.now + MIN_DELAY);
        if !call.writes.1 { return sent, Error; }
        disk := Some(state);
        sent := true;
        if call.reply.Died? { return sent, Error; }
        var failed;
        state, failed := Settle(state, call);
        if !call.writes.2 { return sent, Error; }
        disk := Some(state);
        if failed && state.feed.None? { return sent, Error; }
      }
      if state.feed.None? { return sent, CoolingDown; }
      answer := Answer(state.feed.value, state.failures > 0);
    }
  }

  // ---- one call

  /** The record on disk is small enough to be read again. */
  predicate Readable<F>(rules: Rules<F>, disk: Option<Cache<F>>) {
    disk.Some? ==> rules.size(disk.value) <= MAX_CACHE
  }

  function Next<F>(disk: Option<Cache<F>>): int { if disk.None? then 0 else disk.value.nextRequest }

  lemma BackoffAtLeast(failures: nat)
    ensures Backoff(failures) >= MIN_DELAY
  {
    PowPositive(if failures < 8 then failures else 8);
  }

  lemma {:induction false} PowPositive(n: nat)
    ensures Pow2(n) >= 1
  {
    if n > 0 {
      PowPositive(n - 1);
    }
  }

  /** What one call does to a readable record: the next request time never decreases, a
      request goes out only when it has come, and leaves it a minute or more away. */
  lemma CallKeepsCooldown<F>(rules: Rules<F>, disk: Option<Cache<F>>, call: Call<F>)
    requires Readable(rules, disk)
    ensures Next(Stored(rules, disk, call)) >= Next(disk)
    ensures Sends(rules, disk, call) ==> call.now >= Next(disk) && Next(Stored(rules, disk, call)) >= call.now + MIN_DELAY
  {
    BackoffAtLeast(Load(rules, disk).failures + 1);
  }

  /** The failure that the call wrote to disk, as the number of consecutive ones. */
  predicate FailurePersisted<F>(rules: Rules<F>, disk: Option<Cache<F>>, call: Call<F>) {
    && Sends(rules, disk, call) && !call.reply.Died? && call.writes.2
    && Failed(rules, Load(rules, disk), call.reply)
  }

  lemma FailureDelays<F>(rules: Rules<F>, disk: Option<Cache<F>>, call: Call<F>)
    requires FailurePersisted(rules, disk, call)
    ensures Stored(rules, disk, call).Some?
    ensures Stored(rules, disk, call).value.failures == Load(rules, disk).failures + 1
    ensures Next(Stored(rules, disk, call)) >= call.now + Backoff(Load(rules, disk).failures + 1)
  {
  }

  predicate SuccessPersisted<F>(rules: Rules<F>, disk: Option<Cache<F>>, call: Call<F>) {
    && Sends(rules, disk, call) && !call.reply.Died? && call.writes.2
    && !Failed(rules, Load(rules, disk), call.reply)
  }

  lemma CallCountsFailure<F>(rules: Rules<F>, disk: Option<Cache<F>>, call: Call<F>)
    requires Readable(rules, Stored(rules, disk, call))
    ensures var before, after := Load(rules, disk).failures, Load(rules, Stored(rules, disk, call)).failures;
      after == if SuccessPersisted(rules, disk, call) then 0
               else if FailurePersisted(rules, disk, call) then before + 1 else before
  {
  }

  /** Only a new valid feed replaces the feed in use. */
  lemma FeedKept<F>(rules: Rules<F>, disk: Option<Cache<F>>, call: Call<F>)
    requires Readable(rules, Stored(rules, disk, call))
    ensures var before, after := Load(rules, disk).feed, Load(rules, Stored(rules, disk, call)).feed;
      || after == before
      || (SuccessPersisted(rules, disk, call) && call.reply.status == 200 && after == call.reply.body
          && after.Some? && rules.valid(after.value))
  {
  }

  // ---- runs

  /** The record on disk after all the calls. */
  function After<F>(rules: Rules<F>, disk: Option<Cache<F>>, calls: seq<Call<F>>): Option<Cache<F>> {
    if calls == [] then disk
    else Stored(rules, After(rules, disk, calls[..|calls| - 1]), calls[|calls| - 1])
  }

  /** The records after i up to j calls are small enough to be read back. */
  ghost predicate ReadableBetween<F>(rules: Rules<F>, disk: Option<Cache<F>>, calls: seq<Call<F>>, i: nat, j: nat)
    requires j <= |calls|
  {
    forall k :: i <= k <= j ==> Readable(rules, After(rules, disk, calls[..k]))
  }

  lemma AfterStep<F>(rules: Rules<F>, disk: Option<Cache<F>>, calls: seq<Call<F>>, i: nat)
    requires i < |calls|
    ensures After(rules, disk, calls[..i + 1]) == Stored(rules, After(rules, disk, calls[..i]), calls[i])
  {
    assert calls[..i + 1][..i] == calls[..i];
  }

  /** The stored next request time never decreases. */
  lemma {:induction false} NextNeverDecreases<F>(rules: Rules<F>, disk: Option<Cache<F>>, calls: seq<Call<F>>, i: nat, j: nat)
    requires i <= j <= |calls| && ReadableBetween(rules, disk, calls, i, j)
    ensures Next(After(rules, disk, calls[..i])) <= Next(After(rules, disk, calls[..j]))
    decreases j
  {
    if i < j {
      NextNeverDecreases(rules, disk, calls, i, j - 1);
      AfterStep(rules, disk, calls, j - 1);
      CallKeepsCooldown(rules, After(rules, disk, calls[..j - 1]), calls[j - 1]);
    }
  }

  /** The i-th call of the run sends a request. */
  predicate SentAt<F>(rules: Rules<F>, disk: Option<Cache<F>>, calls: seq<Call<F>>, i: nat)
    requires i < |calls|
  {
    Sends(rules, After(rules, disk, calls[..i]), calls[i])
  }

  /** A request waits for the time stored by an earlier call. */
  lemma SendsAfterStored<F>(rules: Rules<F>, disk: Option<Cache<F>>, calls: seq<Call<F>>, i: nat, j: nat)
    requires i < j < |calls| && ReadableBetween(rules, disk, calls, i + 1, j) && SentAt(rules, disk, calls, j)
    ensures calls[j].now >= Next(After(rules, disk, calls[..i + 1]))
  {
    NextNeverDecreases(rules, disk, calls, i + 1, j);
    CallKeepsCooldown(rules, After(rules, disk, calls[..j]), calls[j]);
  }

  lemma SentStores<F>(rules: Rules<F>, disk: Option<Cache<F>>, call: Call<F>)
    requires Sends(rules, disk, call)
    ensures Next(Stored(rules, disk, call)) >= call.now + MIN_DELAY
  {
    BackoffAtLeast(Load(rules, disk).failures + 1);
  }

  /** Two requests of a run are at least a minute apart, whatever crashes, failed writes and
      responses lie between, as long as the records in between can be read back. */
  lemma RequestsAreSpaced<F>(rules: Rules<F>, disk: Option<Cache<F>>, calls: seq<Call<F>>, i: nat, j: nat)
    requires i < j < |calls| && ReadableBetween(rules, disk, calls, i + 1, j)
    requires SentAt(rules, disk, calls, i) && SentAt(rules, disk, calls, j)
    ensures calls[j].now >= calls[i].now + MIN_DELAY
  {
    SendsAfterStored(rules, disk, calls, i, j);
    AfterStep(rules, disk, calls, i);
    SentStores(rules, After(rules, disk, calls[..i]), calls[i]);
  }

  /** A persisted failure keeps every later request away for the doubled delay of its
      count. */
  lemma FailuresBackOff<F>(rules: Rules<F>, disk: Option<Cache<F>>, calls: seq<Call<F>>, i: nat, j: nat)
    requires i < j < |calls| && ReadableBetween(rules, disk, calls, i + 1, j) && SentAt(rules, disk, calls, j)
    requires FailurePersisted(rules, After(rules, disk, calls[..i]), calls[i])
    ensures var failures := Load(rules, After(rules, disk, calls[..i + 1])).failures;
      && failures == Load(rules, After(rules, disk, calls[..i])).failures + 1
      && calls[j].now >= calls[i].now + Backoff(failures)
  {
    SendsAfterStored(rules, disk, calls, i, j);
    AfterStep(rules, disk, calls, i);
    FailureDelays(rules, After(rules, disk, calls[..i]), calls[i]);
    CallCountsFailure(rules, After(rules, disk, calls[..i]), calls[i]);
  }

  // ---- the failure count

  predicate FailedAt<F>(rules: Rules<F>, disk: Option<Cache<F>>, calls: seq<Call<F>>, i: nat)
    requires i < |calls|
  {
    FailurePersisted(rules, After(rules, disk, calls[..i]), calls[i])
  }

  predicate SucceededAt<F>(rules: Rules<F>, disk: Option<Cache<F>>, calls: seq<Call<F>>, i: nat)
    requires i < |calls|
  {
    SuccessPersisted(rules, After(rules, disk, calls[..i]), calls[i])
  }

  function Hits(hit: nat -> bool, i: nat, j: nat): nat
    requires i <= j
    decreases j
  {
    if i == j then 0 else Hits(hit, i, j - 1) + if hit(j - 1) then 1 else 0
  }

  /** A number that grows by one with every hit counts the hits. */
  lemma {:induction false} CountsHits(f: nat -> nat, hit: nat -> bool, i: nat, j: nat)
    requires i <= j && forall k: nat :: i <= k < j ==> f(k + 1) == f(k) + if hit(k) then 1 else 0
    ensures f(j) == f(i) + Hits(hit, i, j)
    decreases j
  {
    if i < j {
      CountsHits(f, hit, i, j - 1);
      assert f(j - 1 + 1) == f(j);
    }
  }

  function FailedCalls<F>(rules: Rules<F>, disk: Option<Cache<F>>, calls: seq<Call<F>>): nat -> bool {
    (k: nat) => k < |calls| && FailedAt(rules, disk, calls, k)
  }

  function CountAfter<F>(rules: Rules<F>, disk: Option<Cache<F>>, calls: seq<Call<F>>): nat -> nat {
    (k: nat) => if k <= |calls| then Load(rules, After(rules, disk, calls[..k])).failures else 0
  }

  /** How many of the calls from one index to another persisted a failure. */
  function FailuresBetween<F>(rules: Rules<F>, disk: Option<Cache<F>>, calls: seq<Call<F>>, i: nat, j: nat): nat
    requires i <= j <= |calls|
  {
    Hits(FailedCalls(rules, disk, calls), i, j)
  }

  lemma CountStep<F>(rules: Rules<F>, disk: Option<Cache<F>>, calls: seq<Call<F>>, j: nat)
    requires j < |calls| && Readable(rules, After(rules, disk, calls[..j + 1])) && !SucceededAt(rules, disk, calls, j)
    ensures Load(rules, After(rules, disk, calls[..j + 1])).failures ==
            Load(rules, After(rules, disk, calls[..j])).failures + if FailedAt(rules, disk, calls, j) then 1 else 0
  {
    AfterStep(rules, disk, calls, j);
    CallCountsFailure(rules, After(rules, disk, calls[..j]), calls[j]);
  }

  lemma FailuresAdd<F>(rules: Rules<F>, disk: Option<Cache<F>>, calls: seq<Call<F>>, i: nat, j: nat)
    requires i <= j <= |calls| && ReadableBetween(rules, disk, calls, i, j)
    requires forall k: nat :: i <= k < j ==> !SucceededAt(rules, disk, calls, k)
    ensures Load(rules, After(rules, disk, calls[..j])).failures ==
            Load(rules, After(rules, disk, calls[..i])).failures + FailuresBetween(rules, disk, calls, i, j)
  {
    var f, hit := CountAfter(rules, disk, calls), FailedCalls(rules, disk, calls);
    forall k: nat | i <= k < j ensures f(k + 1) == f(k) + if hit(k) then 1 else 0 {
      CountStep(rules, disk, calls, k);
    }
    CountsHits(f, hit, i, j);
  }

  /** The count in use after j calls is the number of failures persisted since the last
      success, or since the beginning when there was none. */
  lemma FailuresCounted<F>(rules: Rules<F>, calls: seq<Call<F>>, i: nat, j: nat)
    requires i <= j <= |calls| && ReadableBetween(rules, None, calls, i, j)
    requires i == 0 || SucceededAt(rules, None, calls, i - 1)
    requires forall k: nat :: i <= k < j ==> !SucceededAt(rules, None, calls, k)
    ensures Load(rules, After(rules, None, calls[..j])).failures == FailuresBetween(rules, None, calls, i, j)
  {
    FailuresAdd(rules, None, calls, i, j);
    if i > 0 {
      AfterStep(rules, None, calls, i - 1);
      CallCountsFailure(rules, After(rules, None, calls[..i - 1]), calls[i - 1]);
    }
  }

  /** The k-th call persisted a success that brought the given feed. */
  predicate RenewedAt<F(==)>(rules: Rules<F>, disk: Option<Cache<F>>, calls: seq<Call<F>>, k: nat, feed: Option<F>)
    requires k < |calls|
  {
    SucceededAt(rules, disk, calls, k) && calls[k].reply.status == 200 && feed == calls[k].reply.body
  }

  function FeedAfter<F>(rules: Rules<F>, disk: Option<Cache<F>>, calls: seq<Call<F>>, n: nat): Option<F>
    requires n <= |calls|
  {
    Load(rules, After(rules, disk, calls[..n])).feed
  }

  lemma FeedStep<F>(rules: Rules<F>, disk: Option<Cache<F>>, calls: seq<Call<F>>, k: nat)
    requires k < |calls| && Readable(rules, After(rules, disk, calls[..k + 1]))
    ensures var before, after := FeedAfter(rules, disk, calls, k), FeedAfter(rules, disk, calls, k + 1);
      || after == before
      || (RenewedAt(rules, disk, calls, k, after) && after.Some? && rules.valid(after.value))
  {
    AfterStep(rules, disk, calls, k);
    FeedKept(rules, After(rules, disk, calls[..k]), calls[k]);
  }

  /** A feed once in use is never lost: every later state has a valid one, which is the
      same or that of a success persisted in between. */
  lemma {:induction false} FeedIsNeverLost<F>(rules: Rules<F>, disk: Option<Cache<F>>, calls: seq<Call<F>>, i: nat, j: nat)
    requires i <= j <= |calls| && ReadableBetween(rules, disk, calls, i, j)
    requires FeedAfter(rules, disk, calls, i).Some?
    ensures var feed := FeedAfter(rules, disk, calls, j);
      && feed.Some? && rules.valid(feed.value)
      && (feed == FeedAfter(rules, disk, calls, i)
          || exists k: nat :: i <= k < j && RenewedAt(rules, disk, calls, k, feed))
    decreases j
  {
    if i < j {
      FeedIsNeverLost(rules, disk, calls, i, j - 1);
      FeedStep(rules, disk, calls, j - 1);
    }
  }

  // ---- records too large to be read back

  /** The next call waits for the stored time exactly when the record can be read back
      (or the time has come anyway, or the clock stands before the epoch). */
  lemma HonoursIff<F>(rules: Rules<F>, disk: Option<Cache<F>>, call: Call<F>)
    requires call.writes.0 && call.writes.1
    ensures (Sends(rules, disk, call) ==> call.now >= Next(disk)) <==>
            Readable(rules, disk) || call.now >= Next(disk) || call.now < 0
  {
  }

  /** The clock never runs backwards. */
  ghost predicate Forward<F>(calls: seq<Call<F>>) {
    forall i, j :: 0 <= i < j < |calls| ==> calls[i].now <= calls[j].now
  }

  /** A run of a fresh installation has its i-th and j-th call a minute apart if both
      send. */
  ghost predicate SpacedAt<F>(rules: Rules<F>, calls: seq<Call<F>>, i: nat, j: nat) {
    Forward(calls) && i < j < |calls| && SentAt(rules, None, calls, i) && SentAt(rules, None, calls, j) ==>
      calls[j].now >= calls[i].now + MIN_DELAY
  }

  /** What a run leaves behind can be read back if its i-th call has sent a request. */
  ghost predicate KeptAfter<F>(rules: Rules<F>, calls: seq<Call<F>>, i: nat) {
    Forward(calls) && i < |calls| && SentAt(rules, None, calls, i) ==> Readable(rules, After(rules, None, calls))
  }

  lemma {:induction false} NextIsNatural<F>(rules: Rules<F>, calls: seq<Call<F>>)
    ensures Next(After(rules, None, calls)) >= 0
  {
    if calls != [] {
      NextIsNatural(rules, calls[..|calls| - 1]);
      var disk, call := After(rules, None, calls[..|calls| - 1]), calls[|calls| - 1];
      if Sends(rules, disk, call) {
        SentStores(rules, disk, call);
      }
    }
  }

  lemma NowIsNatural<F>(rules: Rules<F>, calls: seq<Call<F>>, i: nat)
    requires i < |calls| && SentAt(rules, None, calls, i)
    ensures calls[i].now >= 0
  {
    NextIsNatural(rules, calls[..i]);
  }

  lemma SentAtPrefix<F>(rules: Rules<F>, calls: seq<Call<F>>, n: nat, i: nat)
    requires i < n <= |calls|
    ensures SentAt(rules, None, calls[..n], i) <==> SentAt(rules, None, calls, i)
  {
    assert calls[..n][..i] == calls[..i] && calls[..n][i] == calls[i];
  }

  lemma KeptMeansSpaced<F(!new)>(rules: Rules<F>, calls: seq<Call<F>>, i: nat, j: nat)
    requires forall c, n: nat :: KeptAfter(rules, c, n)
    ensures SpacedAt(rules, calls, i, j)
  {
    if Forward(calls) && i < j < |calls| && SentAt(rules, None, calls, i) && SentAt(rules, None, calls, j) {
      forall k | i + 1 <= k <= j ensures Readable(rules, After(rules, None, calls[..k])) {
        SentAtPrefix(rules, calls, k, i);
        assert KeptAfter(rules, calls[..k], i);
      }
      RequestsAreSpaced(rules, None, calls, i, j);
    }
  }

  // ---- an unreadable record lets a run repeat its request

  /** The first unreadable record from the n-th on. */
  lemma FirstUnreadable<F>(rules: Rules<F>, calls: seq<Call<F>>, i: nat, n: nat) returns (first: nat)
    requires i < n <= |calls| && !Readable(rules, After(rules, None, calls))
    requires forall k :: i < k < n ==> Readable(rules, After(rules, None, calls[..k]))
    ensures n <= first <= |calls| && !Readable(rules, After(rules, None, calls[..first]))
    ensures forall k :: i < k < first ==> Readable(rules, After(rules, None, calls[..k]))
    decreases |calls| - n
  {
    if !Readable(rules, After(rules, None, calls[..n])) {
      first := n;
    } else {
      assert calls[..|calls|] == calls;
      first := FirstUnreadable(rules, calls, i, n + 1);
    }
  }

  /** The last of the first n calls that sends. */
  lemma LastSend<F>(rules: Rules<F>, calls: seq<Call<F>>, i: nat, n: nat) returns (last: nat)
    requires i < n <= |calls| && SentAt(rules, None, calls, i)
    ensures i <= last < n && SentAt(rules, None, calls, last)
    ensures forall k: nat :: last < k < n ==> !SentAt(rules, None, calls, k)
  {
    if SentAt(rules, None, calls, n - 1) {
      last := n - 1;
    } else {
      last := LastSend(rules, calls, i, n - 1);
    }
  }

  /** The first n calls with the clock stopped after the one at s. */
  function Frozen<F>(calls: seq<Call<F>>, s: nat, n: nat): (r: seq<Call<F>>)
    requires s < n <= |calls|
    ensures |r| == n
    ensures forall i :: 0 <= i < n ==> r[i] == if i <= s then calls[i] else calls[i].(now := calls[s].now)
  {
    seq(n, i requires 0 <= i < n => if i <= s then calls[i] else calls[i].(now := calls[s].now))
  }

  lemma FrozenForward<F>(calls: seq<Call<F>>, s: nat, n: nat)
    requires s < n <= |calls| && Forward(calls)
    ensures Forward(Frozen(calls, s, n))
  {
    var r := Frozen(calls, s, n);
    forall i, j | 0 <= i < j < |r| ensures r[i].now <= r[j].now {
      assert i < s ==> calls[i].now <= calls[s].now;
    }
  }

  /** A call that does not send writes the same record at any earlier time at which it does
      not send either. */
  lemma QuietCall<F>(rules: Rules<F>, disk: Option<Cache<F>>, call: Call<F>, now: int)
    requires Readable(rules, disk) && !Sends(rules, disk, call) && now < Next(disk) && disk.Some?
    ensures Stored(rules, disk, call.(now := now)) == Stored(rules, disk, call)
  {
  }

  /** Only the calls at and before s matter when none sends after it. */
  ghost predicate QuietAfter<F>(rules: Rules<F>, calls: seq<Call<F>>, s: nat, n: nat)
    requires s < n <= |calls|
  {
    && SentAt(rules, None, calls, s)
    && (forall k: nat :: s < k < n ==> !SentAt(rules, None, calls, k))
    && (forall k :: s < k < n ==> Readable(rules, After(rules, None, calls[..k])))
  }

  lemma AheadAfter<F>(rules: Rules<F>, calls: seq<Call<F>>, s: nat, n: nat, k: nat)
    requires s < k < n <= |calls| && QuietAfter(rules, calls, s, n)
    ensures !SentAt(rules, None, calls, k)
    ensures var disk := After(rules, None, calls[..k]); disk.Some? && Readable(rules, disk) && calls[s].now < Next(disk)
  {
    AfterStep(rules, None, calls, s);
    SentStores(rules, After(rules, None, calls[..s]), calls[s]);
    NextNeverDecreases(rules, None, calls, s + 1, k);
    NowIsNatural(rules, calls, s);
  }

  lemma FrozenStep<F>(rules: Rules<F>, calls: seq<Call<F>>, r: seq<Call<F>>, k: nat, now: int)
    requires k < |calls| && k < |r| && r[k] == calls[k].(now := now) && !SentAt(rules, None, calls, k)
    requires After(rules, None, r[..k]) == After(rules, None, calls[..k])
    requires var disk := After(rules, None, calls[..k]); disk.Some? && Readable(rules, disk) && now < Next(disk)
    ensures After(rules, None, r[..k + 1]) == After(rules, None, calls[..k + 1])
  {
    AfterStep(rules, None, r, k);
    AfterStep(rules, None, calls, k);
    QuietCall(rules, After(rules, None, calls[..k]), calls[k], now);
  }

  lemma FrozenPrefix<F>(calls: seq<Call<F>>, s: nat, n: nat, k: nat)
    requires s < n <= |calls| && k <= s + 1
    ensures Frozen(calls, s, n)[..k] == calls[..k]
  {
  }

  lemma FrozenNext<F>(rules: Rules<F>, calls: seq<Call<F>>, s: nat, n: nat, k: nat)
    requires s < k < n <= |calls| && QuietAfter(rules, calls, s, n)
    requires AfterFirst(rules, Frozen(calls, s, n))(k) == AfterFirst(rules, calls)(k)
    ensures AfterFirst(rules, Frozen(calls, s, n))(k + 1) == AfterFirst(rules, calls)(k + 1)
  {
    AheadAfter(rules, calls, s, n, k);
    FrozenStep(rules, calls, Frozen(calls, s, n), k, calls[s].now);
  }

  /** Two histories that agree once and take equal steps agree for good. */
  lemma {:induction false} AgreeOnward<T(!new)>(f: nat -> T, g: nat -> T, a: nat, n: nat)
    requires a <= n && f(a) == g(a) && forall k: nat :: a <= k < n && f(k) == g(k) ==> f(k + 1) == g(k + 1)
    ensures f(n) == g(n)
    decreases n
  {
    if a < n {
      AgreeOnward(f, g, a, n - 1);
      assert f(n - 1 + 1) == g(n - 1 + 1);
    }
  }

  function AfterFirst<F>(rules: Rules<F>, calls: seq<Call<F>>): nat -> Option<Cache<F>> {
    (k: nat) => if k <= |calls| then After(rules, None, calls[..k]) else None
  }

  lemma FrozenAfter<F(!new)>(rules: Rules<F>, calls: seq<Call<F>>, s: nat, n: nat)
    requires s < n <= |calls| && QuietAfter(rules, calls, s, n)
    ensures After(rules, None, Frozen(calls, s, n)[..n]) == After(rules, None, calls[..n])
  {
    var r := Frozen(calls, s, n);
    var f, g := AfterFirst(rules, r), AfterFirst(rules, calls);
    FrozenPrefix(calls, s, n, s + 1);
    forall k: nat | s + 1 <= k < n && f(k) == g(k) ensures f(k + 1) == g(k + 1) {
      FrozenNext(rules, calls, s, n, k);
    }
    AgreeOnward(f, g, s + 1, n);
  }

  lemma FrozenSends<F>(rules: Rules<F>, calls: seq<Call<F>>, s: nat, n: nat)
    requires s < n <= |calls| && SentAt(rules, None, calls, s)
    ensures SentAt(rules, None, Frozen(calls, s, n), s)
  {
    assert Frozen(calls, s, n)[..s] == calls[..s];
  }

  lemma ForwardSnoc<F>(calls: seq<Call<F>>, call: Call<F>)
    requires Forward(calls) && forall i :: 0 <= i < |calls| ==> calls[i].now <= call.now
    ensures Forward(calls + [call])
  {
  }

  /** After an unreadable record the request is repeated at the time of the last one. */
  lemma RepeatAt<F>(rules: Rules<F>, calls: seq<Call<F>>, s: nat) returns (longer: seq<Call<F>>)
    requires Forward(calls) && s < |calls| && SentAt(rules, None, calls, s)
    requires !Readable(rules, After(rules, None, calls))
    requires forall i :: s < i < |calls| ==> calls[i].now == calls[s].now
    ensures !SpacedAt(rules, longer, s, |calls|)
  {
    var again := Call(calls[s].now, "", Unreachable, 0, (true, true, true));
    longer := calls + [again];
    assert longer[..|calls|] == calls;
    SentAtPrefix(rules, longer, |calls|, s);
    NowIsNatural(rules, calls, s);
    HonoursIff(rules, After(rules, None, calls), again);
    ForwardSnoc(calls, again);
  }

  /** A run whose record is forgotten, without its clock ever running backwards, has a
      variant that repeats its request at once. */
  lemma ForgottenRepeats<F(!new)>(rules: Rules<F>, calls: seq<Call<F>>, i: nat) returns (longer: seq<Call<F>>, s: nat, n: nat)
    requires !KeptAfter(rules, calls, i)
    ensures !SpacedAt(rules, longer, s, n)
  {
    n := FirstUnreadable(rules, calls, i, i + 1);
    s := LastSend(rules, calls, i, n);
    var frozen := Frozen(calls, s, n);
    FrozenForward(calls, s, n);
    FrozenAfter(rules, calls, s, n);
    FrozenSends(rules, calls, s, n);
    assert frozen[..n] == frozen;
    longer := RepeatAt(rules, frozen, s);
  }

  /** All requests of all runs whose clock never runs backwards are at least a minute apart
      if and only if no such run that has sent a request ever leaves a record too large to
      be read back. */
  lemma SpacedIff<F(!new)>(rules: Rules<F>)
    ensures (forall calls, i: nat, j: nat :: SpacedAt(rules, calls, i, j)) <==>
            (forall calls, i: nat :: KeptAfter(rules, calls, i))
  {
    if forall calls, i: nat :: KeptAfter(rules, calls, i) {
      forall calls, i: nat, j: nat ensures SpacedAt(rules, calls, i, j) {
        KeptMeansSpaced(rules, calls, i, j);
      }
    } else {
      var calls, i: nat :| !KeptAfter(rules, calls, i);
      var longer, s, n := ForgottenRepeats(rules, calls, i);
    }
  }

  /** A feed of four megabytes can be encoded into more than five, because some
      characters are escaped into six; the record is then ignored and the request is
      repeated a second later. */
  lemma OversizedRecordIsForgotten()
    ensures var rules := Rules((f: int) => true, (c: Cache<int>) => if c.feed.Some? then MAX_CACHE + 1 else 100);
      var call := (now: int) => Call(now, "stable", Response(200, Some(7), "", NoRetry, None), 0, (true, true, true));
      SentAt(rules, None, [call(1000), call(1001)], 0) && SentAt(rules, None, [call(1000), call(1001)], 1)
  {
    var call := (now: int) => Call(now, "stable", Response(200, Some(7), "", NoRetry, None), 0, (true, true, true));
    var calls := [call(1000), call(1001)];
    assert calls[..1] == [call(1000)] && calls[..1][..0] == [];
  }
}
