/** What one request leaves in the record, in numbers: the server's wishes, the doubling
    delay, and what a success keeps. */
module FeedRecord {
  import opened Text
  import opened FeedCooldown

  const INT64_LIMIT := 0x8000_0000_0000_0000

  /** Seconds to wait after the given number of consecutive failures. */
  function Delay(failures: nat): nat {
    match failures
    case 0 => 60
    case 1 => 120
    case 2 => 240
    case 3 => 480
    case 4 => 960
    case 5 => 1920
    case 6 => 3840
    case 7 => 7680
    case _ => 15360
  }

  lemma BackoffIs(failures: nat)
    ensures Backoff(failures) == Delay(failures)
  {
    assert Pow2(2) == 4 && Pow2(4) == 16;
    assert Pow2(6) == 64 && Pow2(8) == 256;
  }

  /** Addition of two 64-bit integers, which wraps. */
  function Sum64(a: int, b: int): int {
    if a + b >= INT64_LIMIT then a + b - 2 * INT64_LIMIT
    else if a + b < -INT64_LIMIT then a + b + 2 * INT64_LIMIT
    else a + b
  }

  predicate IsInt64(x: int) { -INT64_LIMIT <= x < INT64_LIMIT }

  lemma WrapIs(a: int, b: int)
    requires IsInt64(a) && IsInt64(b)
    ensures Wrap64(a + b) == Sum64(a, b)
  {
  }

  /** The reply of a finished request brought no feed that can be used. */
  predicate Useless<F>(rules: Rules<F>, hadFeed: bool, reply: Reply<F>) {
    match reply
    case Died => false
    case Unreachable => true
    case Response(status, body, _, _, _) =>
      && !(status == 304 && hadFeed)
      && !(status == 200 && body.Some? && rules.valid(body.value))
  }

  /** The times before which the server does not want another request. */
  ghost function Wishes<F>(now: int, reply: Reply<F>): set<int> {
    if !reply.Response? || reply.status == 200 then {}
    else
      (match reply.retry
       case Seconds(delay) => {Sum64(now, delay)}
       case Date(unix) => {unix}
       case NoRetry => {})
      + if reply.reset.Some? then {reply.reset.value} else {}
  }

  /** n is the least number that no member of the set exceeds. */
  ghost predicate LeastAbove(n: int, times: set<int>) { n in times && forall t :: t in times ==> t <= n }

  ghost predicate Persisted<F>(rules: Rules<F>, disk: Option<Cache<F>>, call: Call<F>) {
    call.writes == (true, true, true) && call.now >= Load(rules, disk).nextRequest && !call.reply.Died?
  }

  ghost predicate DelayInRange<F>(call: Call<F>) {
    IsInt64(call.now) && (call.reply.Response? && call.reply.retry.Seconds? ==> IsInt64(call.reply.retry.delay))
  }

  lemma DeferredIs<F>(state: Cache<F>, call: Call<F>)
    requires DelayInRange(call)
    ensures LeastAbove(Deferred(state, call.now, call.reply), {state.nextRequest} + Wishes(call.now, call.reply))
  {
    if call.reply.Response? && call.reply.retry.Seconds? {
      WrapIs(call.now, call.reply.retry.delay);
    }
  }

  /** A persisted failure counts one more, keeps feed, tag and schedule, and stores the least
      time that respects the claim, the doubled delay and every wish of the server. */
  lemma FailureIsStored<F>(rules: Rules<F>, disk: Option<Cache<F>>, call: Call<F>)
    requires Persisted(rules, disk, call) && DelayInRange(call)
    requires Useless(rules, Load(rules, disk).feed.Some?, call.reply)
    ensures Stored(rules, disk, call).Some?
    ensures var before, after := Load(rules, disk), Stored(rules, disk, call).value;
      && after.failures == before.failures + 1
      && after.feed == before.feed && after.etag == before.etag && after.nextAuto == before.nextAuto
      && LeastAbove(after.nextRequest,
                    {call.now + 60, call.now + Delay(before.failures + 1)} + Wishes(call.now, call.reply))
  {
    BackoffIs(Load(rules, disk).failures + 1);
    DeferredIs(Claimed(Opened(rules, disk, call.channel), call.now), call);
  }

  /** Over runs: no later request goes out before any time the server asked for. */
  lemma WishesAreHonoured<F>(rules: Rules<F>, disk: Option<Cache<F>>, calls: seq<Call<F>>, i: nat, j: nat, wish: int)
    requires i < j < |calls| && ReadableBetween(rules, disk, calls, i + 1, j) && SentAt(rules, disk, calls, j)
    requires var before := After(rules, disk, calls[..i]);
      && Persisted(rules, before, calls[i]) && DelayInRange(calls[i])
      && Useless(rules, Load(rules, before).feed.Some?, calls[i].reply)
    requires wish in Wishes(calls[i].now, calls[i].reply)
    ensures calls[j].now >= wish
  {
    SendsAfterStored(rules, disk, calls, i, j);
    AfterStep(rules, disk, calls, i);
    FailureIsStored(rules, After(rules, disk, calls[..i]), calls[i]);
  }

  /** A persisted success clears the count, claims a minute, schedules the next automatic
      request between 6 and 6.5 hours ahead, and takes feed and tag from a 200 response. */
  lemma SuccessIsStored<F>(rules: Rules<F>, disk: Option<Cache<F>>, call: Call<F>)
    requires Persisted(rules, disk, call) && !Useless(rules, Load(rules, disk).feed.Some?, call.reply)
    ensures Stored(rules, disk, call).Some?
    ensures var before, after := Load(rules, disk), Stored(rules, disk, call).value;
      && after.failures == 0 && after.nextRequest == call.now + 60
      && after.nextAuto == call.now + 21600 + call.jitter % 1800
      && (if call.reply.status == 200 then after.feed == call.reply.body && after.etag == call.reply.etag
          else after.feed == before.feed && after.etag == before.etag)
  {
  }

  /** A call that is not due changes nothing but the channel, and "test" is stored as
      "preview". */
  lemma EarlyCallIsStored<F>(rules: Rules<F>, disk: Option<Cache<F>>, call: Call<F>)
    requires call.writes.0 && call.now < Load(rules, disk).nextRequest
    ensures Stored(rules, disk, call).Some?
    ensures var before, after := Load(rules, disk), Stored(rules, disk, call).value;
      after == before.(channel := if call.channel == "test" then "preview" else call.channel)
  {
  }

  /** A record beyond 5 MiB reads as none; one with an invalid feed reads without feed and
      tag; any other reads as it was written. */
  lemma RecordIsRead<F>(rules: Rules<F>, record: Cache<F>)
    ensures var read := Load(rules, Some(record));
      if rules.size(record) > 5_242_880 then read == Cache(None, "", 0, 0, 0, "")
      else if record.feed.Some? && !rules.valid(record.feed.value) then read == record.(feed := None, etag := "")
      else read == record
  {
  }

  /** A call sends exactly if its first two writes succeed and the time that was read has
      come. */
  lemma SendsIff<F>(rules: Rules<F>, disk: Option<Cache<F>>, call: Call<F>)
    ensures Sends(rules, disk, call) <==> call.writes.0 && call.writes.1 && Load(rules, disk).nextRequest <= call.now
  {
  }

  /** A request whose outcome is not written, by a crash or a failed write, leaves the claim
      of a minute and nothing else new but the channel. */
  lemma InterruptedCallIsStored<F>(rules: Rules<F>, disk: Option<Cache<F>>, call: Call<F>)
    requires Sends(rules, disk, call) && (call.reply.Died? || !call.writes.2)
    ensures Stored(rules, disk, call) ==
            Some(Load(rules, disk).(nextRequest := call.now + 60,
                                    channel := if call.channel == "test" then "preview" else call.channel))
  {
  }
}
