/** The token bucket that paces deliveries of a topic, over the reals and with the clock as an input. */
module RateLimit {
  import opened Collections
  import opened Model

  datatype Bucket = Bucket(tokens: real, last: real)

  datatype Reply = Granted(count: nat) | Retry(afterMs: nat)

  const U32_MAX: nat := 0xFFFF_FFFF

  /** The cast of a floating-point number to `u32`, which saturates. */
  function ToU32(x: real): nat {
    if x < 0.0 then 0 else Min(x.Floor, U32_MAX)
  }

  function Ceil(x: real): (r: int)
    ensures r as real - 1.0 < x <= r as real
  {
    -((-x).Floor)
  }

  function Least(a: real, b: real): real { if a <= b then a else b }

  function Elapsed(since: real, now: real): real { if now >= since then now - since else 0.0 }

  function Refilled(b: Bucket, rate: real, burst: real, now: real): Bucket {
    Bucket(Least(b.tokens + Elapsed(b.last, now) * rate, burst), now)
  }

  /** What is in the bucket at `now`; a topic without a bucket starts with a full one. */
  function Opened(b: Option<Bucket>, rate: real, burst: real, now: real): Bucket {
    Refilled(if b.Some? then b.value else Bucket(burst, now), rate, burst, now)
  }

  function RetryAfter(tokens: real, rate: real): nat {
    if rate > 0.0 then
      var ms := Ceil((1.0 - tokens) / rate * 1000.0);
      if ms < 0 then 0 else ms
    else 1000
  }

  function GrantOf(tokens: real, want: nat): nat { Min(ToU32(tokens), want) }

  /** `take` on one topic's bucket. */
  function Take(b: Option<Bucket>, rate: real, burst: real, want: nat, now: real): (Option<Bucket>, Reply) {
    if want == 0 then (b, Granted(0))
    else
      var full := Opened(b, rate, burst, now);
      var grant := GrantOf(full.tokens, want);
      if grant == 0 then (Some(full), Retry(RetryAfter(full.tokens, rate)))
      else (Some(full.(tokens := full.tokens - grant as real)), Granted(grant))
  }

  function Refund(b: Option<Bucket>, amount: nat, burst: real): Option<Bucket> {
    if amount == 0 || b.None? then b
    else Some(b.value.(tokens := Least(b.value.tokens + amount as real, burst)))
  }

  function BucketOf(buckets: map<Name, Bucket>, topic: Name): Option<Bucket> {
    if topic in buckets then Some(buckets[topic]) else None
  }

  /** All topics' buckets; each call touches its own topic only. */
  class RateLimiter {
    var buckets: map<Name, Bucket>

    constructor ()
      ensures buckets == map[]
    {
      buckets := map[];
    }

    method TakeTokens(topic: Name, rate: real, burst: real, want: nat, now: real) returns (reply: Reply)
      modifies this
      ensures (BucketOf(buckets, topic), reply) == Take(BucketOf(old(buckets), topic), rate, burst, want, now)
      ensures buckets - {topic} == old(buckets) - {topic}
    {
      hide Refilled, ToU32, RetryAfter;
      if want == 0 {
        return Granted(0);
      }
      if topic !in buckets {
        buckets := buckets[topic := Bucket(burst, now)];
      }
      var bucket := Refilled(buckets[topic], rate, burst, now);
      buckets := buckets[topic := bucket];
      assert bucket == Opened(BucketOf(old(buckets), topic), rate, burst, now);
      var grant := Min(ToU32(bucket.tokens), want);
      if grant == 0 {
        return Retry(RetryAfter(bucket.tokens, rate));
      }
      buckets := buckets[topic := bucket.(tokens := bucket.tokens - grant as real)];
      return Granted(grant);
    }

    method RefundTokens(topic: Name, amount: nat, burst: real)
      modifies this
      ensures BucketOf(buckets, topic) == Refund(BucketOf(old(buckets), topic), amount, burst)
      ensures buckets - {topic} == old(buckets) - {topic}
    {
      if amount == 0 {
        return;
      }
      if topic in buckets {
        var bucket := buckets[topic];
        buckets := buckets[topic := bucket.(tokens := Least(bucket.tokens + amount as real, burst))];
      }
    }

    method Forget(topic: Name)
      modifies this
      ensures buckets == old(buckets) - {topic}
    {
      buckets := buckets - {topic};
    }
  }

  // ---------------------------------------------------------------- the bucket is never overdrawn or overfull

  predicate InBounds(b: Option<Bucket>, burst: real) {
    b.Some? ==> 0.0 <= b.value.tokens <= burst
  }

  /** What the next take at `now` would find. */
  function Level(b: Option<Bucket>, rate: real, burst: real, now: real): real {
    Opened(b, rate, burst, now).tokens
  }

  lemma Growth(rate: real, t: real, u: real)
    requires rate >= 0.0 && t >= 0.0 && u >= 0.0
    ensures (t + u) * rate == t * rate + u * rate && t * rate >= 0.0 && u * rate >= 0.0
  {
  }

  lemma LevelBounds(b: Option<Bucket>, rate: real, burst: real, now: real)
    requires rate >= 0.0 && burst >= 1.0 && InBounds(b, burst)
    ensures 0.0 <= Level(b, rate, burst, now) <= burst
  {
    if b.Some? {
      Growth(rate, Elapsed(b.value.last, now), 0.0);
    }
  }

  lemma GrantFits(tokens: real, want: nat)
    requires tokens >= 0.0
    ensures 0.0 <= GrantOf(tokens, want) as real <= tokens
  {
  }

  // ---------------------------------------------------------------- the bound over any sequence of calls

  datatype Use = Takes(want: nat, now: real) | Refunds(amount: nat) | Forgets

  function Used(b: Option<Bucket>, rate: real, burst: real, use: Use): Option<Bucket> {
    match use
    case Takes(want, now) => Take(b, rate, burst, want, now).0
    case Refunds(amount) => Refund(b, amount, burst)
    case Forgets => None
  }

  /** What a call hands out, less what it gives back. */
  function Net(b: Option<Bucket>, rate: real, burst: real, use: Use): int {
    match use
    case Takes(want, now) =>
      var reply := Take(b, rate, burst, want, now).1;
      if reply.Granted? then reply.count else 0
    case Refunds(amount) => -(amount as int)
    case Forgets => 0
  }

  function NetAll(b: Option<Bucket>, rate: real, burst: real, uses: seq<Use>): int
    decreases |uses|
  {
    if uses == [] then 0 else Net(b, rate, burst, uses[0]) + NetAll(Used(b, rate, burst, uses[0]), rate, burst, uses[1..])
  }

  function UsedAll(b: Option<Bucket>, rate: real, burst: real, uses: seq<Use>): Option<Bucket>
    decreases |uses|
  {
    if uses == [] then b else UsedAll(Used(b, rate, burst, uses[0]), rate, burst, uses[1..])
  }

  function TimeOf(use: Use, before: real): real { if use.Takes? then use.now else before }

  /** The clock does not go back, and ends at or before `end`. */
  predicate Timed(start: real, uses: seq<Use>, end: real)
    decreases |uses|
  {
    start <= end && (uses != [] ==> start <= TimeOf(uses[0], start) && Timed(TimeOf(uses[0], start), uses[1..], end))
  }

  function Forgotten(uses: seq<Use>): nat
    decreases |uses|
  {
    if uses == [] then 0 else (if uses[0].Forgets? then 1 else 0) + Forgotten(uses[1..])
  }

  /** What the rate adds between two instants. */
  function Earned(rate: real, from: real, to: real): real { (to - from) * rate }

  lemma EarnedFacts(rate: real, from: real, mid: real, to: real)
    requires rate >= 0.0 && from <= mid <= to
    ensures Earned(rate, from, from) == 0.0 && 0.0 <= Earned(rate, from, mid) && 0.0 <= Earned(rate, mid, to)
    ensures Earned(rate, from, mid) + Earned(rate, mid, to) == Earned(rate, from, to)
  {
    Growth(rate, mid - from, to - mid);
    assert to - from == mid - from + (to - mid);
  }

  predicate NotAhead(b: Option<Bucket>, now: real) { b.Some? ==> b.value.last <= now }

  /** Between two instants the level gains at most the rate times the time between. */
  lemma LevelGrows(b: Option<Bucket>, rate: real, burst: real, t: real, u: real)
    requires rate >= 0.0 && t <= u && NotAhead(b, t)
    ensures Level(b, rate, burst, u) <= Level(b, rate, burst, t) + Earned(rate, t, u)
  {
    Growth(rate, u - t, 0.0);
    if b.Some? {
      Growth(rate, t - b.value.last, u - t);
      assert u - b.value.last == t - b.value.last + (u - t);
    }
  }

  lemma LevelOfFresh(tokens: real, rate: real, burst: real, now: real)
    requires tokens <= burst
    ensures Level(Some(Bucket(tokens, now)), rate, burst, now) == tokens
  {
    assert Elapsed(now, now) * rate == 0.0;
  }

  lemma TakePays(b: Option<Bucket>, rate: real, burst: real, want: nat, now: real)
    requires rate >= 0.0 && burst >= 1.0 && InBounds(b, burst) && want > 0
    ensures var (r, reply) := Take(b, rate, burst, want, now);
            && r.Some? && r.value.last == now && 0.0 <= r.value.tokens <= burst
            && (if reply.Granted? then reply.count else 0) as real + r.value.tokens == Level(b, rate, burst, now)
  {
    LevelBounds(b, rate, burst, now);
    hide Opened, RetryAfter, ToU32;
    GrantFits(Level(b, rate, burst, now), want);
  }

  lemma RefundPays(b: Option<Bucket>, rate: real, burst: real, amount: nat, now: real)
    requires rate >= 0.0 && InBounds(b, burst)
    ensures InBounds(Refund(b, amount, burst), burst)
    ensures Level(Refund(b, amount, burst), rate, burst, now) <= Level(b, rate, burst, now) + amount as real
  {
    if b.Some? {
      Growth(rate, Elapsed(b.value.last, now), 0.0);
    }
  }

  /** One call: what it hands out comes off the level it started from. */
  lemma UsePays(b: Option<Bucket>, rate: real, burst: real, use: Use, now: real)
    requires rate >= 0.0 && burst >= 1.0 && InBounds(b, burst) && NotAhead(b, now)
    requires use.Takes? ==> now <= use.now
    ensures var r, later := Used(b, rate, burst, use), TimeOf(use, now);
            && InBounds(r, burst) && NotAhead(r, later)
            && Net(b, rate, burst, use) as real + Level(r, rate, burst, later)
               <= Level(b, rate, burst, now) + Earned(rate, now, later) + (if use.Forgets? then burst else 0.0)
  {
    hide Level, Take, Earned;
    LevelBounds(b, rate, burst, now);
    EarnedFacts(rate, now, now, now);
    match use
    case Takes(want, at) =>
      LevelGrows(b, rate, burst, now, at);
      if want > 0 {
        TakePays(b, rate, burst, want, at);
        LevelOfFresh(Take(b, rate, burst, want, at).0.value.tokens, rate, burst, at);
      } else {
        assert Take(b, rate, burst, want, at) == (b, Granted(0)) by { TakeNothing(b, rate, burst, at); }
      }
    case Refunds(amount) =>
      RefundPays(b, rate, burst, amount, now);
    case Forgets =>
      LevelBounds(None, rate, burst, now);
  }

  lemma TakeNothing(b: Option<Bucket>, rate: real, burst: real, now: real)
    ensures Take(b, rate, burst, 0, now) == (b, Granted(0))
  {
  }

  /** `n` bursts. */
  function Bursts(n: nat, burst: real): real { n as real * burst }

  lemma BurstsFacts(n: nat, burst: real)
    ensures Bursts(0, burst) == 0.0 && Bursts(n + 1, burst) == burst + Bursts(n, burst)
  {
    assert (n + 1) as real == n as real + 1.0;
    assert (n as real + 1.0) * burst == n as real * burst + burst;
  }

  lemma {:induction false} GrantsArePaid(b: Option<Bucket>, rate: real, burst: real, uses: seq<Use>, start: real, end: real)
    requires rate >= 0.0 && burst >= 1.0 && InBounds(b, burst) && NotAhead(b, start) && Timed(start, uses, end)
    ensures InBounds(UsedAll(b, rate, burst, uses), burst)
    ensures NetAll(b, rate, burst, uses) as real
         <= Level(b, rate, burst, start) + Earned(rate, start, end) + Bursts(Forgotten(uses), burst)
    decreases |uses|
  {
    hide Used, Net, Level, Earned, Bursts, InBounds, NotAhead;
    LevelBounds(b, rate, burst, start);
    BurstsFacts(0, burst);
    EarnedFacts(rate, start, start, end);
    if uses != [] {
      var r, later := Used(b, rate, burst, uses[0]), TimeOf(uses[0], start);
      UsePays(b, rate, burst, uses[0], start);
      TimedEnds(later, uses[1..], end);
      GrantsArePaid(r, rate, burst, uses[1..], later, end);
      EarnedFacts(rate, start, later, end);
      BurstsFacts(Forgotten(uses[1..]), burst);
    }
  }

  lemma TimedEnds(start: real, uses: seq<Use>, end: real)
    requires Timed(start, uses, end)
    ensures start <= end
  {
  }

  /** From any state, over any sequence of takes, refunds and removals within `end - start` seconds, what is handed out
      less what is given back is at most one burst, plus the rate times the time, plus a burst for each removal; and
      the bucket stays between empty and full. */
  lemma GrantsAreBounded(b: Option<Bucket>, rate: real, burst: real, uses: seq<Use>, start: real, end: real)
    requires rate >= 0.0 && burst >= 1.0 && InBounds(b, burst) && NotAhead(b, start) && Timed(start, uses, end)
    ensures InBounds(UsedAll(b, rate, burst, uses), burst)
    ensures NetAll(b, rate, burst, uses) as real <= burst + (end - start) * rate + Forgotten(uses) as real * burst
  {
    GrantsArePaid(b, rate, burst, uses, start, end);
    LevelBounds(b, rate, burst, start);
  }

  // ---------------------------------------------------------------- the retry delay

  /** After a refusal, and with no other call in between, a take of at least one token once the returned delay has passed
      is granted exactly when the rate is positive; at rate zero the bucket never refills. */
  lemma WaitingSuffices(b: Option<Bucket>, rate: real, burst: real, want: nat, now: real, again: nat, later: real)
    requires rate >= 0.0 && burst >= 1.0 && InBounds(b, burst) && want > 0 && again > 0
    requires Take(b, rate, burst, want, now).1.Retry?
    requires later >= now + Take(b, rate, burst, want, now).1.afterMs as real / 1000.0
    ensures Take(Take(b, rate, burst, want, now).0, rate, burst, again, later).1.Granted? <==> rate > 0.0
  {
    var full := Opened(b, rate, burst, now);
    var ms := Take(b, rate, burst, want, now).1.afterMs;
    LevelBounds(b, rate, burst, now);
    assert full.tokens < 1.0;
    if rate > 0.0 {
      assert ms as real >= (1.0 - full.tokens) / rate * 1000.0;
      EnoughWaiting(full.tokens, rate, ms as real, later - now);
    } else {
      assert Elapsed(now, later) * rate == 0.0;
    }
  }

  lemma EnoughWaiting(tokens: real, rate: real, ms: real, waited: real)
    requires rate > 0.0 && tokens < 1.0 && ms >= (1.0 - tokens) / rate * 1000.0 && waited >= ms / 1000.0
    ensures waited >= 0.0 && tokens + waited * rate >= 1.0
  {
    var needed := (1.0 - tokens) / rate;
    assert needed * rate == 1.0 - tokens;
    assert waited >= needed;
    assert waited * rate >= needed * rate;
  }

  /** The delay is no longer than it has to be: a millisecond less and the take is refused again. */
  lemma WaitingLessFails(b: Option<Bucket>, rate: real, burst: real, want: nat, now: real, again: nat, later: real)
    requires rate > 0.0 && burst >= 1.0 && InBounds(b, burst) && want > 0 && again > 0
    requires Take(b, rate, burst, want, now).1.Retry?
    requires now <= later <= now + (Take(b, rate, burst, want, now).1.afterMs as real - 1.0) / 1000.0
    ensures Take(Take(b, rate, burst, want, now).0, rate, burst, again, later).1.Retry?
  {
    hide Take, RetryAfter, Opened;
    var full := Opened(b, rate, burst, now);
    RefusalFacts(b, rate, burst, want, now);
    DelayFacts(full.tokens, rate);
    NotEnoughWaiting(full.tokens, rate, RetryAfter(full.tokens, rate) as real, later - now);
    RefusedBelowOne(full, rate, burst, again, later);
  }

  lemma RefusalFacts(b: Option<Bucket>, rate: real, burst: real, want: nat, now: real)
    requires rate >= 0.0 && burst >= 1.0 && InBounds(b, burst) && want > 0
    requires Take(b, rate, burst, want, now).1.Retry?
    ensures var full := Opened(b, rate, burst, now);
            && Take(b, rate, burst, want, now) == (Some(full), Retry(RetryAfter(full.tokens, rate)))
            && full.last == now && 0.0 <= full.tokens < 1.0
  {
    LevelBounds(b, rate, burst, now);
    hide RetryAfter;
  }

  lemma DelayFacts(tokens: real, rate: real)
    requires rate > 0.0 && tokens < 1.0
    ensures var ms := RetryAfter(tokens, rate) as real; ms - 1.0 < (1.0 - tokens) / rate * 1000.0 <= ms
  {
    assert (1.0 - tokens) / rate > 0.0;
  }

  lemma RefusedBelowOne(b: Bucket, rate: real, burst: real, want: nat, now: real)
    requires 0.0 <= b.tokens && b.last <= now && rate >= 0.0 && want > 0
    requires b.tokens + (now - b.last) * rate < 1.0
    ensures Take(Some(b), rate, burst, want, now).1.Retry?
  {
    assert Elapsed(b.last, now) == now - b.last;
    var full := Opened(Some(b), rate, burst, now);
    assert full.tokens < 1.0;
    hide RetryAfter, Opened, ToU32, Elapsed;
    NoWholeToken(full.tokens);
  }

  lemma NoWholeToken(tokens: real)
    requires tokens < 1.0
    ensures ToU32(tokens) == 0
  {
  }

  lemma NotEnoughWaiting(tokens: real, rate: real, ms: real, waited: real)
    requires rate > 0.0 && tokens < 1.0 && ms - 1.0 < (1.0 - tokens) / rate * 1000.0
    requires 0.0 <= waited <= (ms - 1.0) / 1000.0
    ensures tokens + waited * rate < 1.0
  {
    var needed := (1.0 - tokens) / rate;
    assert needed * rate == 1.0 - tokens;
    assert waited < needed;
    assert waited * rate < needed * rate;
  }

  /** A take with at least one token in the bucket is granted, and gets all it wants or all the whole tokens there are. */
  lemma GrantIsMaximal(b: Option<Bucket>, rate: real, burst: real, want: nat, now: real)
    requires rate >= 0.0 && 1.0 <= burst <= U32_MAX as real && InBounds(b, burst) && want > 0
    requires Level(b, rate, burst, now) >= 1.0
    ensures var (r, reply) := Take(b, rate, burst, want, now);
            && reply.Granted? && 1 <= reply.count <= want && r.Some?
            && reply.count as real + r.value.tokens == Level(b, rate, burst, now)
            && (reply.count == want || r.value.tokens < 1.0)
  {
    LevelBounds(b, rate, burst, now);
    hide Opened, RetryAfter;
    var level := Level(b, rate, burst, now);
    assert level.Floor as real <= level < level.Floor as real + 1.0;
  }

  // ---------------------------------------------------------------- what a take finds, gets and leaves

  /** Exactly what a take does. A topic's bucket holds what was left in it plus the rate times the seconds since, a new one is
      full, and neither holds more than a burst. The take gets what it wants or all the whole tokens there are; with no
      whole token it is refused. */
  lemma TakeIs(b: Option<Bucket>, rate: real, burst: real, want: nat, now: real)
    requires rate >= 0.0 && 0.0 <= burst <= 4_294_967_295.0 && want > 0 && (b.Some? ==> b.value.tokens >= 0.0)
    ensures var held := if b.None? then burst
                        else if now >= b.value.last then b.value.tokens + (now - b.value.last) * rate
                        else b.value.tokens;
            var level := if held <= burst then held else burst;
            var got := if want <= level.Floor then want else level.Floor;
            var (left, reply) := Take(b, rate, burst, want, now);
            if level < 1.0 then left == Some(Bucket(level, now)) && reply.Retry? && (rate == 0.0 ==> reply.afterMs == 1000)
            else left == Some(Bucket(level - got as real, now)) && reply == Granted(got)
  {
    hide RetryAfter, Opened, GrantOf;
    OpenedIs(b, rate, burst, now);
    var full := Opened(b, rate, burst, now);
    GrantIs(full.tokens, want);
    if rate == 0.0 {
      NoRate(full.tokens);
    }
  }

  lemma OpenedIs(b: Option<Bucket>, rate: real, burst: real, now: real)
    requires rate >= 0.0 && burst >= 0.0 && (b.Some? ==> b.value.tokens >= 0.0)
    ensures var held := if b.None? then burst
                        else if now >= b.value.last then b.value.tokens + (now - b.value.last) * rate
                        else b.value.tokens;
            Opened(b, rate, burst, now) == Bucket(if held <= burst then held else burst, now) && held >= 0.0
  {
    if b.Some? {
      Growth(rate, Elapsed(b.value.last, now), 0.0);
    } else {
      assert Elapsed(now, now) * rate == 0.0;
    }
  }

  lemma GrantIs(tokens: real, want: nat)
    requires 0.0 <= tokens <= 4_294_967_295.0 && want > 0
    ensures GrantOf(tokens, want) == if want <= tokens.Floor then want else tokens.Floor
    ensures GrantOf(tokens, want) == 0 <==> tokens < 1.0
  {
    assert tokens.Floor as real <= tokens < tokens.Floor as real + 1.0;
  }

  lemma NoRate(tokens: real)
    ensures RetryAfter(tokens, 0.0) == 1000
  {
  }

  /** A refund undoes a take: given back at once, all that was granted is in the bucket again. */
  lemma RefundUndoesTake(b: Option<Bucket>, rate: real, burst: real, want: nat, now: real)
    requires rate >= 0.0 && 1.0 <= burst <= 4_294_967_295.0 && want > 0 && InBounds(b, burst)
    requires Take(b, rate, burst, want, now).1.Granted?
    ensures var (left, reply) := Take(b, rate, burst, want, now);
            && left.Some?
            && Refund(left, reply.count, burst) == Some(Bucket(left.value.tokens + reply.count as real, now))
  {
    hide RetryAfter;
    TakePays(b, rate, burst, want, now);
    LevelBounds(b, rate, burst, now);
  }

  /** Exactly what a refund does: it adds to a topic's bucket what is given back, up to a burst, and makes none. */
  lemma RefundIs(b: Option<Bucket>, amount: nat, burst: real)
    requires InBounds(b, burst)
    ensures Refund(b, amount, burst).Some? <==> b.Some?
    ensures b.Some? ==>
            var r := Refund(b, amount, burst).value;
            r.last == b.value.last && r.tokens <= burst &&
            (r.tokens == b.value.tokens + amount as real || (r.tokens == burst && b.value.tokens + amount as real > burst))
  {
  }
}
