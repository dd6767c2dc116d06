/**
The sliding-window rate limiter, in memory and as a Redis script.

Times are whole ticks of a clock that never goes back; a millisecond has some number of
ticks. A history is the sequence of times at which one key was used.
*/
module RateLimit {
  import opened Common

  type Time = int

  datatype Answer = Answer(allowed: bool, remaining: int, retryAfter: int)

  /** Limit, window length, and the ticks of a millisecond. */
  datatype Config = Config(limit: nat, window: nat, millisecond: nat)

  ghost predicate Proper(c: Config) {
    0 < c.limit && 0 < c.window && 0 < c.millisecond
  }

  // ---- One key ----

  /** Drop the oldest entries up to the cutoff. */
  function Expire(bucket: seq<Time>, cutoff: Time): seq<Time> {
    if bucket != [] && bucket[0] <= cutoff then Expire(bucket[1..], cutoff) else bucket
  }

  function RetryAfter(c: Config, oldest: Time, now: Time): int {
    var wait := oldest + c.window - now;
    if wait < c.millisecond then c.millisecond else wait
  }

  function Attempt(c: Config, bucket: seq<Time>, now: Time): (Answer, seq<Time>)
    requires Proper(c)
  {
    var live := Expire(bucket, now - c.window);
    if |live| >= c.limit then (Answer(false, 0, RetryAfter(c, live[0], now)), live)
    else (Answer(true, c.limit - |live| - 1, 0), live + [now])
  }

  // ---- Histories ----

  ghost predicate Sorted(times: seq<Time>) {
    forall i, j :: 0 <= i <= j < |times| ==> times[i] <= times[j]
  }

  /** Where a history has got: the bucket, and the times of all calls admitted so far. */
  datatype Served = Served(bucket: seq<Time>, admitted: seq<Time>)

  function Serve(c: Config, times: seq<Time>): Served
    requires Proper(c)
    decreases |times|
  {
    if times == [] then Served([], [])
    else
      var before := Serve(c, times[..|times| - 1]);
      var now := times[|times| - 1];
      var (answer, bucket) := Attempt(c, before.bucket, now);
      Served(bucket, if answer.allowed then before.admitted + [now] else before.admitted)
  }

  /** The answer to the last call of a history. */
  function LastAnswer(c: Config, times: seq<Time>): Answer
    requires Proper(c) && times != []
  {
    Attempt(c, Serve(c, times[..|times| - 1]).bucket, times[|times| - 1]).0
  }

  /** The bucket is the end of the admissions, and what is missing lies at or before the cutoff. */
  ghost predicate EndOf(bucket: seq<Time>, admitted: seq<Time>, cutoff: Time) {
    && |bucket| <= |admitted|
    && (forall i :: 0 <= i < |bucket| ==> bucket[i] == admitted[|admitted| - |bucket| + i])
    && forall i :: 0 <= i < |admitted| - |bucket| ==> admitted[i] <= cutoff
  }

  ghost predicate UpTo(times: seq<Time>, last: Time) {
    forall i :: 0 <= i < |times| ==> times[i] <= last
  }

  /** Admissions that are limit places apart are a window apart. */
  ghost predicate Spaced(c: Config, admitted: seq<Time>) {
    forall i, j :: 0 <= i && j == i + c.limit && j < |admitted| ==> admitted[i] + c.window <= admitted[j]
  }

  /** The bucket holds all admissions that are still in the window. */
  ghost predicate Tracks(c: Config, served: Served, last: Time) {
    && Sorted(served.admitted) && UpTo(served.admitted, last) && Spaced(c, served.admitted)
    && EndOf(served.bucket, served.admitted, last - c.window)
    && |served.bucket| <= c.limit
  }

  lemma {:induction false} Expired(bucket: seq<Time>, cutoff: Time)
    requires Sorted(bucket)
    ensures var live := Expire(bucket, cutoff);
            EndOf(live, bucket, cutoff) && forall i :: 0 <= i < |live| ==> cutoff < live[i]
  {
    if bucket != [] && bucket[0] <= cutoff {
      Expired(bucket[1..], cutoff);
    }
  }

  lemma EndOfEnd(live: seq<Time>, bucket: seq<Time>, admitted: seq<Time>, earlier: Time, cutoff: Time)
    requires EndOf(live, bucket, cutoff) && EndOf(bucket, admitted, earlier) && earlier <= cutoff
    ensures EndOf(live, admitted, cutoff)
  {
    var first := |admitted| - |bucket|;
    forall i | first <= i < |admitted| - |live| ensures admitted[i] <= cutoff {
      assert admitted[i] == bucket[i - first];
    }
  }

  lemma EndSortedUpTo(end: seq<Time>, times: seq<Time>, cutoff: Time, last: Time)
    requires EndOf(end, times, cutoff) && Sorted(times) && UpTo(times, last)
    ensures Sorted(end) && UpTo(end, last)
  {
  }

  /** Expiry keeps exactly the admissions inside the window. */
  lemma LiveAdmissions(c: Config, admitted: seq<Time>, bucket: seq<Time>, last: Time, now: Time)
    requires Sorted(admitted) && UpTo(admitted, last) && last <= now
    requires EndOf(bucket, admitted, last - c.window)
    ensures var live := Expire(bucket, now - c.window);
            && EndOf(live, admitted, now - c.window) && |live| <= |bucket|
            && UpTo(live, now) && forall i :: 0 <= i < |live| ==> now - c.window < live[i]
  {
    EndSortedUpTo(bucket, admitted, last - c.window, last);
    Expired(bucket, now - c.window);
    var live := Expire(bucket, now - c.window);
    EndSortedUpTo(live, bucket, now - c.window, last);
    EndOfEnd(live, bucket, admitted, last - c.window, now - c.window);
  }

  lemma AdmitTracks(c: Config, admitted: seq<Time>, live: seq<Time>, now: Time)
    requires Sorted(admitted) && UpTo(admitted, now) && Spaced(c, admitted)
    requires EndOf(live, admitted, now - c.window) && |live| < c.limit
    ensures Tracks(c, Served(live + [now], admitted + [now]), now)
  {
  }

  lemma AttemptTracks(c: Config, served: Served, last: Time, now: Time)
    requires Proper(c) && Tracks(c, served, last) && last <= now
    ensures var (answer, bucket) := Attempt(c, served.bucket, now);
            Tracks(c, Served(bucket, if answer.allowed then served.admitted + [now] else served.admitted), now)
  {
    LiveAdmissions(c, served.admitted, served.bucket, last, now);
    var live := Expire(served.bucket, now - c.window);
    if |live| < c.limit {
      AdmitTracks(c, served.admitted, live, now);
    }
  }

  lemma {:induction false} ServeTracks(c: Config, times: seq<Time>)
    requires Proper(c) && Sorted(times) && times != []
    ensures Tracks(c, Serve(c, times), times[|times| - 1])
    decreases |times|
  {
    var before, now := times[..|times| - 1], times[|times| - 1];
    if before == [] {
      AttemptTracks(c, Served([], []), now, now);
    } else {
      ServeTracks(c, before);
      AttemptTracks(c, Serve(c, before), before[|before| - 1], now);
    }
  }

  /** How many of the times lie after one moment and not after another. */
  function Count(times: seq<Time>, after: Time, upTo: Time): nat {
    if times == [] then 0
    else
      var last := times[|times| - 1];
      Count(times[..|times| - 1], after, upTo) + if after < last <= upTo then 1 else 0
  }

  lemma {:induction false} CountOfEnd(times: seq<Time>, after: Time, upTo: Time, k: nat)
    requires k <= |times| && forall i :: 0 <= i < |times| - k ==> times[i] <= after
    ensures Count(times, after, upTo) <= k
    ensures (forall i :: |times| - k <= i < |times| ==> after < times[i] <= upTo) ==> Count(times, after, upTo) == k
    decreases |times|
  {
    if times != [] {
      var init := times[..|times| - 1];
      assert forall i :: 0 <= i < |init| ==> init[i] == times[i];
      CountOfEnd(init, after, upTo, if k == 0 then 0 else k - 1);
    }
  }

  lemma {:induction false} SpacedCount(c: Config, admitted: seq<Time>, end: Time)
    requires Proper(c) && Sorted(admitted) && Spaced(c, admitted)
    ensures Count(admitted, end - c.window, end) <= c.limit
    decreases |admitted|
  {
    if |admitted| > c.limit {
      var last := |admitted| - 1;
      if end < admitted[last] {
        SpacedCount(c, admitted[..last], end);
      } else {
        assert admitted[last - c.limit] + c.window <= admitted[last];
        assert forall i :: 0 <= i < |admitted| - c.limit ==> admitted[i] <= admitted[last - c.limit];
        CountOfEnd(admitted, end - c.window, end, c.limit);
      }
    } else {
      CountOfEnd(admitted, end - c.window, end, |admitted|);
    }
  }

  /** For every history, any interval of window length holds at most limit admissions. */
  lemma AtMostLimitPerWindow(c: Config, times: seq<Time>, end: Time)
    requires Proper(c) && Sorted(times)
    ensures Count(Serve(c, times).admitted, end - c.window, end) <= c.limit
  {
    if times != [] {
      ServeTracks(c, times);
    }
    SpacedCount(c, Serve(c, times).admitted, end);
  }

  lemma LiveCount(c: Config, admitted: seq<Time>, live: seq<Time>, now: Time)
    requires EndOf(live, admitted, now - c.window) && UpTo(live, now)
    requires forall i :: 0 <= i < |live| ==> now - c.window < live[i]
    ensures Count(admitted, now - c.window, now) == |live|
  {
    forall i | |admitted| - |live| <= i < |admitted| ensures now - c.window < admitted[i] <= now {
      assert admitted[i] == live[i - (|admitted| - |live|)];
    }
    CountOfEnd(admitted, now - c.window, now, |live|);
  }

  /** A call is refused exactly when limit admissions lie in the window that ends with it. */
  lemma RefusedIffFull(c: Config, times: seq<Time>)
    requires Proper(c) && Sorted(times) && times != []
    ensures var now := times[|times| - 1];
            var inside := Count(Serve(c, times[..|times| - 1]).admitted, now - c.window, now);
            && inside <= c.limit
            && (!LastAnswer(c, times).allowed <==> inside == c.limit)
            && (LastAnswer(c, times).allowed ==> LastAnswer(c, times).remaining == c.limit - 1 - inside)
  {
    var earlier, now := times[..|times| - 1], times[|times| - 1];
    if earlier == [] {
      CountedAnswer(c, [], [], now, now);
    } else {
      ServeTracks(c, earlier);
      CountedAnswer(c, Serve(c, earlier).admitted, Serve(c, earlier).bucket, earlier[|earlier| - 1], now);
    }
  }

  lemma CountedAnswer(c: Config, admitted: seq<Time>, bucket: seq<Time>, last: Time, now: Time)
    requires Proper(c) && Sorted(admitted) && UpTo(admitted, last) && last <= now
    requires EndOf(bucket, admitted, last - c.window) && |bucket| <= c.limit
    ensures var inside := Count(admitted, now - c.window, now);
            var answer := Attempt(c, bucket, now).0;
            && inside <= c.limit && (!answer.allowed <==> inside == c.limit)
            && (answer.allowed ==> answer.remaining == c.limit - 1 - inside)
  {
    LiveAdmissions(c, admitted, bucket, last, now);
    LiveCount(c, admitted, Expire(bucket, now - c.window), now);
  }

  /** A full bucket lets the next call in exactly from the moment its oldest entry leaves the window. */
  lemma FullUntil(c: Config, bucket: seq<Time>, later: Time)
    requires Proper(c) && |bucket| == c.limit
    ensures Attempt(c, bucket, later).0.allowed <==> bucket[0] + c.window <= later
  {
    ExpireShrinks(bucket[1..], later - c.window);
  }

  lemma {:induction false} ExpireShrinks(bucket: seq<Time>, cutoff: Time)
    ensures |Expire(bucket, cutoff)| <= |bucket|
  {
    if bucket != [] && bucket[0] <= cutoff {
      ExpireShrinks(bucket[1..], cutoff);
    }
  }

  /**
  After a refusal and with no call in between, an attempt is admitted exactly from the
  moment the oldest admission leaves the window; the announced delay is that moment,
  except that it is never announced as less than a millisecond.
  */
  lemma RetryIsExact(c: Config, times: seq<Time>, later: Time)
    requires Proper(c) && Sorted(times) && times != [] && times[|times| - 1] <= later
    requires !LastAnswer(c, times).allowed
    ensures var now := times[|times| - 1];
            var retry := LastAnswer(c, times).retryAfter;
            var bucket := Serve(c, times).bucket;
            && |bucket| == c.limit
            && var free := bucket[0] + c.window;
               && (LastAnswer(c, times + [later]).allowed <==> free <= later)
               && retry == (if free - now < c.millisecond then c.millisecond else free - now)
               && (now + retry <= later ==> LastAnswer(c, times + [later]).allowed)
               && (later < now + retry && c.millisecond <= free - now ==> !LastAnswer(c, times + [later]).allowed)
  {
    assert (times + [later])[..|times|] == times;
    ServeTracks(c, times);
    FullUntil(c, Serve(c, times).bucket, later);
  }

  // ---- The in-memory limiter ----

  class SlidingWindowLimiter {
    const config: Config
    var buckets: map<string, seq<Time>>

    constructor (config: Config)
      ensures this.config == config && buckets == map[]
    {
      this.config, buckets := config, map[];
    }

    ghost function Bucket(key: string): seq<Time> reads this {
      if key in buckets then buckets[key] else []
    }

    /** One call for one key; other keys are not affected. */
    method Allow(key: string, now: Time) returns (answer: Answer)
      requires Proper(config)
      modifies this
      ensures (answer, Bucket(key)) == Attempt(config, old(Bucket(key)), now)
      ensures forall k :: k != key ==> Bucket(k) == old(Bucket(k))
    {
      var bucket := if key in buckets then buckets[key] else [];
      ghost var before := bucket;
      while bucket != [] && bucket[0] <= now - config.window
        invariant Expire(bucket, now - config.window) == Expire(before, now - config.window)
        decreases |bucket|
      {
        bucket := bucket[1..];
      }
      if |bucket| >= config.limit {
        answer := Answer(false, 0, RetryAfter(config, bucket[0], now));
      } else {
        bucket := bucket + [now];
        answer := Answer(true, config.limit - |bucket|, 0);
      }
      buckets := buckets[key := bucket];
    }
  }

  // ---- The Redis script ----

  type Member = nat

  datatype Entry = Entry(score: Time, member: Member)

  /** The sorted set of one key, in the order of scores, and when the key expires. */
  datatype Zset = Zset(entries: seq<Entry>, expireAt: Option<Time>)

  const NOTHING := Zset([], None)

  /**
  A call: the caller's time, the server's time when the script runs, the set member it
  would add, and whether the server had dropped the expired key by then.
  */
  datatype Hit = Hit(now: Time, at: Time, member: Member, dropped: bool)

  /** Remove the entries with scores from 0 up to the cutoff. */
  function RemoveByScore(entries: seq<Entry>, cutoff: Time): seq<Entry> {
    if entries == [] then []
    else
      var rest := RemoveByScore(entries[1..], cutoff);
      if 0 <= entries[0].score <= cutoff then rest else [entries[0]] + rest
  }

  /** A new member goes behind lower scores and before higher ones; among equal scores it may land anywhere. */
  ghost predicate Added(entries: seq<Entry>, entry: Entry, entries': seq<Entry>) {
    exists k :: 0 <= k <= |entries| && AddedAt(entries, entry, entries', k)
  }

  ghost predicate AddedAt(entries: seq<Entry>, entry: Entry, entries': seq<Entry>, k: nat)
    requires k <= |entries|
  {
    && entries' == entries[..k] + [entry] + entries[k..]
    && (forall i :: 0 <= i < k ==> entries[i].score <= entry.score)
    && (forall i :: k <= i < |entries| ==> entry.score <= entries[i].score)
  }

  function LiveEntries(c: Config, z: Zset, hit: Hit): seq<Entry> {
    if hit.dropped then [] else RemoveByScore(z.entries, hit.now - c.window)
  }

  /** What the script may answer and leave behind, given a member that the set does not have yet. */
  ghost predicate Script(c: Config, z: Zset, hit: Hit, answer: Answer, z': Zset) {
    var live := LiveEntries(c, z, hit);
    if |live| >= c.limit then
      && z' == Zset(live, z.expireAt)
      && |live| > 0 && answer == Answer(false, 0, live[0].score + c.window - hit.now)
    else
      && Added(live, Entry(hit.now, hit.member), z'.entries) && z'.expireAt == Some(hit.at + c.window)
      && answer == Answer(true, c.limit - |live| - 1, 0)
  }

  function Scores(entries: seq<Entry>): (scores: seq<Time>)
    ensures |scores| == |entries| && forall i :: 0 <= i < |entries| ==> scores[i] == entries[i].score
  {
    seq(|entries|, i requires 0 <= i < |entries| => entries[i].score)
  }

  /** The set has the scores of the bucket, in order. */
  ghost predicate StandsFor(z: Zset, bucket: seq<Time>, last: Time) {
    Scores(z.entries) == bucket && InOrder(bucket, last)
  }

  ghost predicate InOrder(bucket: seq<Time>, last: Time) {
    Sorted(bucket) && UpTo(bucket, last) && forall i :: 0 <= i < |bucket| ==> 0 <= bucket[i]
  }

  /** The server has dropped the key although some admission still counts for this caller. */
  predicate EarlyDrop(c: Config, z: Zset, hit: Hit) {
    hit.dropped && exists i :: 0 <= i < |z.entries| && hit.now - c.window < z.entries[i].score
  }

  /** Removing scores up to the cutoff is dropping the bucket's oldest entries. */
  lemma {:induction false} RemoveIsExpire(entries: seq<Entry>, cutoff: Time)
    requires Sorted(Scores(entries)) && forall i :: 0 <= i < |entries| ==> 0 <= entries[i].score
    ensures Scores(RemoveByScore(entries, cutoff)) == Expire(Scores(entries), cutoff)
  {
    if entries != [] {
      assert Scores(entries)[1..] == Scores(entries[1..]);
      RemoveIsExpire(entries[1..], cutoff);
      if cutoff < entries[0].score {
        NoneExpire(Scores(entries[1..]), cutoff);
        assert Scores([entries[0]] + RemoveByScore(entries[1..], cutoff)) == [entries[0].score] + Scores(entries[1..]);
      }
    }
  }

  lemma NoneExpire(bucket: seq<Time>, cutoff: Time)
    requires forall i :: 0 <= i < |bucket| ==> cutoff < bucket[i]
    ensures Expire(bucket, cutoff) == bucket
  {
  }

  lemma {:induction false} AllExpire(bucket: seq<Time>, cutoff: Time)
    requires UpTo(bucket, cutoff)
    ensures Expire(bucket, cutoff) == []
  {
    if bucket != [] {
      AllExpire(bucket[1..], cutoff);
    }
  }

  lemma AddedScores(entries: seq<Entry>, entry: Entry, entries': seq<Entry>)
    requires Added(entries, entry, entries') && UpTo(Scores(entries), entry.score)
    ensures Scores(entries') == Scores(entries) + [entry.score]
  {
  }

  lemma LiveInOrder(c: Config, bucket: seq<Time>, now: Time, last: Time)
    requires InOrder(bucket, last)
    ensures InOrder(Expire(bucket, now - c.window), last)
    ensures var live := Expire(bucket, now - c.window); forall i :: 0 <= i < |live| ==> now - c.window < live[i]
  {
    Expired(bucket, now - c.window);
  }

  /** What is left of the set is what is left of the bucket, unless the key was dropped early. */
  lemma LiveStandsFor(c: Config, z: Zset, bucket: seq<Time>, hit: Hit, last: Time)
    requires StandsFor(z, bucket, last) && last <= hit.now && !EarlyDrop(c, z, hit)
    ensures var live := Expire(bucket, hit.now - c.window);
            && StandsFor(Zset(LiveEntries(c, z, hit), z.expireAt), live, hit.now)
            && (forall i :: 0 <= i < |live| ==> hit.now - c.window < live[i])
  {
    LiveInOrder(c, bucket, hit.now, last);
    if hit.dropped {
      AllExpire(bucket, hit.now - c.window);
    } else {
      RemoveIsExpire(z.entries, hit.now - c.window);
    }
  }

  /** One call: the script answers as the in-memory limiter does, and the set still stands for the bucket. */
  lemma ScriptAnswersAlike(c: Config, z: Zset, bucket: seq<Time>, hit: Hit, last: Time, answer: Answer, z': Zset)
    requires Proper(c) && c.millisecond == 1
    requires StandsFor(z, bucket, last) && last <= hit.now && 0 <= hit.now && !EarlyDrop(c, z, hit)
    requires Script(c, z, hit, answer, z')
    ensures answer == Attempt(c, bucket, hit.now).0
    ensures StandsFor(z', Attempt(c, bucket, hit.now).1, hit.now)
  {
    LiveStandsFor(c, z, bucket, hit, last);
    LiveAnswersAlike(c, z, Expire(bucket, hit.now - c.window), hit, answer, z');
  }

  lemma LiveAnswersAlike(c: Config, z: Zset, live: seq<Time>, hit: Hit, answer: Answer, z': Zset)
    requires Proper(c) && c.millisecond == 1 && 0 <= hit.now
    requires StandsFor(Zset(LiveEntries(c, z, hit), z.expireAt), live, hit.now)
    requires forall i :: 0 <= i < |live| ==> hit.now - c.window < live[i]
    requires Script(c, z, hit, answer, z')
    ensures |live| >= c.limit ==>
              answer == Answer(false, 0, RetryAfter(c, live[0], hit.now)) && StandsFor(z', live, hit.now)
    ensures |live| < c.limit ==>
              answer == Answer(true, c.limit - |live| - 1, 0) && StandsFor(z', live + [hit.now], hit.now)
  {
    var entries := LiveEntries(c, z, hit);
    if |entries| < c.limit {
      AddedScores(entries, Entry(hit.now, hit.member), z'.entries);
    }
  }

  /** A key dropped early is answered as a fresh one, and the in-memory limiter answers differently. */
  lemma EarlyDropShows(c: Config, z: Zset, bucket: seq<Time>, hit: Hit, last: Time, answer: Answer, z': Zset)
    requires Proper(c) && StandsFor(z, bucket, last) && EarlyDrop(c, z, hit)
    requires Script(c, z, hit, answer, z')
    ensures answer != Attempt(c, bucket, hit.now).0
  {
    var i :| 0 <= i < |z.entries| && hit.now - c.window < z.entries[i].score;
    LaterStay(bucket, hit.now - c.window, i);
  }

  lemma {:induction false} LaterStay(bucket: seq<Time>, cutoff: Time, i: nat)
    requires i < |bucket| && cutoff < bucket[i]
    ensures Expire(bucket, cutoff) != []
  {
    if bucket[0] <= cutoff {
      LaterStay(bucket[1..], cutoff, i - 1);
    }
  }

  // ---- Traces ----

  /** A history of calls to the script for one key, with the states in between and the answers. */
  datatype Trace = Trace(hits: seq<Hit>, sets: seq<Zset>, answers: seq<Answer>)

  /** The k-th call: no clock goes back, the key is dropped no sooner than it expires on the server, and the member is new. */
  ghost predicate CallIsPossible(c: Config, t: Trace, k: nat)
    requires |t.sets| == |t.hits| + 1 && |t.answers| == |t.hits| && k < |t.hits|
  {
    && Script(c, t.sets[k], t.hits[k], t.answers[k], t.sets[k + 1])
    && LastHit(t.hits[..k]) <= t.hits[k].now
    && (k > 0 ==> t.hits[k - 1].at <= t.hits[k].at)
    && (t.hits[k].dropped ==> t.sets[k].expireAt.Some? && t.sets[k].expireAt.value <= t.hits[k].at)
    && (forall i :: 0 <= i < k ==> t.hits[i].member != t.hits[k].member)
  }

  /** The time of the last call; times begin at 0. */
  function LastHit(hits: seq<Hit>): Time {
    if hits == [] then 0 else hits[|hits| - 1].now
  }

  ghost predicate PossibleUpTo(c: Config, t: Trace, k: nat)
    requires |t.sets| == |t.hits| + 1 && |t.answers| == |t.hits| && k <= |t.hits|
    decreases k
  {
    if k == 0 then t.sets[0] == NOTHING else PossibleUpTo(c, t, k - 1) && CallIsPossible(c, t, k - 1)
  }

  ghost predicate Possible(c: Config, t: Trace) {
    && |t.sets| == |t.hits| + 1 && |t.answers| == |t.hits| && PossibleUpTo(c, t, |t.hits|)
  }

  function Times(hits: seq<Hit>): (times: seq<Time>)
    ensures |times| == |hits| && forall i :: 0 <= i < |hits| ==> times[i] == hits[i].now
  {
    seq(|hits|, i requires 0 <= i < |hits| => hits[i].now)
  }

  /** After some calls the set stands for the bucket of the in-memory limiter. */
  ghost predicate InStep(c: Config, hits: seq<Hit>, z: Zset)
    requires Proper(c)
  {
    StandsFor(z, Serve(c, Times(hits)).bucket, LastHit(hits)) && 0 <= LastHit(hits)
  }

  lemma NextInStep(c: Config, before: seq<Hit>, hits: seq<Hit>, z: Zset, hit: Hit, answer: Answer, z': Zset)
    requires Proper(c) && c.millisecond == 1 && hits == before + [hit] && InStep(c, before, z)
    requires Script(c, z, hit, answer, z') && LastHit(before) <= hit.now
    ensures !EarlyDrop(c, z, hit) ==> InStep(c, hits, z')
    ensures answer == LastAnswer(c, Times(hits)) <==> !EarlyDrop(c, z, hit)
  {
    ServeOneMore(c, before, hit);
    if EarlyDrop(c, z, hit) {
      EarlyDropShows(c, z, Serve(c, Times(before)).bucket, hit, LastHit(before), answer, z');
    } else {
      ScriptAnswersAlike(c, z, Serve(c, Times(before)).bucket, hit, LastHit(before), answer, z');
    }
  }

  lemma ServeOneMore(c: Config, hits: seq<Hit>, hit: Hit)
    requires Proper(c)
    ensures var before, all := Times(hits), Times(hits + [hit]);
            && LastAnswer(c, all) == Attempt(c, Serve(c, before).bucket, hit.now).0
            && Serve(c, all).bucket == Attempt(c, Serve(c, before).bucket, hit.now).1
  {
    var all := Times(hits + [hit]);
    assert all[..|all| - 1] == Times(hits);
  }

  /** The k-th call is answered as by the in-memory limiter. */
  ghost predicate AlikeAt(c: Config, t: Trace, k: nat)
    requires Proper(c) && 0 < k <= |t.hits| == |t.answers|
  {
    t.answers[k - 1] == LastAnswer(c, Times(t.hits[..k]))
  }

  ghost predicate DropAt(c: Config, t: Trace, k: nat)
    requires k < |t.hits| < |t.sets|
  {
    EarlyDrop(c, t.sets[k], t.hits[k])
  }

  /** As long as no key is dropped early the set keeps in step, and the first early drop shows. */
  lemma {:induction false} SetsInStep(c: Config, t: Trace, k: nat)
    requires Proper(c) && c.millisecond == 1
    requires |t.sets| == |t.hits| + 1 && |t.answers| == |t.hits| && k <= |t.hits| && PossibleUpTo(c, t, k)
    requires forall i :: 0 <= i < k - 1 ==> !DropAt(c, t, i)
    ensures (k > 0 ==> !DropAt(c, t, k - 1)) ==> InStep(c, t.hits[..k], t.sets[k])
    ensures k > 0 ==> (AlikeAt(c, t, k) <==> !DropAt(c, t, k - 1))
    decreases k
  {
    if k > 0 {
      SetsInStep(c, t, k - 1);
      OneMoreHit(t.hits, k - 1);
      NextInStep(c, t.hits[..k - 1], t.hits[..k], t.sets[k - 1], t.hits[k - 1], t.answers[k - 1], t.sets[k]);
    }
  }

  lemma OneMoreHit(hits: seq<Hit>, k: nat)
    requires k < |hits|
    ensures hits[..k + 1] == hits[..k] + [hits[k]]
  {
  }

  lemma {:induction false} PossibleBefore(c: Config, t: Trace, k: nat, n: nat)
    requires |t.sets| == |t.hits| + 1 && |t.answers| == |t.hits| && k <= n <= |t.hits| && PossibleUpTo(c, t, n)
    ensures PossibleUpTo(c, t, k)
    decreases n
  {
    if k < n {
      PossibleBefore(c, t, k, n - 1);
    }
  }

  lemma FirstDropShows(c: Config, t: Trace, n: nat)
    requires Proper(c) && c.millisecond == 1 && Possible(c, t) && 0 < n <= |t.hits|
    requires forall k :: 0 <= k < n - 1 ==> !DropAt(c, t, k)
    ensures AlikeAt(c, t, n) <==> !DropAt(c, t, n - 1)
  {
    PossibleBefore(c, t, n, |t.hits|);
    SetsInStep(c, t, n);
  }

  /**
  The script and the in-memory limiter give the same answers, remaining count and delay
  included, up to any call exactly when no key was dropped early up to that call.
  */
  lemma {:induction false} RedisAnswersAlikeIff(c: Config, t: Trace, n: nat)
    requires Proper(c) && c.millisecond == 1 && Possible(c, t) && n <= |t.hits|
    ensures (forall k :: 0 < k <= n ==> AlikeAt(c, t, k)) <==> forall k :: 0 <= k < n ==> !DropAt(c, t, k)
    decreases n
  {
    if n > 0 {
      RedisAnswersAlikeIff(c, t, n - 1);
      if forall k :: 0 <= k < n - 1 ==> !DropAt(c, t, k) {
        FirstDropShows(c, t, n);
      }
    }
  }

  // ---- Clocks ----

  /** Between any two calls the server's clock advances at most this much more than the callers'. */
  ghost predicate Drift(hits: seq<Hit>, slack: nat) {
    forall i, k :: 0 <= i < k < |hits| ==> hits[k].at - hits[i].at <= hits[k].now - hits[i].now + slack
  }

  /** Every entry was written by a call, and the key was made to outlast it by the window on the server's clock. */
  ghost predicate WrittenBefore(c: Config, hits: seq<Hit>, z: Zset) {
    forall e :: e in z.entries ==>
      z.expireAt.Some? && exists i :: 0 <= i < |hits| && e.score == hits[i].now && hits[i].at + c.window <= z.expireAt.value
  }

  lemma {:induction false} RemovedFrom(entries: seq<Entry>, cutoff: Time)
    ensures forall e :: e in RemoveByScore(entries, cutoff) ==> e in entries
  {
    if entries != [] {
      RemovedFrom(entries[1..], cutoff);
    }
  }

  lemma NextWritten(c: Config, before: seq<Hit>, hit: Hit, z: Zset, answer: Answer, z': Zset)
    requires WrittenBefore(c, before, z) && Script(c, z, hit, answer, z')
    requires forall i :: 0 <= i < |before| ==> before[i].at <= hit.at
    ensures WrittenBefore(c, before + [hit], z')
  {
    RemovedFrom(z.entries, hit.now - c.window);
    var all := before + [hit];
    assert all[|before|] == hit;
    forall e | e in z'.entries
      ensures z'.expireAt.Some? && exists i :: 0 <= i < |all| && e.score == all[i].now && all[i].at + c.window <= z'.expireAt.value
    {
      if e in LiveEntries(c, z, hit) {
        var i :| 0 <= i < |before| && e.score == before[i].now && before[i].at + c.window <= z.expireAt.value;
        assert all[i] == before[i];
      }
    }
  }

  lemma {:induction false} ServerInOrder(c: Config, t: Trace, i: nat, k: nat)
    requires |t.sets| == |t.hits| + 1 && |t.answers| == |t.hits| && i <= k < |t.hits| && PossibleUpTo(c, t, k + 1)
    ensures t.hits[i].at <= t.hits[k].at
    decreases k
  {
    if i < k {
      ServerInOrder(c, t, i, k - 1);
    }
  }

  lemma {:induction false} SetsWritten(c: Config, t: Trace, k: nat)
    requires |t.sets| == |t.hits| + 1 && |t.answers| == |t.hits| && k <= |t.hits| && PossibleUpTo(c, t, k)
    ensures WrittenBefore(c, t.hits[..k], t.sets[k])
    decreases k
  {
    if k > 0 {
      SetsWritten(c, t, k - 1);
      forall i | 0 <= i < k - 1 ensures t.hits[i].at <= t.hits[k - 1].at {
        ServerInOrder(c, t, i, k - 1);
      }
      OneMoreHit(t.hits, k - 1);
      NextWritten(c, t.hits[..k - 1], t.hits[k - 1], t.sets[k - 1], t.answers[k - 1], t.sets[k]);
    }
  }

  /** A dropped key held nothing that counts for longer than the slack between the clocks. */
  lemma DroppedIsNearlyOver(c: Config, t: Trace, k: nat, slack: nat)
    requires Possible(c, t) && k < |t.hits| && t.hits[k].dropped && Drift(t.hits, slack)
    ensures forall e :: e in t.sets[k].entries ==> e.score + c.window <= t.hits[k].now + slack
  {
    PossibleBefore(c, t, k + 1, |t.hits|);
    SetsWritten(c, t, k);
  }

  /** With clocks that advance alike, every trace is answered alike. */
  lemma OneClockAnswersAlike(c: Config, t: Trace, k: nat)
    requires Proper(c) && c.millisecond == 1 && Possible(c, t) && 0 < k <= |t.hits| && Drift(t.hits, 0)
    ensures AlikeAt(c, t, k)
  {
    forall i | 0 <= i < k ensures !DropAt(c, t, i) {
      if t.hits[i].dropped {
        DroppedIsNearlyOver(c, t, i, 0);
      }
    }
    RedisAnswersAlikeIff(c, t, k);
  }

  // ---- A call that is late on the server's clock ----

  const ONE_IN_TEN := Config(1, 10, 1)

  /** Calls at 0 and at 9; the second reaches the server at 10, when the key has just expired. */
  const LATE := Trace([Hit(0, 0, 0, false), Hit(9, 10, 1, true)],
                      [NOTHING, Zset([Entry(0, 0)], Some(10)), Zset([Entry(9, 1)], Some(20))],
                      [Answer(true, 0, 0), Answer(true, 0, 0)])

  lemma LateFirstCall()
    ensures CallIsPossible(ONE_IN_TEN, LATE, 0)
  {
    assert AddedAt([], Entry(0, 0), LATE.sets[1].entries, 0);
  }

  lemma LateSecondCall()
    ensures CallIsPossible(ONE_IN_TEN, LATE, 1)
  {
    assert AddedAt([], Entry(9, 1), LATE.sets[2].entries, 0);
    assert LATE.hits[..1] == [LATE.hits[0]];
  }

  /** With clocks one tick apart both calls can be let in, although the limit is one in ten. */
  lemma DelayedCallLetsIn()
    ensures Possible(ONE_IN_TEN, LATE) && DropAt(ONE_IN_TEN, LATE, 1) && Drift(LATE.hits, 1)
  {
    LateFirstCall();
    LateSecondCall();
    assert PossibleUpTo(ONE_IN_TEN, LATE, 0) && PossibleUpTo(ONE_IN_TEN, LATE, 1) && PossibleUpTo(ONE_IN_TEN, LATE, 2);
    assert LATE.hits[1].now - ONE_IN_TEN.window < LATE.sets[1].entries[0].score;
  }
}
