/**
The client library's permission cache: an ordered dictionary with an expiry per entry,
the least recently used entry first. What it does over whole call histories is stated
against two things that know nothing of the dictionary: the last put of every key that
has not been invalidated, and the sequence of keys in the order they were touched.
*/
module SdkCache {
  import opened Common

  type Time = int
  type Value = set<string>

  datatype Key = Key(tenant: string, application: string, subject: string)

  datatype Entry = Entry(key: Key, value: Value, expiresAt: Time)

  /** Time to live and the bound on the number of entries. */
  datatype Config = Config(ttl: nat, max: nat)

  // ---- Operations on the ordered entries ----

  predicate Has(entries: seq<Entry>, key: Key) {
    exists i :: 0 <= i < |entries| && entries[i].key == key
  }

  /** The entries whose keys pass, in their order. */
  function Keep(entries: seq<Entry>, keep: Key -> bool): (rest: seq<Entry>)
    ensures |rest| <= |entries|
  {
    if entries == [] then []
    else
      var rest := Keep(entries[1..], keep);
      if keep(entries[0].key) then [entries[0]] + rest else rest
  }

  function Without(entries: seq<Entry>, key: Key): (rest: seq<Entry>)
    ensures |rest| <= |entries|
  {
    Keep(entries, (k: Key) => k != key)
  }

  function Find(entries: seq<Entry>, key: Key): (found: Option<Entry>)
    ensures found.Some? <==> Has(entries, key)
    ensures found.Some? ==> found.value.key == key && found.value in entries
  {
    if entries == [] then None
    else if entries[0].key == key then Some(entries[0])
    else
      var found := Find(entries[1..], key);
      assert Has(entries[1..], key) ==> Has(entries, key) by {
        if Has(entries[1..], key) {
          var i :| 0 <= i < |entries[1..]| && entries[1..][i].key == key;
          assert entries[i + 1].key == key;
        }
      }
      found
  }

  /** An expired entry goes away, a live one moves to the end. */
  function Get(entries: seq<Entry>, key: Key, now: Time): (Option<Value>, seq<Entry>) {
    match Find(entries, key)
    case None => (None, entries)
    case Some(entry) =>
      if entry.expiresAt <= now then (None, Without(entries, key))
      else (Some(entry.value), Without(entries, key) + [entry])
  }

  /** Drop the oldest entries beyond the bound. */
  function Evict(entries: seq<Entry>, max: nat): seq<Entry> {
    if |entries| > max then entries[|entries| - max..] else entries
  }

  function Put(c: Config, entries: seq<Entry>, key: Key, value: Value, now: Time): seq<Entry> {
    Evict(Without(entries, key) + [Entry(key, value, now + c.ttl)], c.max)
  }

  predicate Selected(key: Key, tenant: Option<string>, application: Option<string>) {
    (tenant.None? || tenant == Some(key.tenant)) && (application.None? || application == Some(key.application))
  }

  function Invalidate(entries: seq<Entry>, tenant: Option<string>, application: Option<string>): seq<Entry> {
    Keep(entries, (k: Key) => !Selected(k, tenant, application))
  }

  /** Invalidation drops exactly the entries of the given tenant and application, where one is given. */
  lemma {:induction false} InvalidatedEntries(entries: seq<Entry>, tenant: Option<string>, application: Option<string>, e: Entry)
    ensures e in Invalidate(entries, tenant, application) <==>
            && e in entries
            && ((tenant.Some? && e.key.tenant != tenant.value) || (application.Some? && e.key.application != application.value))
  {
    if entries != [] {
      InvalidatedEntries(entries[1..], tenant, application, e);
      assert e in entries <==> e == entries[0] || e in entries[1..];
    }
  }

  // ---- The cache object ----

  class Cache {
    const config: Config
    var entries: seq<Entry>

    constructor (config: Config)
      ensures this.config == config && entries == []
    {
      this.config, entries := config, [];
    }

    method CacheGet(key: Key, now: Time) returns (value: Option<Value>)
      modifies this
      ensures (value, entries) == Get(old(entries), key, now)
    {
      var found := Find(entries, key);
      if found.None? {
        return None;
      }
      entries := Without(entries, key);
      if found.value.expiresAt <= now {
        return None;
      }
      entries := entries + [found.value];
      return Some(found.value.value);
    }

    method CachePut(key: Key, value: Value, now: Time)
      modifies this
      ensures entries == Put(config, old(entries), key, value, now)
    {
      entries := Without(entries, key) + [Entry(key, value, now + config.ttl)];
      ghost var all := entries;
      while |entries| > config.max
        invariant |entries| <= |all| && entries == all[|all| - |entries|..]
        invariant |entries| == |all| || config.max <= |entries|
        decreases |entries|
      {
        entries := entries[1..];
      }
    }

    method CacheInvalidate(tenant: Option<string>, application: Option<string>)
      modifies this
      ensures entries == Invalidate(old(entries), tenant, application)
    {
      entries := Filtered(entries, tenant, application);
    }
  }

  method Filtered(entries: seq<Entry>, tenant: Option<string>, application: Option<string>) returns (kept: seq<Entry>)
    ensures kept == Invalidate(entries, tenant, application)
  {
    kept := [];
    ghost var keep := (k: Key) => !Selected(k, tenant, application);
    for i := 0 to |entries|
      invariant kept + Keep(entries[i..], keep) == Keep(entries, keep)
    {
      KeepStep(entries, keep, i);
      if !Selected(entries[i].key, tenant, application) {
        kept := kept + [entries[i]];
      }
    }
    assert entries[|entries|..] == [];
  }

  lemma KeepStep(entries: seq<Entry>, keep: Key -> bool, i: nat)
    requires i < |entries|
    ensures Keep(entries[i..], keep) == (if keep(entries[i].key) then [entries[i]] else []) + Keep(entries[i + 1..], keep)
  {
    assert entries[i..][1..] == entries[i + 1..];
  }

  // ---- Histories ----

  datatype Event =
    | GetEvent(key: Key, now: Time)
    | PutEvent(key: Key, value: Value, now: Time)
    | InvalidateEvent(tenant: Option<string>, application: Option<string>)

  function Apply(c: Config, entries: seq<Entry>, e: Event): seq<Entry> {
    match e
    case GetEvent(key, now) => Get(entries, key, now).1
    case PutEvent(key, value, now) => Put(c, entries, key, value, now)
    case InvalidateEvent(tenant, application) => Invalidate(entries, tenant, application)
  }

  function Run(c: Config, events: seq<Event>): seq<Entry>
    decreases |events|
  {
    if events == [] then [] else Apply(c, Run(c, events[..|events| - 1]), events[|events| - 1])
  }

  datatype PutRecord = PutRecord(value: Value, at: Time)

  /** The last put of every key that has not been invalidated since. */
  function LivePuts(events: seq<Event>): map<Key, PutRecord>
    decreases |events|
  {
    if events == [] then map[]
    else Remember(LivePuts(events[..|events| - 1]), events[|events| - 1])
  }

  function Remember(puts: map<Key, PutRecord>, e: Event): map<Key, PutRecord> {
    match e
    case GetEvent(_, _) => puts
    case PutEvent(key, value, now) => puts[key := PutRecord(value, now)]
    case InvalidateEvent(tenant, application) => map k | k in puts && !Selected(k, tenant, application) :: puts[k]
  }

  /** The keys in the order in which they were put or hit. */
  function Touches(c: Config, events: seq<Event>): seq<Key>
    decreases |events|
  {
    if events == [] then []
    else Touched(Touches(c, events[..|events| - 1]), Run(c, events[..|events| - 1]), events[|events| - 1])
  }

  function Touched(touches: seq<Key>, entries: seq<Entry>, e: Event): seq<Key> {
    match e
    case GetEvent(key, now) => if Get(entries, key, now).0.Some? then touches + [key] else touches
    case PutEvent(key, _, _) => touches + [key]
    case InvalidateEvent(_, _) => touches
  }

  /** The other keys touched after the last touch of a key. */
  function Since(touches: seq<Key>, key: Key): (others: set<Key>)
    ensures key !in others
  {
    if touches == [] then {}
    else
      var last := touches[|touches| - 1];
      if last == key then {} else Since(touches[..|touches| - 1], key) + {last}
  }

  function LastTime(events: seq<Event>, start: Time): Time
    decreases |events|
  {
    if events == [] then start
    else
      match events[|events| - 1]
      case GetEvent(_, now) => now
      case PutEvent(_, _, now) => now
      case InvalidateEvent(_, _) => LastTime(events[..|events| - 1], start)
  }

  /** Time does not go back. */
  ghost predicate Timely(events: seq<Event>, start: Time)
    decreases |events|
  {
    events == [] ||
    var before, e := events[..|events| - 1], events[|events| - 1];
    Timely(before, start) && (!e.InvalidateEvent? ==> LastTime(before, start) <= e.now)
  }

  // ---- What every operation keeps ----

  ghost predicate DistinctKeys(entries: seq<Entry>) {
    forall i, j :: 0 <= i < j < |entries| ==> entries[i].key != entries[j].key
  }

  /** Every entry is the live put of its key. */
  ghost predicate Faithful(c: Config, entries: seq<Entry>, puts: map<Key, PutRecord>) {
    forall i :: 0 <= i < |entries| ==>
      && entries[i].key in puts && entries[i].value == puts[entries[i].key].value
      && entries[i].expiresAt == puts[entries[i].key].at + c.ttl
  }

  /** Entries further back were touched later. */
  ghost predicate ByTouch(entries: seq<Entry>, touches: seq<Key>) {
    forall i, j :: 0 <= i < j < |entries| ==> entries[j].key in Since(touches, entries[i].key)
  }

  /** A live, unexpired put is cached, or enough other keys were touched since. */
  ghost predicate Justified(c: Config, entries: seq<Entry>, puts: map<Key, PutRecord>, touches: seq<Key>, now: Time) {
    forall k :: k in puts && now < puts[k].at + c.ttl ==> Has(entries, k) || c.max <= |Since(touches, k)|
  }

  ghost predicate Kept(c: Config, entries: seq<Entry>, puts: map<Key, PutRecord>, touches: seq<Key>, now: Time) {
    && |entries| <= c.max && DistinctKeys(entries)
    && Faithful(c, entries, puts) && ByTouch(entries, touches) && Justified(c, entries, puts, touches, now)
  }

  // ---- Removing entries ----

  lemma {:induction false} KeepMembers(entries: seq<Entry>, keep: Key -> bool)
    ensures forall x :: x in Keep(entries, keep) ==> x in entries
  {
    if entries != [] {
      KeepMembers(entries[1..], keep);
    }
  }

  lemma {:induction false} KeepHas(entries: seq<Entry>, keep: Key -> bool, key: Key)
    ensures Has(Keep(entries, keep), key) <==> Has(entries, key) && keep(key)
  {
    if entries != [] {
      KeepHas(entries[1..], keep, key);
      HasStep(entries, key);
      if keep(entries[0].key) {
        var kept := Keep(entries, keep);
        HasStep(kept, key);
        assert kept[1..] == Keep(entries[1..], keep);
      }
    }
  }

  lemma HasStep(entries: seq<Entry>, key: Key)
    requires entries != []
    ensures Has(entries, key) <==> entries[0].key == key || Has(entries[1..], key)
  {
  }

  /** What the entries promise about themselves. */
  ghost predicate Orderly(c: Config, entries: seq<Entry>, puts: map<Key, PutRecord>, touches: seq<Key>) {
    DistinctKeys(entries) && Faithful(c, entries, puts) && ByTouch(entries, touches)
  }

  lemma {:induction false} KeepOrderly(c: Config, entries: seq<Entry>, keep: Key -> bool, puts: map<Key, PutRecord>,
                                       touches: seq<Key>)
    requires Orderly(c, entries, puts, touches)
    ensures Orderly(c, Keep(entries, keep), puts, touches)
    decreases |entries|
  {
    if entries != [] {
      var rest := Keep(entries[1..], keep);
      KeepOrderly(c, entries[1..], keep, puts, touches);
      KeepMembers(entries[1..], keep);
      forall x | x in rest ensures x.key != entries[0].key && x.key in Since(touches, entries[0].key) {
        var j :| 0 <= j < |entries[1..]| && entries[1..][j] == x;
        assert entries[j + 1] == x;
      }
      if keep(entries[0].key) {
        PrependOrderly(c, entries[0], rest, puts, touches);
      }
    }
  }

  lemma PrependOrderly(c: Config, entry: Entry, rest: seq<Entry>, puts: map<Key, PutRecord>, touches: seq<Key>)
    requires Orderly(c, rest, puts, touches)
    requires forall x :: x in rest ==> x.key != entry.key && x.key in Since(touches, entry.key)
    requires Faithful(c, [entry], puts)
    ensures Orderly(c, [entry] + rest, puts, touches)
  {
  }

  lemma SinceAppend(touches: seq<Key>, last: Key, key: Key)
    ensures Since(touches + [last], key) == if last == key then {} else Since(touches, key) + {last}
  {
  }

  /** An entry moved or added to the end counts as touched. */
  lemma AppendOrderly(c: Config, entries: seq<Entry>, entry: Entry, puts: map<Key, PutRecord>, puts': map<Key, PutRecord>,
                      touches: seq<Key>)
    requires Orderly(c, entries, puts, touches) && !Has(entries, entry.key)
    requires entry.key in puts' && entry.value == puts'[entry.key].value && entry.expiresAt == puts'[entry.key].at + c.ttl
    requires forall k :: k in puts && k != entry.key ==> k in puts' && puts'[k] == puts[k]
    ensures Orderly(c, entries + [entry], puts', touches + [entry.key])
  {
  }

  lemma {:induction false} ManyKeys(entries: seq<Entry>, keys: set<Key>)
    requires DistinctKeys(entries) && forall i :: 0 <= i < |entries| ==> entries[i].key in keys
    ensures |entries| <= |keys|
    decreases |entries|
  {
    if entries != [] {
      var key := entries[0].key;
      ManyKeys(entries[1..], keys - {key});
    }
  }

  // ---- Each event ----

  lemma SinceGrows(c: Config, touches: seq<Key>, last: Key, key: Key)
    requires last != key && c.max <= |Since(touches, key)|
    ensures c.max <= |Since(touches + [last], key)|
  {
    SinceAppend(touches, last, key);
    assert Since(touches, key) <= Since(touches + [last], key);
    var more := Since(touches + [last], key);
    assert more == Since(touches, key) + (more - Since(touches, key));
  }

  lemma FindIsFaithful(c: Config, entries: seq<Entry>, puts: map<Key, PutRecord>, key: Key)
    requires Faithful(c, entries, puts) && Find(entries, key).Some?
    ensures var entry := Find(entries, key).value;
            key in puts && entry.value == puts[key].value && entry.expiresAt == puts[key].at + c.ttl
  {
  }

  lemma GetKeeps(c: Config, entries: seq<Entry>, puts: map<Key, PutRecord>, touches: seq<Key>, last: Time, key: Key, now: Time)
    requires Kept(c, entries, puts, touches, last) && last <= now
    ensures var e := GetEvent(key, now);
            Kept(c, Apply(c, entries, e), puts, Touched(touches, entries, e), now)
  {
    if Find(entries, key).Some? {
      var entry := Find(entries, key).value;
      var rest := Without(entries, key);
      FindIsFaithful(c, entries, puts, key);
      WithoutKeeps(c, entries, puts, touches, key);
      if now < entry.expiresAt {
        AppendOrderly(c, rest, entry, puts, puts, touches);
        FewerWithout(entries, key);
        forall k | k in puts && now < puts[k].at + c.ttl
          ensures Has(rest + [entry], k) || c.max <= |Since(touches + [key], k)|
        {
          HasAppend(rest, entry, k);
          if k != key && !Has(entries, k) {
            SinceGrows(c, touches, key, k);
          }
        }
      }
    }
  }

  lemma WithoutKeeps(c: Config, entries: seq<Entry>, puts: map<Key, PutRecord>, touches: seq<Key>, key: Key)
    requires Orderly(c, entries, puts, touches)
    ensures Orderly(c, Without(entries, key), puts, touches) && !Has(Without(entries, key), key)
    ensures forall k :: k != key ==> (Has(Without(entries, key), k) <==> Has(entries, k))
  {
    KeepOrderly(c, entries, (k: Key) => k != key, puts, touches);
    forall k ensures Has(Without(entries, key), k) <==> Has(entries, k) && k != key {
      KeepHas(entries, (k: Key) => k != key, k);
    }
  }

  lemma HasAppend(entries: seq<Entry>, entry: Entry, key: Key)
    ensures Has(entries + [entry], key) <==> Has(entries, key) || entry.key == key
  {
    var more := entries + [entry];
    assert more[|entries|] == entry;
    if Has(entries, key) {
      var i :| 0 <= i < |entries| && entries[i].key == key;
      assert more[i].key == key;
    }
  }

  lemma {:induction false} FewerWithout(entries: seq<Entry>, key: Key)
    requires Has(entries, key)
    ensures |Without(entries, key)| < |entries|
  {
    if entries[0].key != key {
      HasStep(entries, key);
      FewerWithout(entries[1..], key);
    }
  }

  /** The list before eviction: the new entry comes last. */
  lemma PutOrderly(c: Config, entries: seq<Entry>, puts: map<Key, PutRecord>, touches: seq<Key>, last: Time, key: Key,
                   value: Value, now: Time)
    requires Kept(c, entries, puts, touches, last) && last <= now
    ensures var list := Without(entries, key) + [Entry(key, value, now + c.ttl)];
            var puts' := puts[key := PutRecord(value, now)];
            && |list| <= c.max + 1
            && Orderly(c, list, puts', touches + [key]) && Justified(c, list, puts', touches + [key], now)
  {
    var entry := Entry(key, value, now + c.ttl);
    var rest := Without(entries, key);
    var puts' := puts[key := PutRecord(value, now)];
    WithoutKeeps(c, entries, puts, touches, key);
    AppendOrderly(c, rest, entry, puts, puts', touches);
    forall k | k in puts' && now < puts'[k].at + c.ttl
      ensures Has(rest + [entry], k) || c.max <= |Since(touches + [key], k)|
    {
      HasAppend(rest, entry, k);
      if k != key && !Has(entries, k) {
        SinceGrows(c, touches, key, k);
      }
    }
  }

  /** An evicted key has seen as many other keys touched as the cache can hold. */
  lemma EvictKeeps(c: Config, list: seq<Entry>, puts: map<Key, PutRecord>, touches: seq<Key>, now: Time)
    requires |list| <= c.max + 1 && Orderly(c, list, puts, touches) && Justified(c, list, puts, touches, now)
    ensures Kept(c, Evict(list, c.max), puts, touches, now)
  {
    if |list| > c.max {
      var rest := list[1..];
      assert Evict(list, c.max) == rest;
      ManyKeys(rest, Since(touches, list[0].key));
      forall k | k in puts && now < puts[k].at + c.ttl ensures Has(rest, k) || c.max <= |Since(touches, k)| {
        HasStep(list, k);
      }
    }
  }

  lemma PutKeeps(c: Config, entries: seq<Entry>, puts: map<Key, PutRecord>, touches: seq<Key>, last: Time, key: Key,
                 value: Value, now: Time)
    requires Kept(c, entries, puts, touches, last) && last <= now
    ensures Kept(c, Put(c, entries, key, value, now), puts[key := PutRecord(value, now)], touches + [key], now)
  {
    PutOrderly(c, entries, puts, touches, last, key, value, now);
    EvictKeeps(c, Without(entries, key) + [Entry(key, value, now + c.ttl)], puts[key := PutRecord(value, now)], touches + [key], now);
  }

  lemma InvalidateKeeps(c: Config, entries: seq<Entry>, puts: map<Key, PutRecord>, touches: seq<Key>, now: Time,
                        tenant: Option<string>, application: Option<string>)
    requires Kept(c, entries, puts, touches, now)
    ensures Kept(c, Invalidate(entries, tenant, application), Remember(puts, InvalidateEvent(tenant, application)), touches, now)
  {
    var keep := (k: Key) => !Selected(k, tenant, application);
    var puts' := Remember(puts, InvalidateEvent(tenant, application));
    var rest := Invalidate(entries, tenant, application);
    KeepOrderly(c, entries, keep, puts, touches);
    forall k ensures Has(rest, k) <==> Has(entries, k) && keep(k) {
      KeepHas(entries, keep, k);
    }
    forall i | 0 <= i < |rest| ensures rest[i].key in puts' {
      assert Has(rest, rest[i].key);
    }
  }

  // ---- Whole histories ----

  lemma {:induction false} HistoryKept(c: Config, events: seq<Event>, start: Time)
    requires Timely(events, start)
    ensures Kept(c, Run(c, events), LivePuts(events), Touches(c, events), LastTime(events, start))
    decreases |events|
  {
    if events != [] {
      var before := events[..|events| - 1];
      HistoryKept(c, before, start);
      match events[|events| - 1]
      case GetEvent(key, now) =>
        GetKeeps(c, Run(c, before), LivePuts(before), Touches(c, before), LastTime(before, start), key, now);
      case PutEvent(key, value, now) =>
        PutKeeps(c, Run(c, before), LivePuts(before), Touches(c, before), LastTime(before, start), key, value, now);
      case InvalidateEvent(tenant, application) =>
        InvalidateKeeps(c, Run(c, before), LivePuts(before), Touches(c, before), LastTime(before, start), tenant, application);
    }
  }

  /** The cache never exceeds its bound and never holds a key twice. */
  lemma CacheIsBounded(c: Config, events: seq<Event>, start: Time)
    requires Timely(events, start)
    ensures |Run(c, events)| <= c.max && DistinctKeys(Run(c, events))
  {
    HistoryKept(c, events, start);
  }

  /**
  A look-up after any history hits only with the value of the last put of that key, not
  invalidated since and younger than the time to live; and it misses such a put only if
  at least as many distinct other keys as the cache can hold were touched after the
  key's own last touch.
  */
  lemma LookupIsExact(c: Config, events: seq<Event>, start: Time, key: Key, now: Time)
    requires Timely(events, start) && LastTime(events, start) <= now
    ensures var puts := LivePuts(events);
            match Get(Run(c, events), key, now).0
            case Some(value) => key in puts && value == puts[key].value && now < puts[key].at + c.ttl
            case None =>
              key in puts && now < puts[key].at + c.ttl ==> c.max <= |Since(Touches(c, events), key)|
  {
    HistoryKept(c, events, start);
    if Find(Run(c, events), key).Some? {
      FindIsFaithful(c, Run(c, events), LivePuts(events), key);
    }
  }
}
