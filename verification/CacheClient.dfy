/** withCache itself, step by step on a store it shares, and the run of the state machine one call amounts to. */
module CacheClient {
  import opened Options
  import opened CacheModel

  datatype Outcome<V> = Value(value: V) | Threw

  /** What Redis and the fetcher do for one call: whether the read answers, what is fetched, whether the write lands. */
  datatype Luck<V> = Luck(readAnswers: bool, fetched: Option<V>, writeLands: bool)

  class Redis {
    var store: map<string, Entry>
    var now: nat

    /** GET: the text of an entry that has not expired. */
    method Get(redisKey: string) returns (raw: Option<string>)
      ensures raw == if redisKey in store && Alive(store[redisKey], now) then Some(store[redisKey].raw) else None
    {
      raw := if redisKey in store && Alive(store[redisKey], now) then Some(store[redisKey].raw) else None;
    }

    /** SETEX: refused unless the expiry is positive; it may also be lost. */
    method SetEx(redisKey: string, ttl: int, raw: string, lands: bool)
      modifies this`store
      ensures store == if lands && ttl > 0 then old(store)[redisKey := Entry(raw, now, ttl)] else old(store)
    {
      if lands && ttl > 0 {
        store := store[redisKey := Entry(raw, now, ttl)];
      }
    }
  }

  method WithCache<V>(redis: Redis, codec: Codec<V>, prefix: string, key: string, ttlSeconds: Option<int>,
                      disable: Option<bool>, luck: Luck<V>)
    returns (r: Outcome<V>)
    modifies redis`store
    ensures (r, redis.store) == Alone(codec, prefix, old(redis.store), redis.now, key, ttlSeconds, disable, luck)
  {
    var ttl := if ttlSeconds.Some? then ttlSeconds.value else DEFAULT_TTL;
    var disabled := disable == Some(true);
    var prefixedKey := RedisKey(prefix, key);
    if !disabled {
      if !luck.readAnswers {
        return Threw;
      }
      var cached := redis.Get(prefixedKey);
      if cached.Some? && cached.value != "" {
        var parsed := codec.parse(cached.value);
        if parsed.Some? {
          return Value(parsed.value);
        }
      }
    }
    if luck.fetched.None? {
      return Threw;
    }
    var value := luck.fetched.value;
    if !disabled {
      redis.SetEx(prefixedKey, ttl, codec.stringify(value), luck.writeLands);
    }
    return Value(value);
  }

  /** One call with nothing in between: its outcome and the store it leaves. */
  function Alone<V>(codec: Codec<V>, prefix: string, store: map<string, Entry>, now: nat, key: string,
                    ttlSeconds: Option<int>, disable: Option<bool>, luck: Luck<V>): (Outcome<V>, map<string, Entry>)
  {
    var ttl := if ttlSeconds.Some? then ttlSeconds.value else DEFAULT_TTL;
    var disabled := disable == Some(true);
    var k := RedisKey(prefix, key);
    if !disabled && !luck.readAnswers then (Threw, store)
    else if !disabled && Lookup(codec, store, k, now).Some? then (Value(Lookup(codec, store, k, now).value), store)
    else if luck.fetched.None? then (Threw, store)
    else
      (Value(luck.fetched.value),
       if !disabled && luck.writeLands && ttl > 0 then store[k := Entry(codec.stringify(luck.fetched.value), now, ttl)]
       else store)
  }

  /** The call's own steps, in order. */
  function Steps<V>(codec: Codec<V>, prefix: string, m: Machine<V>, id: nat, key: string, ttlSeconds: Option<int>,
                    disable: Option<bool>, luck: Luck<V>): seq<Event<V>>
  {
    [Begin(id, key, ttlSeconds, disable)] +
    if disable == Some(true) then FetchSteps(true, id, luck)
    else ReadSteps(Lookup(codec, m.store, RedisKey(prefix, key), m.now).Some?, id, luck)
  }

  function ReadSteps<V>(cached: bool, id: nat, luck: Luck<V>): seq<Event<V>> {
    if !luck.readAnswers then [GetFails(id)]
    else [Get(id)] + if cached then [] else FetchSteps(false, id, luck)
  }

  function FetchSteps<V>(disabled: bool, id: nat, luck: Luck<V>): seq<Event<V>> {
    if luck.fetched.None? then [FetchThrows(id)]
    else if disabled then [Fetch(id, luck.fetched.value)]
    else [Fetch(id, luck.fetched.value), SetEx(id, luck.writeLands)]
  }

  /** The value a run handed to a call, if it handed it one. */
  function Given<V>(log: seq<Record<V>>, from: nat, id: nat): Outcome<V>
    requires from <= |log|
  {
    if log[from..] != [] && log[|log| - 1].Returned? && log[|log| - 1].id == id then Value(log[|log| - 1].value)
    else Threw
  }

  ghost predicate AmountsTo<V(!new)>(codec: Codec<V>, prefix: string, m: Machine<V>, id: nat, key: string,
                                   ttlSeconds: Option<int>, disable: Option<bool>, luck: Luck<V>)
  {
    var end := Run(codec, prefix, m, Steps(codec, prefix, m, id, key, ttlSeconds, disable, luck));
    && end.Some? && m.log <= end.value.log
    && id in end.value.calls && end.value.calls[id].phase.Finished?
    && (Given(end.value.log, |m.log|, id), end.value.store) ==
       Alone(codec, prefix, m.store, m.now, key, ttlSeconds, disable, luck)
  }

  lemma RunOne<V(!new)>(codec: Codec<V>, prefix: string, m: Machine<V>, e: Event<V>, rest: seq<Event<V>>)
    requires Enabled(codec, m, e)
    ensures Run(codec, prefix, m, [e] + rest) == Run(codec, prefix, Step(codec, prefix, m, e), rest)
  {
    assert ([e] + rest)[1..] == rest;
  }

  /** From the point where the fetcher is called on. */
  lemma FetchingRun<V(!new)>(codec: Codec<V>, prefix: string, m: Machine<V>, id: nat, luck: Luck<V>)
    requires id in m.calls && m.calls[id].phase.Fetching?
    ensures var call := m.calls[id];
            var end := Run(codec, prefix, m, FetchSteps(call.disable, id, luck));
            && end.Some? && m.log <= end.value.log
            && id in end.value.calls && end.value.calls[id].phase.Finished?
            && Given(end.value.log, |m.log|, id) == (if luck.fetched.None? then Threw else Value(luck.fetched.value))
            && end.value.store ==
               (if luck.fetched.Some? && !call.disable && luck.writeLands && call.ttl > 0
                then m.store[RedisKey(prefix, call.key) := Entry(codec.stringify(luck.fetched.value), m.now, call.ttl)]
                else m.store)
  {
    var call := m.calls[id];
    var events := FetchSteps(call.disable, id, luck);
    RunOne(codec, prefix, m, events[0], events[1..]);
    assert events == [events[0]] + events[1..];
    if luck.fetched.Some? && !call.disable {
      var m1 := Step(codec, prefix, m, events[0]);
      RunOne(codec, prefix, m1, events[1], []);
      assert events[1..] == [events[1]] + [];
    } else {
      assert events[1..] == [];
    }
  }

  /** From the point where Redis is asked. */
  lemma ReadingRun<V(!new)>(codec: Codec<V>, prefix: string, m: Machine<V>, id: nat, luck: Luck<V>)
    requires id in m.calls && m.calls[id].phase.Reading? && !m.calls[id].disable
    ensures var call := m.calls[id];
            var found := Lookup(codec, m.store, RedisKey(prefix, call.key), m.now);
            var end := Run(codec, prefix, m, ReadSteps(found.Some?, id, luck));
            && end.Some? && m.log <= end.value.log
            && id in end.value.calls && end.value.calls[id].phase.Finished?
            && Given(end.value.log, |m.log|, id) ==
               (if !luck.readAnswers then Threw
                else if found.Some? then Value(found.value)
                else if luck.fetched.None? then Threw
                else Value(luck.fetched.value))
            && end.value.store ==
               (if luck.readAnswers && found.None? && luck.fetched.Some? && luck.writeLands && call.ttl > 0
                then m.store[RedisKey(prefix, call.key) := Entry(codec.stringify(luck.fetched.value), m.now, call.ttl)]
                else m.store)
  {
    if !luck.readAnswers {
      RunOne(codec, prefix, m, GetFails(id), []);
      assert [GetFails(id)] + [] == ReadSteps(true, id, luck) == ReadSteps(false, id, luck);
    } else {
      var found := Lookup(codec, m.store, RedisKey(prefix, m.calls[id].key), m.now);
      RunOne(codec, prefix, m, Get(id), if found.Some? then [] else FetchSteps(false, id, luck));
      if found.None? {
        FetchingRun(codec, prefix, Step(codec, prefix, m, Get(id)), id, luck);
      }
    }
  }

  /** The method is the state machine's run of one call that nothing interrupts. */
  lemma AloneIsARun<V(!new)>(codec: Codec<V>, prefix: string, m: Machine<V>, id: nat, key: string,
                             ttlSeconds: Option<int>, disable: Option<bool>, luck: Luck<V>)
    requires id !in m.calls
    ensures AmountsTo(codec, prefix, m, id, key, ttlSeconds, disable, luck)
  {
    var begin: Event<V> := Begin(id, key, ttlSeconds, disable);
    var m1 := Step(codec, prefix, m, begin);
    var steps := Steps(codec, prefix, m, id, key, ttlSeconds, disable, luck);
    RunOne(codec, prefix, m, begin, steps[1..]);
    assert steps == [begin] + steps[1..];
    if disable == Some(true) {
      FetchingRun(codec, prefix, m1, id, luck);
      assert steps[1..] == FetchSteps(true, id, luck);
    } else {
      ReadingRun(codec, prefix, m1, id, luck);
      assert steps[1..] == ReadSteps(Lookup(codec, m.store, RedisKey(prefix, key), m.now).Some?, id, luck);
    }
  }

  /**
   A value fetched and written is what every later call gets until its time to live is over, two minutes when the
   writer named none, whatever its own fetcher would give; from then on, and when disabled, it fetches.
   */
  lemma CachedFor<V(!new)>(
      codec: Codec<V>, prefix: string, store: map<string, Entry>, now: nat, key: string, asked: Option<int>, value: V,
      later: nat, askedLater: Option<int>, luck: Luck<V>)
    requires Faithful(codec) && codec.stringify(value) != "" && prefix + key !in store && now <= later
    ensures var ttl := match asked case Some(t) => t case None => 120;
            var fetched := if luck.fetched.Some? then Value(luck.fetched.value) else Threw;
            var (first, written) := Alone(codec, prefix, store, now, key, asked, None, Luck(true, Some(value), true));
            && first == Value(value)
            && Alone(codec, prefix, written, later, key, askedLater, None, luck).0 ==
               (if !luck.readAnswers then Threw else if later < now + ttl then Value(value) else fetched)
            && Alone(codec, prefix, written, later, key, askedLater, Some(true), luck) == (fetched, written)
  {
  }
}
