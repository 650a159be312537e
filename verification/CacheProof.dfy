/** What every interleaving of withCache calls guarantees: bounded staleness, and no traffic when disabled. */
module CacheProof {
  import opened Options
  import opened CacheModel

  /** Some record before the n-th is this call's fetch of this value for this key. */
  ghost predicate WasFetched<V(!new)>(log: seq<Record<V>>, n: nat, id: nat, key: string, value: V, at: nat) {
    exists i :: 0 <= i < n && i < |log| && log[i].Fetched? && log[i].id == id && log[i].key == key &&
                log[i].value == value && log[i].at <= at
  }

  /** Some record before the n-th stored this value for this key and still had time to live at this moment. */
  ghost predicate WasFresh<V(!new)>(log: seq<Record<V>>, n: nat, key: string, value: V, at: nat) {
    exists j :: 0 <= j < n && j < |log| && IsFresh(log[j], key, value, at)
  }

  ghost predicate IsFresh<V>(r: Record<V>, key: string, value: V, at: nat) {
    r.Stored? && r.key == key && r.value == value && r.at <= at < r.at + r.ttl
  }

  /** What came before a record accounts for it. */
  ghost predicate Justified<V(!new)>(log: seq<Record<V>>, n: nat)
    requires n < |log|
  {
    match log[n]
    case Fetched(_, _, _, _) => true
    case Stored(id, key, value, at, _) => WasFetched(log, n, id, key, value, at)
    case Returned(id, key, value, at, hit) =>
      if hit then WasFresh(log, n, key, value, at) else WasFetched(log, n, id, key, value, at)
  }

  ghost predicate LogOk<V(!new)>(log: seq<Record<V>>) {
    forall n {:trigger Justified(log, n)} :: 0 <= n < |log| ==> Justified(log, n)
  }

  /** An entry is text that is no JSON, or what some logged write left there. */
  ghost predicate EntryOk<V(!new)>(codec: Codec<V>, prefix: string, log: seq<Record<V>>, redisKey: string,
          entry: Entry)
  {
    || Junk(codec, entry.raw)
    || exists j :: 0 <= j < |log| && Wrote(codec, prefix, log[j], redisKey, entry)
  }

  ghost predicate Wrote<V>(codec: Codec<V>, prefix: string, r: Record<V>, redisKey: string, entry: Entry) {
    && r.Stored? && RedisKey(prefix, r.key) == redisKey
    && entry == Entry(codec.stringify(r.value), r.at, r.ttl)
  }

  ghost predicate CallOk<V(!new)>(m: Machine<V>, id: nat)
    requires id in m.calls
  {
    var call := m.calls[id];
    && (call.phase.Storing? ==> WasFetched(m.log, |m.log|, id, call.key, call.phase.value, m.now) && !call.disable)
    && (call.disable ==> !call.phase.Reading?)
  }

  ghost predicate Inv<V(!new)>(codec: Codec<V>, prefix: string, m: Machine<V>) {
    && LogOk(m.log)
    && (forall k {:trigger m.store[k]} :: k in m.store ==>
          EntryOk(codec, prefix, m.log, k, m.store[k]) && m.store[k].storedAt <= m.now)
    && (forall id {:trigger CallOk(m, id)} :: id in m.calls ==> CallOk(m, id))
  }

  lemma FetchedStays<V(!new)>(log: seq<Record<V>>, longer: seq<Record<V>>, n: nat, id: nat, key: string, value: V,
          at: nat)
    requires log <= longer && n <= |log| && WasFetched(log, n, id, key, value, at)
    ensures forall m, later :: n <= m && at <= later ==> WasFetched(longer, m, id, key, value, later)
  {
    var i :| 0 <= i < n && i < |log| && log[i].Fetched? && log[i].id == id && log[i].key == key &&
             log[i].value == value && log[i].at <= at;
    assert longer[i] == log[i];
  }

  lemma FreshStays<V(!new)>(log: seq<Record<V>>, longer: seq<Record<V>>, n: nat, key: string, value: V, at: nat)
    requires log <= longer && n <= |log| && WasFresh(log, n, key, value, at)
    ensures WasFresh(longer, n, key, value, at)
  {
    var j :| 0 <= j < n && j < |log| && IsFresh(log[j], key, value, at);
    assert longer[j] == log[j];
  }

  /** Adding a record that is accounted for keeps the log in order. */
  lemma LogAppend<V(!new)>(log: seq<Record<V>>, r: Record<V>)
    requires LogOk(log) && Justified(log + [r], |log|)
    ensures LogOk(log + [r])
  {
    var longer := log + [r];
    forall n | 0 <= n < |longer|
      ensures Justified(longer, n)
    {
      if n < |log| {
        assert Justified(log, n) && longer[n] == log[n];
        match log[n]
        case Stored(id, key, value, at, _) => FetchedStays(log, longer, n, id, key, value, at);
        case Returned(id, key, value, at, hit) =>
          if hit {
            FreshStays(log, longer, n, key, value, at);
          } else {
            FetchedStays(log, longer, n, id, key, value, at);
          }
        case _ =>
      }
    }
  }

  lemma EntryStays<V(!new)>(codec: Codec<V>, prefix: string, log: seq<Record<V>>, longer: seq<Record<V>>, k: string,
          e: Entry)
    requires log <= longer && EntryOk(codec, prefix, log, k, e)
    ensures EntryOk(codec, prefix, longer, k, e)
  {
    if j :| 0 <= j < |log| && Wrote(codec, prefix, log[j], k, e) {
      assert longer[j] == log[j];
    }
  }

  /** The log grows by one record that is accounted for, and one call moves on to a phase it may be in. */
  lemma GrowInv<V(!new)>(codec: Codec<V>, prefix: string, m: Machine<V>, r: Record<V>, id: nat, after: Machine<V>)
    requires Inv(codec, prefix, m) && Justified(m.log + [r], |m.log|)
    requires id in m.calls && after.log == m.log + [r] && after.now == m.now && after.store == m.store
    requires id in after.calls && after.calls == m.calls[id := after.calls[id]] && CallOk(after, id)
    ensures Inv(codec, prefix, after)
  {
    LogAppend(m.log, r);
    forall k | k in after.store
      ensures EntryOk(codec, prefix, after.log, k, after.store[k]) && after.store[k].storedAt <= after.now
    {
      EntryStays(codec, prefix, m.log, after.log, k, m.store[k]);
    }
    forall other | other in after.calls
      ensures CallOk(after, other)
    {
      if other != id {
        CallStays(m, after, other);
      }
    }
  }

  lemma CallStays<V(!new)>(m: Machine<V>, after: Machine<V>, id: nat)
    requires id in m.calls && id in after.calls && after.calls[id] == m.calls[id] && CallOk(m, id)
    requires m.log <= after.log && m.now <= after.now
    ensures CallOk(after, id)
  {
    var call := m.calls[id];
    if call.phase.Storing? {
      FetchedStays(m.log, after.log, |m.log|, id, call.key, call.phase.value, m.now);
    }
  }

  /** A read that hits finds a value some call fetched and stored, not yet as old as that call's time to live. */
  lemma HitIsFresh<V(!new)>(codec: Codec<V>, prefix: string, m: Machine<V>, key: string)
    requires Faithful(codec) && Inv(codec, prefix, m)
    requires Lookup(codec, m.store, RedisKey(prefix, key), m.now).Some?
    ensures WasFresh(m.log, |m.log|, key, Lookup(codec, m.store, RedisKey(prefix, key), m.now).value, m.now)
  {
    var k := RedisKey(prefix, key);
    var e := m.store[k];
    assert !Junk(codec, e.raw);
    var j :| 0 <= j < |m.log| && Wrote(codec, prefix, m.log[j], k, e);
    RedisKeyInjective(prefix, m.log[j].key, key);
    assert IsFresh(m.log[j], key, m.log[j].value, m.now);
  }

  lemma GetInv<V(!new)>(codec: Codec<V>, prefix: string, m: Machine<V>, id: nat)
    requires Faithful(codec) && Inv(codec, prefix, m) && Enabled(codec, m, Get(id))
    ensures Inv(codec, prefix, OnGet(codec, prefix, m, id))
  {
    var key := m.calls[id].key;
    match Lookup(codec, m.store, RedisKey(prefix, key), m.now)
    case None => MoveInv(codec, prefix, m, id, Fetching);
    case Some(value) =>
      HitIsFresh(codec, prefix, m, key);
      ReturnInv(codec, prefix, m, id, value, true);
  }

  lemma ReturnInv<V(!new)>(codec: Codec<V>, prefix: string, m: Machine<V>, id: nat, value: V, hit: bool)
    requires Inv(codec, prefix, m) && id in m.calls
    requires if hit then WasFresh(m.log, |m.log|, m.calls[id].key, value, m.now)
             else WasFetched(m.log, |m.log|, id, m.calls[id].key, value, m.now)
    ensures Inv(codec, prefix, Return(m, id, value, hit))
  {
    var r := Returned(id, m.calls[id].key, value, m.now, hit);
    if hit {
      FreshStays(m.log, m.log + [r], |m.log|, m.calls[id].key, value, m.now);
    } else {
      FetchedStays(m.log, m.log + [r], |m.log|, id, m.calls[id].key, value, m.now);
    }
    assert Justified(m.log + [r], |m.log|);
    GrowInv(codec, prefix, m, r, id, Return(m, id, value, hit));
  }

  lemma MoveInv<V(!new)>(codec: Codec<V>, prefix: string, m: Machine<V>, id: nat, phase: Phase<V>)
    requires Inv(codec, prefix, m) && id in m.calls && (phase.Fetching? || phase.Finished?)
    ensures Inv(codec, prefix, Move(m, id, phase))
  {
    var after := Move(m, id, phase);
    forall other | other in after.calls
      ensures CallOk(after, other)
    {
      if other != id {
        CallStays(m, after, other);
      }
    }
  }

  lemma FetchInv<V(!new)>(codec: Codec<V>, prefix: string, m: Machine<V>, id: nat, value: V)
    requires Inv(codec, prefix, m) && Enabled(codec, m, Fetch(id, value))
    ensures Inv(codec, prefix, OnFetch(m, id, value))
  {
    var call := m.calls[id];
    var r := Fetched(id, call.key, value, m.now);
    var m1 := m.(log := m.log + [r]);
    assert m1.log[|m.log|] == r;
    assert WasFetched(m1.log, |m1.log|, id, call.key, value, m.now);
    if call.disable {
      GrowInv(codec, prefix, m, r, id, m1);
      ReturnInv(codec, prefix, m1, id, value, false);
    } else {
      GrowInv(codec, prefix, m, r, id, Move(m1, id, Storing(value)));
    }
  }

  lemma SetExInv<V(!new)>(codec: Codec<V>, prefix: string, m: Machine<V>, id: nat, effect: bool)
    requires Inv(codec, prefix, m) && Enabled(codec, m, SetEx(id, effect))
    ensures Inv(codec, prefix, OnSetEx(codec, prefix, m, id, effect))
  {
    var call := m.calls[id];
    var value := call.phase.value;
    assert CallOk(m, id);
    if effect && call.ttl > 0 {
      var r := Stored(id, call.key, value, m.now, call.ttl);
      var m1 := m.(log := m.log + [r]);
      FetchedStays(m.log, m1.log, |m.log|, id, call.key, value, m.now);
      CallStays(m, m1, id);
      GrowInv(codec, prefix, m, r, id, m1);
      var k := RedisKey(prefix, call.key);
      var entry := Entry(codec.stringify(value), m.now, call.ttl);
      assert Wrote(codec, prefix, m1.log[|m.log|], k, entry);
      WriteInv(codec, prefix, m1, k, entry);
      var m2 := m1.(store := m1.store[k := entry]);
      ReturnInv(codec, prefix, m2, id, value, false);
    } else {
      ReturnInv(codec, prefix, m, id, value, false);
    }
  }

  lemma WriteInv<V(!new)>(codec: Codec<V>, prefix: string, m: Machine<V>, k: string, entry: Entry)
    requires Inv(codec, prefix, m) && EntryOk(codec, prefix, m.log, k, entry) && entry.storedAt <= m.now
    ensures Inv(codec, prefix, m.(store := m.store[k := entry]))
  {
    SameCalls(m, m.(store := m.store[k := entry]));
  }

  lemma SameCalls<V(!new)>(m: Machine<V>, after: Machine<V>)
    requires forall id {:trigger CallOk(m, id)} :: id in m.calls ==> CallOk(m, id)
    requires after.calls == m.calls && m.log <= after.log && m.now <= after.now
    ensures forall id {:trigger CallOk(after, id)} :: id in after.calls ==> CallOk(after, id)
  {
    forall id | id in after.calls
      ensures CallOk(after, id)
    {
      assert CallOk(m, id);
      CallStays(m, after, id);
    }
  }

  lemma StepInv<V(!new)>(codec: Codec<V>, prefix: string, m: Machine<V>, e: Event<V>)
    requires Faithful(codec) && Inv(codec, prefix, m) && Enabled(codec, m, e)
    ensures Inv(codec, prefix, Step(codec, prefix, m, e))
  {
    var after := Step(codec, prefix, m, e);
    match e
    case Get(id) => GetInv(codec, prefix, m, id);
    case GetFails(id) => MoveInv(codec, prefix, m, id, Finished);
    case Fetch(id, value) => FetchInv(codec, prefix, m, id, value);
    case FetchThrows(id) => MoveInv(codec, prefix, m, id, Finished);
    case SetEx(id, effect) => SetExInv(codec, prefix, m, id, effect);
    case ForeignWrite(k, raw, ttl) => WriteInv(codec, prefix, m, k, Entry(raw, m.now, ttl));
    case Begin(id, _, _, _) =>
      forall other | other in after.calls
        ensures CallOk(after, other)
      {
        if other != id {
          assert CallOk(m, other);
          CallStays(m, after, other);
        }
      }
    case _ => SameCalls(m, after);
  }

  lemma {:induction false} RunInv<V(!new)>(codec: Codec<V>, prefix: string, m: Machine<V>, events: seq<Event<V>>,
          end: Machine<V>)
    requires Faithful(codec) && Inv(codec, prefix, m) && Reaches(codec, prefix, m, events, end)
    ensures Inv(codec, prefix, end)
    decreases events
  {
    if events != [] {
      StepInv(codec, prefix, m, events[0]);
      RunInv(codec, prefix, Step(codec, prefix, m, events[0]), events[1..], end);
    }
  }

  /**
   Bounded staleness: in every interleaving, a value returned from the cache at time t is one that a call
   for the same key fetched and then stored, less than that call's own time to live before t; any other
   value returned is the caller's own fetch.
   */
  lemma BoundedStaleness<V(!new)>(codec: Codec<V>, prefix: string, start: Machine<V>, events: seq<Event<V>>,
                                  end: Machine<V>, n: nat)
    returns (fetch: nat, write: nat)
    requires Faithful(codec) && Initial(codec, start)
    requires Reaches(codec, prefix, start, events, end)
    requires n < |end.log| && end.log[n].Returned?
    ensures fetch < |end.log| && end.log[fetch].Fetched?
    ensures end.log[fetch].key == end.log[n].key && end.log[fetch].value == end.log[n].value
    ensures end.log[n].hit ==>
              fetch < write < n && end.log[write].Stored? && end.log[write].id == end.log[fetch].id &&
              end.log[write].key == end.log[n].key && end.log[write].value == end.log[n].value &&
              end.log[fetch].at <= end.log[write].at <= end.log[n].at < end.log[write].at + end.log[write].ttl
    ensures !end.log[n].hit ==> fetch < n && end.log[fetch].id == end.log[n].id
  {
    RunInv(codec, prefix, start, events, end);
    var log := end.log;
    assert Justified(log, n);
    var r := log[n];
    write := 0;
    if r.hit {
      write :| 0 <= write < n && write < |log| && IsFresh(log[write], r.key, r.value, r.at);
      assert Justified(log, write);
      fetch := TheFetch(log, write, log[write].id, r.key, r.value, log[write].at);
    } else {
      fetch := TheFetch(log, n, r.id, r.key, r.value, r.at);
    }
  }

  lemma TheFetch<V(!new)>(log: seq<Record<V>>, n: nat, id: nat, key: string, value: V, at: nat) returns (i: nat)
    requires WasFetched(log, n, id, key, value, at)
    ensures i < n && i < |log| && log[i].Fetched? && log[i].id == id && log[i].key == key && log[i].value == value
    ensures log[i].at <= at
  {
    i :| 0 <= i < n && i < |log| && log[i].Fetched? && log[i].id == id && log[i].key == key &&
         log[i].value == value && log[i].at <= at;
  }

  /******* What a bound on the writers is worth to a reader *******/

  /** No write on the key that took effect gave it longer than this to live. */
  ghost predicate WritesWithin<V(!new)>(log: seq<Record<V>>, key: string, ttl: nat) {
    forall j :: 0 <= j < |log| && log[j].Stored? && log[j].key == key ==> log[j].ttl <= ttl
  }

  /** Every hit on the key returned a value stored less than this long before. */
  ghost predicate HitsWithin<V(!new)>(log: seq<Record<V>>, key: string, age: nat) {
    forall n :: 0 <= n < |log| && log[n].Returned? && log[n].key == key && log[n].hit ==>
      StoredWithin(log, n, key, log[n].value, log[n].at, age)
  }

  ghost predicate StoredWithin<V(!new)>(log: seq<Record<V>>, n: nat, key: string, value: V, at: nat, age: nat) {
    exists j :: 0 <= j < n && j < |log| && log[j].Stored? && log[j].key == key && log[j].value == value &&
                log[j].at <= at < log[j].at + age
  }

  /** In all runs whose writes on the key live no longer than one bound, hits on it are younger than the other. */
  ghost predicate BoundCarriesOver<V(!new)>(codec: Codec<V>, prefix: string, key: string, writers: nat, reader: nat) {
    forall start, events, end ::
      Initial(codec, start) && Reaches(codec, prefix, start, events, end) && WritesWithin(end.log, key, writers) ==>
        HitsWithin(end.log, key, reader)
  }

  lemma HitsAreWithin<V(!new)>(
      codec: Codec<V>, prefix: string, start: Machine<V>, events: seq<Event<V>>, end: Machine<V>, key: string,
      writers: nat)
    requires Faithful(codec) && Initial(codec, start) && Reaches(codec, prefix, start, events, end)
    requires WritesWithin(end.log, key, writers)
    ensures HitsWithin(end.log, key, writers)
  {
    forall n | 0 <= n < |end.log| && end.log[n].Returned? && end.log[n].key == key && end.log[n].hit
      ensures StoredWithin(end.log, n, key, end.log[n].value, end.log[n].at, writers)
    {
      var fetch, write := BoundedStaleness(codec, prefix, start, events, end, n);
      assert end.log[write].ttl <= writers;
    }
  }

  lemma WithinMore<V(!new)>(log: seq<Record<V>>, key: string, age: nat, more: nat)
    requires HitsWithin(log, key, age) && age <= more
    ensures HitsWithin(log, key, more)
  {
    forall n | 0 <= n < |log| && log[n].Returned? && log[n].key == key && log[n].hit
      ensures StoredWithin(log, n, key, log[n].value, log[n].at, more)
    {
      assert StoredWithin(log, n, key, log[n].value, log[n].at, age);
      var j :| 0 <= j < n && j < |log| && log[j].Stored? && log[j].key == key && log[j].value == log[n].value &&
               log[j].at <= log[n].at < log[j].at + age;
    }
  }

  /** A write that lives longer than the reader's bound, and a hit on it when that bound has just passed. */
  lemma LateHit<V(!new)>(codec: Codec<V>, prefix: string, key: string, value: V, writers: nat, reader: nat)
    returns (start: Machine<V>, events: seq<Event<V>>, end: Machine<V>)
    requires Faithful(codec) && codec.stringify(value) != "" && reader < writers
    ensures Initial(codec, start) && Reaches(codec, prefix, start, events, end)
    ensures end.log == [Fetched(0, key, value, 0), Stored(0, key, value, 0, writers), Returned(0, key, value, 0, false),
                        Returned(1, key, value, reader, true)]
  {
    start := Machine(map[], 0, map[], []);
    var fill, mid := FillRun(codec, prefix, key, value, writers, start);
    var read: seq<Event<V>>;
    read, end := HitRun(codec, prefix, key, value, writers, reader, mid);
    ReachesThen(codec, prefix, start, fill, mid, read, end);
    events := fill + read;
  }

  /**
   The bound is the writers' time to live, not the reader's: hits on a key are always younger than the reader's
   bound just when no write on it may live longer than that.
   */
  lemma ReaderBoundWhen<V(!new)>(
      codec: Codec<V>, prefix: string, key: string, value: V, writers: nat, reader: nat)
    requires Faithful(codec) && codec.stringify(value) != ""
    ensures BoundCarriesOver(codec, prefix, key, writers, reader) <==> writers <= reader
  {
    if writers <= reader {
      forall start, events, end | Initial(codec, start) && Reaches(codec, prefix, start, events, end) &&
                                  WritesWithin(end.log, key, writers)
        ensures HitsWithin(end.log, key, reader)
      {
        HitsAreWithin(codec, prefix, start, events, end, key, writers);
        WithinMore(end.log, key, writers, reader);
      }
    } else {
      var start, events, end := LateHit(codec, prefix, key, value, writers, reader);
      assert WritesWithin(end.log, key, writers);
      assert end.log[3].Returned? && !StoredWithin(end.log, 3, key, value, reader, reader);
    }
  }

  lemma FillRun<V(!new)>(codec: Codec<V>, prefix: string, key: string, value: V, ttl: nat, start: Machine<V>)
    returns (events: seq<Event<V>>, end: Machine<V>)
    requires start == Machine(map[], 0, map[], []) && ttl > 0
    ensures Reaches(codec, prefix, start, events, end)
    ensures end.store == map[RedisKey(prefix, key) := Entry(codec.stringify(value), 0, ttl)]
    ensures end.now == 0 && end.calls.Keys == {0}
    ensures end.log == [Fetched(0, key, value, 0), Stored(0, key, value, 0, ttl), Returned(0, key, value, 0, false)]
  {
    var begins: Event<V> := Begin(0, key, Some(ttl), None);
    var m1 := Step(codec, prefix, start, begins);
    var m2 := Step(codec, prefix, m1, Get(0));
    var m3 := Step(codec, prefix, m2, Fetch(0, value));
    end := Step(codec, prefix, m3, SetEx(0, true));
    ReachesMore(codec, prefix, m3, SetEx(0, true), [], end);
    events := [SetEx(0, true)] + [];
    ReachesMore(codec, prefix, m2, Fetch(0, value), events, end);
    events := [Fetch(0, value)] + events;
    ReachesMore(codec, prefix, m1, Get(0), events, end);
    events := [Get(0)] + events;
    ReachesMore(codec, prefix, start, begins, events, end);
    events := [begins] + events;
  }

  lemma HitRun<V(!new)>(
      codec: Codec<V>, prefix: string, key: string, value: V, ttl: nat, wait: nat, mid: Machine<V>)
    returns (events: seq<Event<V>>, end: Machine<V>)
    requires Faithful(codec) && codec.stringify(value) != "" && mid.now == 0 && mid.calls.Keys == {0} && wait < ttl
    requires mid.store == map[RedisKey(prefix, key) := Entry(codec.stringify(value), 0, ttl)]
    ensures Reaches(codec, prefix, mid, events, end)
    ensures end.log == mid.log + [Returned(1, key, value, wait, true)]
  {
    var begin: Event<V> := Begin(1, key, None, None);
    var waited := Step(codec, prefix, mid, Tick(wait));
    var begun := Step(codec, prefix, waited, begin);
    end := Step(codec, prefix, begun, Get(1));
    ReachesMore(codec, prefix, begun, Get(1), [], end);
    events := [Get(1)] + [];
    ReachesMore(codec, prefix, waited, begin, events, end);
    events := [begin] + events;
    ReachesMore(codec, prefix, mid, Tick(wait), events, end);
    events := [Tick(wait)] + events;
  }

  lemma {:induction false} ReachesThen<V(!new)>(codec: Codec<V>, prefix: string, m: Machine<V>, first: seq<Event<V>>,
                                                mid: Machine<V>, second: seq<Event<V>>, end: Machine<V>)
    requires Reaches(codec, prefix, m, first, mid) && Reaches(codec, prefix, mid, second, end)
    ensures Reaches(codec, prefix, m, first + second, end)
    decreases first
  {
    if first == [] {
      assert first + second == second;
    } else {
      ReachesThen(codec, prefix, Step(codec, prefix, m, first[0]), first[1..], mid, second, end);
      assert (first + second)[1..] == first[1..] + second;
    }
  }

  lemma ReachesMore<V(!new)>(codec: Codec<V>, prefix: string, m: Machine<V>, e: Event<V>, events: seq<Event<V>>,
          end: Machine<V>)
    requires Enabled(codec, m, e) && Reaches(codec, prefix, Step(codec, prefix, m, e), events, end)
    ensures Reaches(codec, prefix, m, [e] + events, end)
    ensures [e] + [] == [e]
  {
    assert ([e] + events)[1..] == events;
  }

  /******* What a write lives for *******/

  /** A call that is not disabled was begun for this key, and asked for this time to live or for none. */
  ghost predicate Asked<V(!new)>(events: seq<Event<V>>, id: nat, key: string, ttl: int) {
    exists i :: 0 <= i < |events| && Asks(events[i], id, key, ttl)
  }

  predicate Asks<V>(e: Event<V>, id: nat, key: string, ttl: int) {
    && e.Begin? && e.id == id && e.key == key && e.disable != Some(true)
    && (e.ttl == Some(ttl) || (e.ttl.None? && ttl == 120))
  }

  ghost predicate CallsAsAsked<V(!new)>(calls: map<nat, Call<V>>, events: seq<Event<V>>) {
    forall id :: id in calls ==>
      if calls[id].disable then !calls[id].phase.Storing? else Asked(events, id, calls[id].key, calls[id].ttl)
  }

  ghost predicate WritesAsAsked<V(!new)>(log: seq<Record<V>>, events: seq<Event<V>>) {
    forall r :: r in log && r.Stored? ==> Asked(events, r.id, r.key, r.ttl)
  }

  lemma AskedStays<V(!new)>(events: seq<Event<V>>, e: Event<V>)
    ensures forall id, key, ttl :: Asked(events, id, key, ttl) ==> Asked(events + [e], id, key, ttl)
  {
    var longer := events + [e];
    forall id, key, ttl | Asked(events, id, key, ttl)
      ensures Asked(longer, id, key, ttl)
    {
      var i :| 0 <= i < |events| && Asks(events[i], id, key, ttl);
      assert longer[i] == events[i];
    }
  }

  lemma CallsStayAsAsked<V(!new)>(codec: Codec<V>, prefix: string, m: Machine<V>, e: Event<V>, before: seq<Event<V>>)
    requires Enabled(codec, m, e) && CallsAsAsked(m.calls, before)
    ensures CallsAsAsked(Step(codec, prefix, m, e).calls, before + [e])
  {
    AskedStays(before, e);
    assert (before + [e])[|before|] == e;
    var after := Step(codec, prefix, m, e);
    if e.Begin? && e.disable != Some(true) {
      assert Asks(e, e.id, e.key, after.calls[e.id].ttl);
    }
  }

  /** Only the write of a call that is not disabled adds a stored record, with the call's own time to live. */
  lemma WritesStayAsAsked<V(!new)>(codec: Codec<V>, prefix: string, m: Machine<V>, e: Event<V>, before: seq<Event<V>>)
    requires Enabled(codec, m, e) && CallsAsAsked(m.calls, before) && WritesAsAsked(m.log, before)
    ensures WritesAsAsked(Step(codec, prefix, m, e).log, before + [e])
  {
    AskedStays(before, e);
    var after := Step(codec, prefix, m, e);
    forall r | r in after.log && r.Stored?
      ensures Asked(before + [e], r.id, r.key, r.ttl)
    {
      if r !in m.log {
        assert e.SetEx? && r.id == e.id && r.key == m.calls[e.id].key && r.ttl == m.calls[e.id].ttl;
      }
    }
  }

  lemma {:induction false} RunAsAsked<V(!new)>(
      codec: Codec<V>, prefix: string, m: Machine<V>, before: seq<Event<V>>, events: seq<Event<V>>, end: Machine<V>)
    requires CallsAsAsked(m.calls, before) && WritesAsAsked(m.log, before)
    requires Reaches(codec, prefix, m, events, end)
    ensures WritesAsAsked(end.log, before + events)
    decreases events
  {
    if events == [] {
      assert before + events == before;
    } else {
      CallsStayAsAsked(codec, prefix, m, events[0], before);
      WritesStayAsAsked(codec, prefix, m, events[0], before);
      RunAsAsked(codec, prefix, Step(codec, prefix, m, events[0]), before + [events[0]], events[1..], end);
      assert before + [events[0]] + events[1..] == before + events;
    }
  }

  /**
   Every write of every run was made for a call begun for that key and not disabled, and lives for as long as that
   call asked: two minutes when it asked for nothing.
   */
  lemma WritesLiveAsAsked<V(!new)>(
      codec: Codec<V>, prefix: string, start: Machine<V>, events: seq<Event<V>>, end: Machine<V>)
    requires Initial(codec, start) && Reaches(codec, prefix, start, events, end)
    ensures forall r :: r in end.log && r.Stored? ==> Asked(events, r.id, r.key, r.ttl)
  {
    RunAsAsked(codec, prefix, start, [], events, end);
    assert [] + events == events;
  }

  /******* Disabled calls *******/

  predicate OfCall<V>(e: Event<V>, id: nat) {
    match e
    case Begin(other, _, _, _) => other == id
    case Get(other) => other == id
    case GetFails(other) => other == id
    case Fetch(other, _) => other == id
    case FetchThrows(other) => other == id
    case SetEx(other, _) => other == id
    case _ => false
  }

  /** No step of a disabled call reads the store or changes it: with any other store it would do the same. */
  lemma DisabledLeavesTheStore<V(!new)>(codec: Codec<V>, prefix: string, start: Machine<V>, events: seq<Event<V>>,
                                        m: Machine<V>, e: Event<V>, id: nat, other: map<string, Entry>)
    requires Faithful(codec) && Initial(codec, start)
    requires Reaches(codec, prefix, start, events, m) && Enabled(codec, m, e) && OfCall(e, id)
    requires id in Step(codec, prefix, m, e).calls && Step(codec, prefix, m, e).calls[id].disable
    ensures Step(codec, prefix, m, e).store == m.store
    ensures Enabled(codec, m.(store := other), e)
    ensures Step(codec, prefix, m.(store := other), e) == Step(codec, prefix, m, e).(store := other)
  {
    RunInv(codec, prefix, start, events, m);
    if id in m.calls {
      assert CallOk(m, id);
    }
  }

  /******* Entries that cannot be read *******/

  /** What a read can make out of the store: entries that are neither expired nor empty nor unparsable. */
  function Readable<V>(codec: Codec<V>, m: Machine<V>, redisKey: string): Option<Entry> {
    if redisKey in m.store && Alive(m.store[redisKey], m.now) && !Junk(codec, m.store[redisKey].raw)
    then Some(m.store[redisKey])
    else None
  }

  /** Alike but for entries that cannot be read. */
  ghost predicate Alike<V(!new)>(codec: Codec<V>, a: Machine<V>, b: Machine<V>) {
    && a.now == b.now && a.calls == b.calls && a.log == b.log
    && forall k :: Readable(codec, a, k) == Readable(codec, b, k)
  }

  lemma LookupReads<V(!new)>(codec: Codec<V>, m: Machine<V>, redisKey: string)
    ensures Lookup(codec, m.store, redisKey, m.now) ==
            match Readable(codec, m, redisKey) case Some(entry) => codec.parse(entry.raw) case None => None
  {
  }

  lemma StepAlike<V(!new)>(codec: Codec<V>, prefix: string, a: Machine<V>, b: Machine<V>, e: Event<V>)
    requires Alike(codec, a, b) && Enabled(codec, a, e)
    ensures Enabled(codec, b, e) && Alike(codec, Step(codec, prefix, a, e), Step(codec, prefix, b, e))
  {
    var c, d := Step(codec, prefix, a, e), Step(codec, prefix, b, e);
    if e.Get? {
      var k := RedisKey(prefix, a.calls[e.id].key);
      LookupReads(codec, a, k);
      LookupReads(codec, b, k);
      assert Readable(codec, a, k) == Readable(codec, b, k);
    }
    forall k
      ensures Readable(codec, c, k) == Readable(codec, d, k)
    {
      assert Readable(codec, a, k) == Readable(codec, b, k);
    }
  }

  /**
   An entry that is expired, empty or unparsable might as well not be there: from machines alike but for such
   entries, every interleaving gives the same fetches, the same writes and the same returned values.
   */
  lemma {:induction false} UnreadableNeverMatters<V(!new)>(
      codec: Codec<V>, prefix: string, a: Machine<V>, b: Machine<V>, events: seq<Event<V>>, end: Machine<V>)
    returns (other: Machine<V>)
    requires Alike(codec, a, b) && Reaches(codec, prefix, a, events, end)
    ensures Reaches(codec, prefix, b, events, other) && Alike(codec, end, other)
    decreases events
  {
    if events == [] {
      other := b;
    } else {
      StepAlike(codec, prefix, a, b, events[0]);
      other := UnreadableNeverMatters(codec, prefix, Step(codec, prefix, a, events[0]),
                                      Step(codec, prefix, b, events[0]), events[1..], end);
    }
  }
}
