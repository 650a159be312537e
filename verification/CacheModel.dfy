/**
 Calls of withCache that share one Redis store, in any interleaving. A call is a little machine that
 reads, fetches, stores and returns; each of those is one step of the whole, and other steps let time
 pass, let Redis drop an entry, or let someone else leave text that is no JSON under a key.
 */
module CacheModel {
  import opened Options

  const DEFAULT_TTL := 120

  /** JSON.stringify and JSON.parse; parsing may throw. */
  datatype Codec<!V> = Codec(stringify: V -> string, parse: string -> Option<V>)

  ghost predicate Faithful<V(!new)>(codec: Codec<V>) {
    forall v :: codec.parse(codec.stringify(v)) == Some(v)
  }

  datatype Entry = Entry(raw: string, storedAt: nat, ttl: nat)

  datatype Phase<V> = Reading | Fetching | Storing(value: V) | Finished

  datatype Call<V> = Call(key: string, ttl: int, disable: bool, phase: Phase<V>)

  /** What happened, in order: a fetcher's result, a write that took effect, a value handed to a caller. */
  datatype Record<V> =
    | Fetched(id: nat, key: string, value: V, at: nat)
    | Stored(id: nat, key: string, value: V, at: nat, ttl: nat)
    | Returned(id: nat, key: string, value: V, at: nat, hit: bool)

  datatype Machine<V> = Machine(store: map<string, Entry>, now: nat, calls: map<nat, Call<V>>, log: seq<Record<V>>)

  /** A call's own steps name it; SetEx may take effect or not, whatever Redis answers. */
  datatype Event<V> =
    | Begin(id: nat, key: string, ttl: Option<int>, disable: Option<bool>)
    | Get(id: nat)
    | GetFails(id: nat)
    | Fetch(id: nat, value: V)
    | FetchThrows(id: nat)
    | SetEx(id: nat, effect: bool)
    | Tick(seconds: nat)
    | Evict(redisKey: string)
    | ForeignWrite(redisKey: string, raw: string, expiry: nat)

  function RedisKey(prefix: string, key: string): string {
    prefix + key
  }

  lemma RedisKeyInjective(prefix: string, a: string, b: string)
    ensures RedisKey(prefix, a) == RedisKey(prefix, b) <==> a == b
  {
    if RedisKey(prefix, a) == RedisKey(prefix, b) {
      assert a == RedisKey(prefix, a)[|prefix|..] == RedisKey(prefix, b)[|prefix|..] == b;
    }
  }

  predicate Alive(entry: Entry, now: nat) {
    now < entry.storedAt + entry.ttl
  }

  /** What a read makes of the store: an absent, expired, empty or unparsable entry is no value. */
  function Lookup<V>(codec: Codec<V>, store: map<string, Entry>, redisKey: string, now: nat): Option<V> {
    if redisKey in store && Alive(store[redisKey], now) && store[redisKey].raw != ""
    then codec.parse(store[redisKey].raw)
    else None
  }

  predicate Enabled<V>(codec: Codec<V>, m: Machine<V>, e: Event<V>) {
    match e
    case Begin(id, _, _, _) => id !in m.calls
    case Get(id) => id in m.calls && m.calls[id].phase.Reading?
    case GetFails(id) => id in m.calls && m.calls[id].phase.Reading?
    case Fetch(id, _) => id in m.calls && m.calls[id].phase.Fetching?
    case FetchThrows(id) => id in m.calls && m.calls[id].phase.Fetching?
    case SetEx(id, _) => id in m.calls && m.calls[id].phase.Storing?
    case ForeignWrite(_, raw, _) => raw == "" || codec.parse(raw).None?
    case _ => true
  }

  function Move<V>(m: Machine<V>, id: nat, phase: Phase<V>): Machine<V>
    requires id in m.calls
  {
    m.(calls := m.calls[id := m.calls[id].(phase := phase)])
  }

  function Return<V>(m: Machine<V>, id: nat, value: V, hit: bool): Machine<V>
    requires id in m.calls
  {
    Move(m.(log := m.log + [Returned(id, m.calls[id].key, value, m.now, hit)]), id, Finished)
  }

  function OnGet<V>(codec: Codec<V>, prefix: string, m: Machine<V>, id: nat): Machine<V>
    requires id in m.calls
  {
    match Lookup(codec, m.store, RedisKey(prefix, m.calls[id].key), m.now)
    case Some(value) => Return(m, id, value, true)
    case None => Move(m, id, Fetching)
  }

  function OnFetch<V>(m: Machine<V>, id: nat, value: V): Machine<V>
    requires id in m.calls
  {
    var call := m.calls[id];
    var m1 := m.(log := m.log + [Fetched(id, call.key, value, m.now)]);
    if call.disable then Return(m1, id, value, false) else Move(m1, id, Storing(value))
  }

  /** SETEX refuses an expiry that is not positive; the caller gets its value either way. */
  function OnSetEx<V>(codec: Codec<V>, prefix: string, m: Machine<V>, id: nat, effect: bool): Machine<V>
    requires id in m.calls && m.calls[id].phase.Storing?
  {
    var call := m.calls[id];
    var value := call.phase.value;
    if effect && call.ttl > 0 then
      var entry := Entry(codec.stringify(value), m.now, call.ttl);
      var m1 := m.(store := m.store[RedisKey(prefix, call.key) := entry],
                   log := m.log + [Stored(id, call.key, value, m.now, call.ttl)]);
      Return(m1, id, value, false)
    else Return(m, id, value, false)
  }

  function Step<V>(codec: Codec<V>, prefix: string, m: Machine<V>, e: Event<V>): Machine<V>
    requires Enabled(codec, m, e)
  {
    match e
    case Begin(id, key, ttl, disable) =>
      var seconds := if ttl.Some? then ttl.value else DEFAULT_TTL;
      var disabled := disable == Some(true);
      m.(calls := m.calls[id := Call(key, seconds, disabled, if disabled then Fetching else Reading)])
    case Get(id) => OnGet(codec, prefix, m, id)
    case GetFails(id) => Move(m, id, Finished)
    case Fetch(id, value) => OnFetch(m, id, value)
    case FetchThrows(id) => Move(m, id, Finished)
    case SetEx(id, effect) => OnSetEx(codec, prefix, m, id, effect)
    case Tick(seconds) => m.(now := m.now + seconds)
    case Evict(redisKey) => m.(store := m.store - {redisKey})
    case ForeignWrite(redisKey, raw, expiry) => m.(store := m.store[redisKey := Entry(raw, m.now, expiry)])
  }

  /** An empty store, or one holding nothing but text that is no JSON. */
  ghost predicate Initial<V>(codec: Codec<V>, m: Machine<V>) {
    && m.calls == map[] && m.log == []
    && forall k :: k in m.store ==> Junk(codec, m.store[k].raw) && m.store[k].storedAt <= m.now
  }

  predicate Junk<V>(codec: Codec<V>, raw: string) {
    raw == "" || codec.parse(raw).None?
  }

  /** The machine after a run, if every event of it was enabled when it came. */
  function Run<V>(codec: Codec<V>, prefix: string, m: Machine<V>, events: seq<Event<V>>): Option<Machine<V>>
    decreases events
  {
    if events == [] then Some(m)
    else if !Enabled(codec, m, events[0]) then None
    else Run(codec, prefix, Step(codec, prefix, m, events[0]), events[1..])
  }

  ghost predicate Reaches<V>(codec: Codec<V>, prefix: string, m: Machine<V>, events: seq<Event<V>>, end: Machine<V>) {
    Run(codec, prefix, m, events) == Some(end)
  }
}
