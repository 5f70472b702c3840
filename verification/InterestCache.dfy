/** The time-limited caches of accounts and programs of interest and the handlers that
    feed them (block_engine/src/block_engine.rs). */
module InterestCache {
  import opened Common
  import opened Transactions

  /** The monotonic clock that every cache operation reads. */
  class Clock {
    var now: Time

    constructor (start: Time)
      ensures now == start
    {
      now := start;
    }

    method Read() returns (t: Time)
      modifies this
      ensures t == now && old(now) <= now
    {
      t :| now <= t;
      now := t;
    }
  }

  /** An entry counts while its whole seconds of age are fewer than the lifespan. */
  predicate Fresh(ttl: nat, stamp: Time, now: Time) {
    (if stamp <= now then now - stamp else 0) / SECOND < ttl
  }

  lemma FreshMeaning(ttl: nat, stamp: Time, now: Time)
    requires stamp <= now
    ensures Fresh(ttl, stamp, now) <==> now < stamp + ttl * SECOND
  {
    var age := now - stamp;
    assert age == age / SECOND * SECOND + age % SECOND;
  }

  lemma FreshEarlier(ttl: nat, stamp: Time, earlier: Time, now: Time)
    requires earlier <= now && Fresh(ttl, stamp, now)
    ensures Fresh(ttl, stamp, earlier)
  {
    if stamp <= earlier {
      FreshMeaning(ttl, stamp, earlier);
      FreshMeaning(ttl, stamp, now);
    }
  }

  /** Cache operations with the clock reading each one makes. */
  datatype Event = Set(key: Pubkey, at: Time) | Get(key: Pubkey, at: Time) | Flush(at: Time)

  type Store = map<Pubkey, Time>

  /** A lookup throws out an expired entry it meets; a flush throws out all of them. */
  function Step(ttl: nat, store: Store, e: Event): Store {
    match e
    case Set(key, at) => store[key := at]
    case Get(key, at) => if key in store && !Fresh(ttl, store[key], at) then store - {key} else store
    case Flush(at) => map k | k in store && Fresh(ttl, store[k], at) :: store[k]
  }

  predicate Answer(ttl: nat, store: Store, key: Pubkey, at: Time) {
    key in store && Fresh(ttl, store[key], at)
  }

  function Exec(ttl: nat, run: seq<Event>): Store {
    if run == [] then map[] else Step(ttl, Exec(ttl, run[..|run| - 1]), run[|run| - 1])
  }

  /** Who was named when, leaving out lookups and flushes. */
  datatype Update = Update(key: Pubkey, at: Time)

  function Updates(run: seq<Event>): seq<Update> {
    if run == [] then []
    else
      var last := run[|run| - 1];
      Updates(run[..|run| - 1]) + if last.Set? then [Update(last.key, last.at)] else []
  }

  /** The keys that some update named within the last `ttl` seconds. */
  function Interesting(ttl: nat, log: seq<Update>, now: Time): set<Pubkey> {
    set u | u in log && now < u.at + ttl * SECOND :: u.key
  }

  ghost predicate Ordered(run: seq<Event>, now: Time) {
    && (forall i :: 0 <= i < |run| ==> run[i].at <= now)
    && (forall i, j :: 0 <= i < j < |run| ==> run[i].at <= run[j].at)
  }

  /** The store against the log: entries are logged updates, and a logged update is
      missing or replaced by a later one, or has expired. */
  ghost predicate Agrees(ttl: nat, store: Store, log: seq<Update>, now: Time) {
    && (forall k :: k in store ==> Update(k, store[k]) in log)
    && (forall u :: u in log ==> u.at <= now && (!Fresh(ttl, u.at, now) || (u.key in store && u.at <= store[u.key])))
  }

  lemma AgreesMeaning(ttl: nat, store: Store, log: seq<Update>, now: Time, k: Pubkey)
    requires Agrees(ttl, store, log, now)
    ensures Answer(ttl, store, k, now) <==> k in Interesting(ttl, log, now)
  {
    if Answer(ttl, store, k, now) {
      assert Update(k, store[k]) in log;
      FreshMeaning(ttl, store[k], now);
    }
    if k in Interesting(ttl, log, now) {
      var u :| u in log && now < u.at + ttl * SECOND && u.key == k;
      FreshMeaning(ttl, u.at, now);
      assert u.at <= store[k];
      assert Update(k, store[k]) in log;
      FreshMeaning(ttl, store[k], now);
    }
  }

  lemma AgreesLater(ttl: nat, store: Store, log: seq<Update>, earlier: Time, now: Time)
    requires Agrees(ttl, store, log, earlier) && earlier <= now
    ensures Agrees(ttl, store, log, now)
  {
    forall u | u in log ensures u.at <= now && (!Fresh(ttl, u.at, now) || (u.key in store && u.at <= store[u.key])) {
      if Fresh(ttl, u.at, now) {
        FreshEarlier(ttl, u.at, earlier, now);
      }
    }
  }

  lemma SetAgrees(ttl: nat, store: Store, log: seq<Update>, k: Pubkey, at: Time)
    requires Agrees(ttl, store, log, at)
    ensures Agrees(ttl, store[k := at], log + [Update(k, at)], at)
  {
  }

  /** Dropping expired entries keeps the agreement. */
  lemma DropAgrees(ttl: nat, store: Store, smaller: Store, log: seq<Update>, at: Time)
    requires Agrees(ttl, store, log, at)
    requires forall k :: k in smaller ==> k in store && smaller[k] == store[k]
    requires forall k :: k in store && k !in smaller ==> !Fresh(ttl, store[k], at)
    ensures Agrees(ttl, smaller, log, at)
  {
    forall u | u in log ensures u.at <= at && (!Fresh(ttl, u.at, at) || (u.key in smaller && u.at <= smaller[u.key])) {
      if Fresh(ttl, u.at, at) && u.key !in smaller {
        assert Update(u.key, store[u.key]) in log;
        FreshMeaning(ttl, u.at, at);
        FreshMeaning(ttl, store[u.key], at);
      }
    }
  }

  lemma StepAgrees(ttl: nat, store: Store, log: seq<Update>, e: Event)
    requires Agrees(ttl, store, log, e.at)
    ensures Agrees(ttl, Step(ttl, store, e), log + (if e.Set? then [Update(e.key, e.at)] else []), e.at)
  {
    match e {
      case Set(k, at) => SetAgrees(ttl, store, log, k, at);
      case Get(k, at) =>
        assert log + [] == log;
        DropAgrees(ttl, store, Step(ttl, store, e), log, at);
      case Flush(at) =>
        assert log + [] == log;
        DropAgrees(ttl, store, Step(ttl, store, e), log, at);
    }
  }

  lemma {:induction false} RunAgrees(ttl: nat, run: seq<Event>, now: Time)
    requires Ordered(run, now)
    ensures Agrees(ttl, Exec(ttl, run), Updates(run), now)
  {
    if run != [] {
      var n := |run| - 1;
      RunAgrees(ttl, run[..n], run[n].at);
      StepAgrees(ttl, Exec(ttl, run[..n]), Updates(run[..n]), run[n]);
      AgreesLater(ttl, Exec(ttl, run), Updates(run), run[n].at, now);
    }
  }

  /** At any time a lookup finds a key exactly when some update named it within the
      lifespan, whatever updates, lookups and flushes came before. */
  lemma InterestIsARecentUpdate(ttl: nat, run: seq<Event>, k: Pubkey, now: Time)
    requires Ordered(run, now)
    ensures Answer(ttl, Exec(ttl, run), k, now) <==> k in Interesting(ttl, Updates(run), now)
  {
    RunAgrees(ttl, run, now);
    AgreesMeaning(ttl, Exec(ttl, run), Updates(run), now, k);
  }

  /** Lookups and flushes cannot be observed: runs with the same updates give the same
      answers to every later lookup. */
  lemma LookupsAndFlushesUnobservable(ttl: nat, run: seq<Event>, other: seq<Event>, k: Pubkey, now: Time)
    requires Ordered(run, now) && Ordered(other, now) && Updates(run) == Updates(other)
    ensures Answer(ttl, Exec(ttl, run), k, now) == Answer(ttl, Exec(ttl, other), k, now)
  {
    InterestIsARecentUpdate(ttl, run, k, now);
    InterestIsARecentUpdate(ttl, other, k, now);
  }

  /** A flush leaves exactly the keys of interest behind. */
  lemma FlushKeepsTheInteresting(ttl: nat, run: seq<Event>, now: Time)
    requires Ordered(run, now)
    ensures Step(ttl, Exec(ttl, run), Flush(now)).Keys == Interesting(ttl, Updates(run), now)
  {
    forall k ensures k in Step(ttl, Exec(ttl, run), Flush(now)).Keys <==> k in Interesting(ttl, Updates(run), now) {
      InterestIsARecentUpdate(ttl, run, k, now);
    }
  }

  /** Without new updates interest only fades. */
  lemma InterestFades(ttl: nat, log: seq<Update>, earlier: Time, now: Time)
    requires earlier <= now
    ensures Interesting(ttl, log, now) <= Interesting(ttl, log, earlier)
  {
  }

  // ---------- the cache object ----------

  class TimedCache {
    const ttl: nat
    var store: Store
    /** The operations so far, and the updates among them. */
    ghost var run: seq<Event>
    ghost var log: seq<Update>

    ghost predicate Valid(now: Time)
      reads this
    {
      store == Exec(ttl, run) && log == Updates(run) && Ordered(run, now)
    }

    ghost function Keys(now: Time): set<Pubkey>
      reads this
    {
      Interesting(ttl, log, now)
    }

    constructor (lifespan: nat)
      ensures ttl == lifespan && log == [] && Valid(0)
    {
      ttl := lifespan;
      store := map[];
      run, log := [], [];
    }

    method CacheSet(k: Pubkey, clock: Clock)
      requires Valid(clock.now)
      modifies this, clock
      ensures Valid(clock.now) && old(clock.now) <= clock.now
      ensures log == old(log) + [Update(k, clock.now)]
    {
      var at := clock.Read();
      store := store[k := at];
      Record(Set(k, at));
    }

    method CacheGet(k: Pubkey, clock: Clock) returns (found: bool)
      requires Valid(clock.now)
      modifies this, clock
      ensures Valid(clock.now) && old(clock.now) <= clock.now && log == old(log)
      ensures found <==> k in Keys(clock.now)
    {
      var at := clock.Read();
      InterestIsARecentUpdate(ttl, run, k, at);
      found := false;
      if k in store {
        found := Fresh(ttl, store[k], at);
        if !found {
          store := store - {k};
        }
      }
      Record(Get(k, at));
    }

    method FlushExpired(clock: Clock)
      requires Valid(clock.now)
      modifies this, clock
      ensures Valid(clock.now) && old(clock.now) <= clock.now && log == old(log)
      ensures store.Keys == Keys(clock.now)
    {
      var at := clock.Read();
      FlushKeepsTheInteresting(ttl, run, at);
      store := map k | k in store && Fresh(ttl, store[k], at) :: store[k];
      Record(Flush(at));
    }

    ghost method Record(e: Event)
      requires Ordered(run, e.at) && log == Updates(run) && store == Step(ttl, Exec(ttl, run), e)
      modifies this`run, this`log
      ensures run == old(run) + [e] && Valid(e.at)
      ensures log == old(log) + if e.Set? then [Update(e.key, e.at)] else []
    {
      assert (run + [e])[..|run|] == run;
      run := run + [e];
      log := Updates(run);
    }
  }

  // ---------- feeding the caches ----------

  /** A message of a subscription stream: keys as parsed, or the end of the stream, or an error. */
  type Message = Result<Option<seq<Option<Pubkey>>>, string>

  function Parsed(keys: seq<Option<Pubkey>>): seq<Pubkey> {
    if keys == [] then []
    else
      var n := |keys| - 1;
      Parsed(keys[..n]) + if keys[n].Some? then [keys[n].value] else []
  }

  function Wrapped(keys: seq<Pubkey>): seq<Option<Pubkey>> {
    seq(|keys|, i requires 0 <= i < |keys| => Some(keys[i]))
  }

  /** The keys that parse, in order; nothing else is left out. */
  lemma {:induction false} ParsedMeaning(keys: seq<Option<Pubkey>>)
    ensures Wrapped(Parsed(keys)) == Filter((k: Option<Pubkey>) => k.Some?, keys)
  {
    if keys != [] {
      var n := |keys| - 1;
      var parses := (k: Option<Pubkey>) => k.Some?;
      ParsedMeaning(keys[..n]);
      assert keys == keys[..n] + [keys[n]];
      FilterConcat(parses, keys[..n], [keys[n]]);
      assert Filter(parses, [keys[n]]) == if keys[n].Some? then [keys[n]] else [];
      ParsedNext(keys);
    }
  }

  lemma ParsedNext(keys: seq<Option<Pubkey>>)
    requires keys != []
    ensures var n := |keys| - 1;
            Wrapped(Parsed(keys)) == Wrapped(Parsed(keys[..n])) + if keys[n].Some? then [keys[n]] else []
  {
  }

  lemma {:induction false} ParsedMember(keys: seq<Option<Pubkey>>, k: Pubkey)
    ensures k in Parsed(keys) <==> Some(k) in keys
  {
    if keys != [] {
      var n := |keys| - 1;
      ParsedMember(keys[..n], k);
      assert keys == keys[..n] + [keys[n]];
    }
  }

  /** A key that an update names and that parses is of interest from then on, for the
      lifespan from the beginning of the call at least. */
  lemma NamedIsInteresting(ttl: nat, log: seq<Update>, news: seq<Update>, keys: seq<Option<Pubkey>>, from: Time, to: Time, k: Pubkey, now: Time)
    requires Named(news, Parsed(keys), from, to) && Some(k) in keys && now < from + ttl * SECOND
    ensures k in Interesting(ttl, log + news, now)
  {
    ParsedMember(keys, k);
    var i :| 0 <= i < |Parsed(keys)| && Parsed(keys)[i] == k;
    assert (log + news)[|log| + i] == news[i] && news[i] in log + news;
  }

  ghost predicate Named(news: seq<Update>, keys: seq<Pubkey>, from: Time, to: Time) {
    && |news| == |keys|
    && (forall i :: 0 <= i < |keys| ==> news[i].key == keys[i] && from <= news[i].at <= to)
  }

  /** Shared by both handlers: an error or the end of the stream ends the connection and
      leaves the cache alone; otherwise every key that parses is stamped, in order. */
  method HandleUpdate(msg: Message, closed: string, cache: TimedCache, clock: Clock) returns (r: Result<nat, string>)
    requires cache.Valid(clock.now)
    modifies cache, clock
    ensures cache.Valid(clock.now) && old(clock.now) <= clock.now
    ensures msg.Failure? ==> r == Failure(msg.error)
    ensures msg == Success(None) ==> r == Failure(closed)
    ensures old(cache.log) <= cache.log
    ensures r.Failure? ==> cache.log == old(cache.log) && cache.store == old(cache.store)
    ensures msg.Success? && msg.value.Some? ==>
              && r == Success(|Parsed(msg.value.value)|)
              && Named(cache.log[|old(cache.log)|..], Parsed(msg.value.value), old(clock.now), clock.now)
  {
    if msg.Failure? {
      return Failure(msg.error);
    }
    if msg.value.None? {
      return Failure(closed);
    }
    var keys := msg.value.value;
    var pubkeys := [];
    for i := 0 to |keys|
      invariant pubkeys == Parsed(keys[..i])
    {
      assert keys[..i + 1][..i] == keys[..i];
      if keys[i].Some? {
        pubkeys := pubkeys + [keys[i].value];
      }
    }
    assert keys[..|keys|] == keys;
    ghost var before := cache.log;
    for i := 0 to |pubkeys|
      invariant cache.Valid(clock.now) && old(clock.now) <= clock.now
      invariant |cache.log| == |before| + i && before <= cache.log
      invariant Named(cache.log[|before|..], pubkeys[..i], old(clock.now), clock.now)
    {
      cache.CacheSet(pubkeys[i], clock);
    }
    r := Success(|pubkeys|);
  }

  method HandleAoi(msg: Message, accountsOfInterest: TimedCache, clock: Clock) returns (r: Result<nat, string>)
    requires accountsOfInterest.Valid(clock.now)
    modifies accountsOfInterest, clock
    ensures accountsOfInterest.Valid(clock.now) && old(clock.now) <= clock.now
    ensures r.Success? <==> msg.Success? && msg.value.Some?
    ensures r.Failure? ==> accountsOfInterest.log == old(accountsOfInterest.log) && accountsOfInterest.store == old(accountsOfInterest.store)
    ensures r.Success? ==> r.value == |Parsed(msg.value.value)|
    ensures r.Failure? ==> r.error == if msg.Failure? then msg.error else "aoi updates disconnected"
    ensures old(accountsOfInterest.log) <= accountsOfInterest.log
    ensures r.Success? ==> Named(accountsOfInterest.log[|old(accountsOfInterest.log)|..], Parsed(msg.value.value),
                                 old(clock.now), clock.now)
  {
    r := HandleUpdate(msg, "aoi updates disconnected", accountsOfInterest, clock);
  }

  method HandlePoi(msg: Message, programsOfInterest: TimedCache, clock: Clock) returns (r: Result<nat, string>)
    requires programsOfInterest.Valid(clock.now)
    modifies programsOfInterest, clock
    ensures programsOfInterest.Valid(clock.now) && old(clock.now) <= clock.now
    ensures r.Success? <==> msg.Success? && msg.value.Some?
    ensures r.Failure? ==> programsOfInterest.log == old(programsOfInterest.log) && programsOfInterest.store == old(programsOfInterest.store)
    ensures r.Success? ==> r.value == |Parsed(msg.value.value)|
    ensures r.Failure? ==> r.error == if msg.Failure? then msg.error else "poi disconnected"
    ensures old(programsOfInterest.log) <= programsOfInterest.log
    ensures r.Success? ==> Named(programsOfInterest.log[|old(programsOfInterest.log)|..], Parsed(msg.value.value),
                                 old(clock.now), clock.now)
  {
    r := HandleUpdate(msg, "poi disconnected", programsOfInterest, clock);
  }
}
