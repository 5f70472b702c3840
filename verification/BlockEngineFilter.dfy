/** Which packets are forwarded to the block engine (block_engine/src/block_engine.rs).

    Every interest lookup reads the clock and may throw out an expired entry, so the
    filter is specified against the interest at its start and at its end. */
module BlockEngineFilter {
  import opened Common
  import opened Transactions
  import opened Ofac
  import opened InterestCache

  /** A packet with what its two passes over the lookup tables get to see: the sanctions
      test and the interest test read the tables again, each at its own moments. */
  datatype Candidate = Candidate(packet: Packet, ofacViews: Views, interestViews: Views)

  /** Batches waiting for the block engine. */
  datatype BlockEnginePackets = BlockEnginePackets(batches: seq<seq<Candidate>>, stamp: Time, expiration: nat)

  datatype ExpiringPacketBatch = ExpiringPacketBatch(ts: Time, packets: seq<ProtoPacket>, expiryMs: nat)

  // ---------- reference definition: accounts a transaction uses, and the interest in them ----------

  datatype Use = Use(key: Pubkey, writable: bool)

  function StaticUses(tx: Transaction): seq<Use> {
    seq(|tx.staticKeys|, i requires 0 <= i < |tx.staticKeys| => Use(tx.staticKeys[i], i in tx.maybeWritable))
  }

  /** The uses that a table can resolve. */
  function IndexUses(addresses: seq<Pubkey>, indexes: seq<nat>, writable: bool): seq<Use> {
    if indexes == [] then []
    else
      var n := |indexes| - 1;
      IndexUses(addresses, indexes[..n], writable)
      + match Resolve(addresses, indexes[n]) case Some(a) => [Use(a, writable)] case None => []
  }

  function LookupUses(table: TableLookup, cache: TableCache): seq<Use> {
    if table.accountKey in cache
    then IndexUses(cache[table.accountKey], table.writableIndexes, true)
         + IndexUses(cache[table.accountKey], table.readonlyIndexes, false)
    else []
  }

  function TableUses(tables: seq<TableLookup>, views: Views): seq<Use> {
    if tables == [] then []
    else
      var n := |tables| - 1;
      TableUses(tables[..n], views) + LookupUses(tables[n], ViewAt(views, n))
  }

  /** Static keys, then the resolvable lookup-table entries. */
  function Uses(tx: Transaction, views: Views): seq<Use> {
    StaticUses(tx) + if tx.lookups.Some? then TableUses(tx.lookups.value, views) else []
  }

  /** The update histories of both caches with their lifespans. */
  datatype Interest = Interest(aoiTtl: nat, aoiLog: seq<Update>, poiTtl: nat, poiLog: seq<Update>) {
    function Aoi(now: Time): set<Pubkey> {
      Interesting(aoiTtl, aoiLog, now)
    }

    function Poi(now: Time): set<Pubkey> {
      Interesting(poiTtl, poiLog, now)
    }
  }

  /** Writable accounts count when they are accounts or programs of interest, read-only
      ones when they are programs of interest. */
  predicate Interests(u: Use, interest: Interest, now: Time) {
    (u.writable && u.key in interest.Aoi(now)) || u.key in interest.Poi(now)
  }

  predicate MeetsInterest(uses: seq<Use>, interest: Interest, now: Time) {
    exists i :: 0 <= i < |uses| && Interests(uses[i], interest, now)
  }

  predicate MissesOfac(uses: seq<Use>, ofac: set<Pubkey>) {
    forall i :: 0 <= i < |uses| ==> uses[i].key !in ofac
  }

  predicate Forwardable(
    tx: Transaction, ofacViews: Views, interestViews: Views, interest: Interest, ofac: set<Pubkey>, now: Time)
  {
    MeetsInterest(Uses(tx, interestViews), interest, now) && MissesOfac(Uses(tx, ofacViews), ofac)
  }

  /** The packets that should go to the block engine, judged at one moment. */
  predicate Wanted(a: Candidate, interest: Interest, ofac: set<Pubkey>, now: Time) {
    && !a.packet.discard && a.packet.tx.Some? && a.packet.proto.Some?
    && Forwardable(a.packet.tx.value, a.ofacViews, a.interestViews, interest, ofac, now)
  }

  function WantedPackets(arrivals: seq<Candidate>, interest: Interest, ofac: set<Pubkey>, now: Time): seq<ProtoPacket> {
    if arrivals == [] then []
    else
      var n := |arrivals| - 1;
      WantedPackets(arrivals[..n], interest, ofac, now)
      + if Wanted(arrivals[n], interest, ofac, now) then [arrivals[n].packet.proto.value] else []
  }

  // ---------- verdicts reached while time passes ----------

  /** A verdict reached between two moments: a hit needs interest at the first, and
      interest that lasts until the second is found. */
  ghost predicate Found(uses: seq<Use>, interest: Interest, from: Time, to: Time, hit: bool) {
    && (hit ==> MeetsInterest(uses, interest, from))
    && (MeetsInterest(uses, interest, to) ==> hit)
  }

  lemma UseFades(u: Use, interest: Interest, earlier: Time, now: Time)
    requires earlier <= now && Interests(u, interest, now)
    ensures Interests(u, interest, earlier)
  {
    InterestFades(interest.aoiTtl, interest.aoiLog, earlier, now);
    InterestFades(interest.poiTtl, interest.poiLog, earlier, now);
  }

  lemma MeetsFades(uses: seq<Use>, interest: Interest, earlier: Time, now: Time)
    requires earlier <= now && MeetsInterest(uses, interest, now)
    ensures MeetsInterest(uses, interest, earlier)
  {
    var i :| 0 <= i < |uses| && Interests(uses[i], interest, now);
    UseFades(uses[i], interest, earlier, now);
  }

  lemma MeetsConcat(a: seq<Use>, b: seq<Use>, interest: Interest, now: Time)
    ensures MeetsInterest(a + b, interest, now) <==> MeetsInterest(a, interest, now) || MeetsInterest(b, interest, now)
  {
    if i :| 0 <= i < |a| && Interests(a[i], interest, now) {
      assert (a + b)[i] == a[i];
    }
    if i :| 0 <= i < |b| && Interests(b[i], interest, now) {
      assert (a + b)[|a| + i] == b[i];
    }
  }

  /** Two scans one after the other, the second skipped once the first hits. */
  lemma FoundConcat(a: seq<Use>, b: seq<Use>, interest: Interest, from: Time, mid: Time, to: Time, first: bool, second: bool)
    requires from <= mid <= to && Found(a, interest, from, mid, first)
    requires !first ==> Found(b, interest, mid, to, second)
    ensures Found(a + b, interest, from, to, first || second)
  {
    MeetsConcat(a, b, interest, from);
    MeetsConcat(a, b, interest, to);
    if !first {
      if second {
        MeetsFades(b, interest, from, mid);
      }
      if MeetsInterest(a, interest, to) {
        MeetsFades(a, interest, mid, to);
      }
    }
  }

  /** A hit in the front part is a hit. */
  lemma FoundPrefix(front: seq<Use>, all: seq<Use>, interest: Interest, from: Time, to: Time)
    requires front <= all && from <= to && Found(front, interest, from, to, true)
    ensures Found(all, interest, from, to, true)
  {
    FoundConcat(front, all[|front|..], interest, from, to, to, true, false);
    assert all == front + all[|front|..];
  }

  lemma IndexUsesNext(addresses: seq<Pubkey>, indexes: seq<nat>, writable: bool, i: nat)
    requires i < |indexes|
    ensures IndexUses(addresses, indexes[..i + 1], writable)
         == IndexUses(addresses, indexes[..i], writable)
            + match Resolve(addresses, indexes[i]) case Some(a) => [Use(a, writable)] case None => []
  {
    assert indexes[..i + 1][..i] == indexes[..i];
  }

  ghost function InterestOf(accountsOfInterest: TimedCache, programsOfInterest: TimedCache): Interest
    reads accountsOfInterest, programsOfInterest
  {
    Interest(accountsOfInterest.ttl, accountsOfInterest.log, programsOfInterest.ttl, programsOfInterest.log)
  }

  /** One lookup or two for one account: programs are asked only if accounts did not answer. */
  method IsUseInteresting(u: Use, aoi: TimedCache, poi: TimedCache, clock: Clock) returns (hit: bool)
    requires aoi != poi && aoi.Valid(clock.now) && poi.Valid(clock.now)
    modifies aoi, poi, clock
    ensures aoi.Valid(clock.now) && poi.Valid(clock.now) && old(clock.now) <= clock.now
    ensures InterestOf(aoi, poi) == old(InterestOf(aoi, poi))
    ensures Found([u], InterestOf(aoi, poi), old(clock.now), clock.now, hit)
  {
    hit := false;
    if u.writable {
      hit := aoi.CacheGet(u.key, clock);
    }
    ghost var mid := clock.now;
    if !hit {
      hit := poi.CacheGet(u.key, clock);
    }
    ghost var interest := InterestOf(aoi, poi);
    InterestFades(interest.aoiTtl, interest.aoiLog, old(clock.now), mid);
    InterestFades(interest.aoiTtl, interest.aoiLog, mid, clock.now);
    InterestFades(interest.poiTtl, interest.poiLog, old(clock.now), clock.now);
    assert hit ==> Interests([u][0], interest, old(clock.now));
  }

  method IsAoiInStaticKeys(tx: Transaction, aoi: TimedCache, poi: TimedCache, clock: Clock) returns (hit: bool)
    requires aoi != poi && aoi.Valid(clock.now) && poi.Valid(clock.now)
    modifies aoi, poi, clock
    ensures aoi.Valid(clock.now) && poi.Valid(clock.now) && old(clock.now) <= clock.now
    ensures InterestOf(aoi, poi) == old(InterestOf(aoi, poi))
    ensures Found(StaticUses(tx), InterestOf(aoi, poi), old(clock.now), clock.now, hit)
  {
    ghost var start, uses, interest := clock.now, StaticUses(tx), InterestOf(aoi, poi);
    for i := 0 to |tx.staticKeys|
      invariant aoi.Valid(clock.now) && poi.Valid(clock.now) && start <= clock.now && InterestOf(aoi, poi) == interest
      invariant Found(uses[..i], interest, start, clock.now, false)
    {
      ghost var mid := clock.now;
      hit := IsUseInteresting(Use(tx.staticKeys[i], i in tx.maybeWritable), aoi, poi, clock);
      UsesNext(uses, i, interest, start, mid, clock.now, hit);
      if hit {
        FoundPrefix(uses[..i + 1], uses, interest, start, clock.now);
        return;
      }
    }
    assert uses[..|uses|] == uses;
    hit := false;
  }

  lemma UsesNext(uses: seq<Use>, i: nat, interest: Interest, from: Time, mid: Time, to: Time, hit: bool)
    requires i < |uses| && from <= mid <= to
    requires Found(uses[..i], interest, from, mid, false) && Found([uses[i]], interest, mid, to, hit)
    ensures Found(uses[..i + 1], interest, from, to, hit)
  {
    FoundConcat(uses[..i], [uses[i]], interest, from, mid, to, false, hit);
    assert uses[..i + 1] == uses[..i] + [uses[i]];
  }

  /** Scans one index list of one table, leaving at the first hit. */
  method ScanIndexList(addresses: seq<Pubkey>, indexes: seq<nat>, writable: bool, aoi: TimedCache, poi: TimedCache, clock: Clock)
    returns (hit: bool)
    requires aoi != poi && aoi.Valid(clock.now) && poi.Valid(clock.now)
    modifies aoi, poi, clock
    ensures aoi.Valid(clock.now) && poi.Valid(clock.now) && old(clock.now) <= clock.now
    ensures InterestOf(aoi, poi) == old(InterestOf(aoi, poi))
    ensures Found(IndexUses(addresses, indexes, writable), InterestOf(aoi, poi), old(clock.now), clock.now, hit)
  {
    ghost var start, interest := clock.now, InterestOf(aoi, poi);
    for i := 0 to |indexes|
      invariant aoi.Valid(clock.now) && poi.Valid(clock.now) && start <= clock.now && InterestOf(aoi, poi) == interest
      invariant Found(IndexUses(addresses, indexes[..i], writable), interest, start, clock.now, false)
    {
      ghost var mid := clock.now;
      if indexes[i] < |addresses| {
        hit := IsUseInteresting(Use(addresses[indexes[i]], writable), aoi, poi, clock);
        IndexFound(addresses, indexes, writable, i, interest, start, mid, clock.now, hit);
        if hit {
          IndexUsesPrefix(addresses, indexes, writable, i + 1);
          FoundPrefix(IndexUses(addresses, indexes[..i + 1], writable), IndexUses(addresses, indexes, writable), interest, start, clock.now);
          return;
        }
      } else {
        IndexSkipped(addresses, indexes, writable, i);
      }
    }
    assert indexes[..|indexes|] == indexes;
    hit := false;
  }

  lemma IndexFound(addresses: seq<Pubkey>, indexes: seq<nat>, writable: bool, i: nat,
                   interest: Interest, from: Time, mid: Time, to: Time, hit: bool)
    requires i < |indexes| && indexes[i] < |addresses| && from <= mid <= to
    requires Found(IndexUses(addresses, indexes[..i], writable), interest, from, mid, false)
    requires Found([Use(addresses[indexes[i]], writable)], interest, mid, to, hit)
    ensures Found(IndexUses(addresses, indexes[..i + 1], writable), interest, from, to, hit)
  {
    IndexUsesNext(addresses, indexes, writable, i);
    FoundConcat(IndexUses(addresses, indexes[..i], writable), [Use(addresses[indexes[i]], writable)], interest, from, mid, to, false, hit);
  }

  lemma IndexSkipped(addresses: seq<Pubkey>, indexes: seq<nat>, writable: bool, i: nat)
    requires i < |indexes| && indexes[i] >= |addresses|
    ensures IndexUses(addresses, indexes[..i + 1], writable) == IndexUses(addresses, indexes[..i], writable)
  {
    IndexUsesNext(addresses, indexes, writable, i);
    assert IndexUses(addresses, indexes[..i], writable) + [] == IndexUses(addresses, indexes[..i], writable);
  }

  lemma {:induction false} IndexUsesPrefix(addresses: seq<Pubkey>, indexes: seq<nat>, writable: bool, i: nat)
    requires i <= |indexes|
    ensures IndexUses(addresses, indexes[..i], writable) <= IndexUses(addresses, indexes, writable)
  {
    if i == |indexes| {
      assert indexes[..i] == indexes;
    } else {
      var n := |indexes| - 1;
      IndexUsesPrefix(addresses, indexes[..n], writable, i);
      assert indexes[..n][..i] == indexes[..i];
    }
  }

  method IsAoiInLookupTable(tx: Transaction, views: Views, aoi: TimedCache, poi: TimedCache, clock: Clock) returns (hit: bool)
    requires aoi != poi && aoi.Valid(clock.now) && poi.Valid(clock.now)
    modifies aoi, poi, clock
    ensures aoi.Valid(clock.now) && poi.Valid(clock.now) && old(clock.now) <= clock.now
    ensures InterestOf(aoi, poi) == old(InterestOf(aoi, poi))
    ensures Found(if tx.lookups.Some? then TableUses(tx.lookups.value, views) else [],
                  InterestOf(aoi, poi), old(clock.now), clock.now, hit)
  {
    if tx.lookups.None? {
      return false;
    }
    hit := ScanLookupTables(tx.lookups.value, views, aoi, poi, clock);
  }

  /** Table by table, leaving at the first hit. */
  method ScanLookupTables(tables: seq<TableLookup>, views: Views, aoi: TimedCache, poi: TimedCache, clock: Clock) returns (hit: bool)
    requires aoi != poi && aoi.Valid(clock.now) && poi.Valid(clock.now)
    modifies aoi, poi, clock
    ensures aoi.Valid(clock.now) && poi.Valid(clock.now) && old(clock.now) <= clock.now
    ensures InterestOf(aoi, poi) == old(InterestOf(aoi, poi))
    ensures Found(TableUses(tables, views), InterestOf(aoi, poi), old(clock.now), clock.now, hit)
  {
    ghost var start, interest := clock.now, InterestOf(aoi, poi);
    for i := 0 to |tables|
      invariant aoi.Valid(clock.now) && poi.Valid(clock.now) && start <= clock.now && InterestOf(aoi, poi) == interest
      invariant Found(TableUses(tables[..i], views), interest, start, clock.now, false)
    {
      ghost var mid := clock.now;
      hit := IsAoiInTable(tables[i], ViewAt(views, i), aoi, poi, clock);
      TableFound(tables, views, i, interest, start, mid, clock.now, hit);
      if hit {
        TableUsesPrefix(tables, views, i + 1);
        FoundPrefix(TableUses(tables[..i + 1], views), TableUses(tables, views), interest, start, clock.now);
        return;
      }
    }
    assert tables[..|tables|] == tables;
    hit := false;
  }

  lemma TableFound(tables: seq<TableLookup>, views: Views, i: nat,
                   interest: Interest, from: Time, mid: Time, to: Time, hit: bool)
    requires i < |tables| && from <= mid <= to
    requires Found(TableUses(tables[..i], views), interest, from, mid, false)
    requires Found(LookupUses(tables[i], ViewAt(views, i)), interest, mid, to, hit)
    ensures Found(TableUses(tables[..i + 1], views), interest, from, to, hit)
  {
    FoundConcat(TableUses(tables[..i], views), LookupUses(tables[i], ViewAt(views, i)), interest, from, mid, to, false, hit);
    assert tables[..i + 1][..i] == tables[..i];
  }

  lemma {:induction false} TableUsesPrefix(tables: seq<TableLookup>, views: Views, i: nat)
    requires i <= |tables|
    ensures TableUses(tables[..i], views) <= TableUses(tables, views)
  {
    if i == |tables| {
      assert tables[..i] == tables;
    } else {
      var n := |tables| - 1;
      TableUsesPrefix(tables[..n], views, i);
      assert tables[..n][..i] == tables[..i];
    }
  }

  /** The writable indexes of one table, then the read-only ones. */
  method IsAoiInTable(table: TableLookup, cache: TableCache, aoi: TimedCache, poi: TimedCache, clock: Clock) returns (hit: bool)
    requires aoi != poi && aoi.Valid(clock.now) && poi.Valid(clock.now)
    modifies aoi, poi, clock
    ensures aoi.Valid(clock.now) && poi.Valid(clock.now) && old(clock.now) <= clock.now
    ensures InterestOf(aoi, poi) == old(InterestOf(aoi, poi))
    ensures Found(LookupUses(table, cache), InterestOf(aoi, poi), old(clock.now), clock.now, hit)
  {
    hit := false;
    if table.accountKey in cache {
      var addresses := cache[table.accountKey];
      hit := ScanIndexList(addresses, table.writableIndexes, true, aoi, poi, clock);
      ghost var mid, first := clock.now, hit;
      if !hit {
        hit := ScanIndexList(addresses, table.readonlyIndexes, false, aoi, poi, clock);
      }
      FoundConcat(IndexUses(addresses, table.writableIndexes, true), IndexUses(addresses, table.readonlyIndexes, false),
                  InterestOf(aoi, poi), old(clock.now), mid, clock.now, first, hit);
    }
  }

  // ---------- sanctions in terms of uses ----------

  lemma {:induction false} IndexUsesKeys(addresses: seq<Pubkey>, indexes: seq<nat>, writable: bool, a: Pubkey)
    ensures (exists u :: u in IndexUses(addresses, indexes, writable) && u.key == a)
       <==> exists i :: 0 <= i < |indexes| && indexes[i] < |addresses| && addresses[indexes[i]] == a
  {
    if indexes != [] {
      var n := |indexes| - 1;
      IndexUsesKeys(addresses, indexes[..n], writable, a);
      if i :| 0 <= i < |indexes| && indexes[i] < |addresses| && addresses[indexes[i]] == a {
        if i < n {
          assert indexes[..n][i] == indexes[i];
        } else {
          assert Use(a, writable) in IndexUses(addresses, indexes, writable);
        }
      }
    }
  }

  lemma LookupUsesKeys(table: TableLookup, cache: TableCache, a: Pubkey)
    ensures (exists u :: u in LookupUses(table, cache) && u.key == a) <==> a in LookupAccounts(table, cache)
  {
    if table.accountKey in cache {
      var addresses, w, r := cache[table.accountKey], table.writableIndexes, table.readonlyIndexes;
      IndexUsesKeys(addresses, w, true, a);
      IndexUsesKeys(addresses, r, false, a);
      ResolveAllMember(addresses, w + r, a);
      if i :| 0 <= i < |w| && w[i] < |addresses| && addresses[w[i]] == a {
        assert (w + r)[i] == w[i];
      }
      if i :| 0 <= i < |r| && r[i] < |addresses| && addresses[r[i]] == a {
        assert (w + r)[|w| + i] == r[i];
      }
    }
  }

  lemma {:induction false} TableUsesKeys(tables: seq<TableLookup>, views: Views, a: Pubkey)
    ensures (exists u :: u in TableUses(tables, views) && u.key == a) <==> a in TableAccounts(tables, views)
  {
    if tables != [] {
      var n := |tables| - 1;
      TableUsesKeys(tables[..n], views, a);
      LookupUsesKeys(tables[n], ViewAt(views, n), a);
    }
  }

  /** The sanctions test used by the filter is about the same accounts as the interest rule. */
  lemma OfacOverUses(tx: Transaction, ofac: set<Pubkey>, views: Views)
    ensures IsTxOfacRelated(tx, ofac, views) <==> !MissesOfac(Uses(tx, views), ofac)
  {
    OfacMeaning(tx, ofac, views);
    var uses := Uses(tx, views);
    if a :| a in ResolvedAccounts(tx, views) && a in ofac {
      UsesKeys(tx, views, a);
      var u :| u in uses && u.key == a;
    }
    if i :| 0 <= i < |uses| && uses[i].key in ofac {
      assert uses[i] in uses;
      UsesKeys(tx, views, uses[i].key);
    }
  }

  lemma UsesKeys(tx: Transaction, views: Views, a: Pubkey)
    ensures (exists u :: u in Uses(tx, views) && u.key == a) <==> a in ResolvedAccounts(tx, views)
  {
    if tx.lookups.Some? {
      TableUsesKeys(tx.lookups.value, views, a);
    }
    if u :| u in StaticUses(tx) && u.key == a {
      assert a in tx.staticKeys;
    }
    if i :| 0 <= i < |tx.staticKeys| && tx.staticKeys[i] == a {
      assert StaticUses(tx)[i].key == a && StaticUses(tx)[i] in Uses(tx, views);
    }
  }

  // ---------- the filter ----------

  ghost predicate Judged(a: Candidate, interest: Interest, ofac: set<Pubkey>, from: Time, to: Time, keep: bool) {
    && (keep ==> Wanted(a, interest, ofac, from))
    && (Wanted(a, interest, ofac, to) ==> keep)
  }

  /** The wire forms of the packets judged worth keeping, in order. */
  ghost function Kept(arrivals: seq<Candidate>, verdicts: seq<bool>): seq<ProtoPacket>
    requires |verdicts| == |arrivals|
    requires forall i :: 0 <= i < |arrivals| && verdicts[i] ==> arrivals[i].packet.proto.Some?
  {
    if arrivals == [] then []
    else
      var n := |arrivals| - 1;
      Kept(arrivals[..n], verdicts[..n]) + if verdicts[n] then [arrivals[n].packet.proto.value] else []
  }

  ghost predicate AllJudged(
    arrivals: seq<Candidate>, verdicts: seq<bool>, interest: Interest, ofac: set<Pubkey>, from: Time, to: Time)
  {
    && |verdicts| == |arrivals|
    && (forall i :: 0 <= i < |arrivals| ==> Judged(arrivals[i], interest, ofac, from, to, verdicts[i]))
  }

  /** The two branches on an empty sanctions list. */
  method IsForwardable(
    tx: Transaction, ofacViews: Views, interestViews: Views, ofac: set<Pubkey>, aoi: TimedCache, poi: TimedCache, clock: Clock)
    returns (keep: bool)
    requires aoi != poi && aoi.Valid(clock.now) && poi.Valid(clock.now)
    modifies aoi, poi, clock
    ensures aoi.Valid(clock.now) && poi.Valid(clock.now) && old(clock.now) <= clock.now
    ensures InterestOf(aoi, poi) == old(InterestOf(aoi, poi))
    ensures keep ==> Forwardable(tx, ofacViews, interestViews, InterestOf(aoi, poi), ofac, old(clock.now))
    ensures Forwardable(tx, ofacViews, interestViews, InterestOf(aoi, poi), ofac, clock.now) ==> keep
  {
    OfacOverUses(tx, ofac, ofacViews);
    if ofac == {} {
      NoSanctionsNoHits(tx, ofacViews);
      keep := IsOfInterest(tx, interestViews, aoi, poi, clock);
    } else {
      keep := !IsTxOfacRelated(tx, ofac, ofacViews);
      if keep {
        keep := IsOfInterest(tx, interestViews, aoi, poi, clock);
      }
    }
  }

  /** The static keys, then the lookup tables. */
  method IsOfInterest(tx: Transaction, views: Views, aoi: TimedCache, poi: TimedCache, clock: Clock) returns (hit: bool)
    requires aoi != poi && aoi.Valid(clock.now) && poi.Valid(clock.now)
    modifies aoi, poi, clock
    ensures aoi.Valid(clock.now) && poi.Valid(clock.now) && old(clock.now) <= clock.now
    ensures InterestOf(aoi, poi) == old(InterestOf(aoi, poi))
    ensures Found(Uses(tx, views), InterestOf(aoi, poi), old(clock.now), clock.now, hit)
  {
    hit := IsAoiInStaticKeys(tx, aoi, poi, clock);
    ghost var mid, first := clock.now, hit;
    if !hit {
      hit := IsAoiInLookupTable(tx, views, aoi, poi, clock);
    }
    FoundConcat(StaticUses(tx), if tx.lookups.Some? then TableUses(tx.lookups.value, views) else [],
                InterestOf(aoi, poi), old(clock.now), mid, clock.now, first, hit);
  }

  method JudgePacket(a: Candidate, ofac: set<Pubkey>, aoi: TimedCache, poi: TimedCache, clock: Clock) returns (kept: Option<ProtoPacket>)
    requires aoi != poi && aoi.Valid(clock.now) && poi.Valid(clock.now)
    modifies aoi, poi, clock
    ensures aoi.Valid(clock.now) && poi.Valid(clock.now) && old(clock.now) <= clock.now
    ensures InterestOf(aoi, poi) == old(InterestOf(aoi, poi))
    ensures Judged(a, InterestOf(aoi, poi), ofac, old(clock.now), clock.now, kept.Some?)
    ensures kept.Some? ==> kept == a.packet.proto
  {
    kept := None;
    if !a.packet.discard && a.packet.tx.Some? {
      var keep := IsForwardable(a.packet.tx.value, a.ofacViews, a.interestViews, ofac, aoi, poi, clock);
      if keep {
        kept := a.packet.proto;
      }
    }
  }

  lemma WantedFades(a: Candidate, interest: Interest, ofac: set<Pubkey>, earlier: Time, now: Time)
    requires earlier <= now && Wanted(a, interest, ofac, now)
    ensures Wanted(a, interest, ofac, earlier)
  {
    MeetsFades(Uses(a.packet.tx.value, a.interestViews), interest, earlier, now);
  }

  /** One more judged packet; the earlier verdicts stay good as time passes. */
  lemma JudgedNext(
    arrivals: seq<Candidate>, verdicts: seq<bool>, a: Candidate, keep: bool,
    interest: Interest, ofac: set<Pubkey>, from: Time, mid: Time, to: Time)
    requires from <= mid <= to && AllJudged(arrivals, verdicts, interest, ofac, from, mid)
    requires Judged(a, interest, ofac, mid, to, keep)
    ensures AllJudged(arrivals + [a], verdicts + [keep], interest, ofac, from, to)
    ensures Kept(arrivals + [a], verdicts + [keep])
         == Kept(arrivals, verdicts) + if keep then [a.packet.proto.value] else []
  {
    forall i | 0 <= i < |arrivals| + 1
      ensures Judged((arrivals + [a])[i], interest, ofac, from, to, (verdicts + [keep])[i])
    {
      if i < |arrivals| {
        assert Judged(arrivals[i], interest, ofac, from, mid, verdicts[i]);
        if Wanted(arrivals[i], interest, ofac, to) {
          WantedFades(arrivals[i], interest, ofac, mid, to);
        }
      } else if keep {
        WantedFades(a, interest, ofac, from, mid);
      }
    }
    assert (arrivals + [a])[..|arrivals|] == arrivals && (verdicts + [keep])[..|arrivals|] == verdicts;
  }

  /** The packets kept are those judged worth keeping, in order; with none left there is
      nothing to send. `verdicts` has one verdict for each packet of the flattened input. */
  method FilterPackets(input: BlockEnginePackets, ofac: set<Pubkey>, aoi: TimedCache, poi: TimedCache, clock: Clock)
    returns (r: Option<ExpiringPacketBatch>, ghost verdicts: seq<bool>)
    requires aoi != poi && aoi.Valid(clock.now) && poi.Valid(clock.now)
    modifies aoi, poi, clock
    ensures aoi.Valid(clock.now) && poi.Valid(clock.now) && old(clock.now) <= clock.now
    ensures InterestOf(aoi, poi) == old(InterestOf(aoi, poi))
    ensures AllJudged(Flatten(input.batches), verdicts, InterestOf(aoi, poi), ofac, old(clock.now), clock.now)
    ensures var kept := Kept(Flatten(input.batches), verdicts);
            r == if kept == [] then None else Some(ExpiringPacketBatch(input.stamp, kept, input.expiration))
  {
    ghost var start, interest := clock.now, InterestOf(aoi, poi);
    var filtered: seq<ProtoPacket> := [];
    verdicts := [];
    for b := 0 to |input.batches|
      invariant aoi.Valid(clock.now) && poi.Valid(clock.now) && start <= clock.now && InterestOf(aoi, poi) == interest
      invariant AllJudged(Flatten(input.batches[..b]), verdicts, interest, ofac, start, clock.now)
      invariant filtered == Kept(Flatten(input.batches[..b]), verdicts)
    {
      filtered, verdicts := FilterBatch(Flatten(input.batches[..b]), verdicts, start, filtered, input.batches[b], ofac, aoi, poi, clock);
      FlattenNext(input.batches, b);
    }
    assert input.batches[..|input.batches|] == input.batches;
    r := if filtered == [] then None else Some(ExpiringPacketBatch(input.stamp, filtered, input.expiration));
  }

  /** The inner loop: `seen` are the packets of the batches before, judged since `start`. */
  method FilterBatch(
    ghost seen: seq<Candidate>, ghost judged: seq<bool>, ghost start: Time, kept: seq<ProtoPacket>,
    batch: seq<Candidate>, ofac: set<Pubkey>, aoi: TimedCache, poi: TimedCache, clock: Clock)
    returns (filtered: seq<ProtoPacket>, ghost verdicts: seq<bool>)
    requires aoi != poi && aoi.Valid(clock.now) && poi.Valid(clock.now) && start <= clock.now
    requires AllJudged(seen, judged, InterestOf(aoi, poi), ofac, start, clock.now) && kept == Kept(seen, judged)
    modifies aoi, poi, clock
    ensures aoi.Valid(clock.now) && poi.Valid(clock.now) && old(clock.now) <= clock.now
    ensures InterestOf(aoi, poi) == old(InterestOf(aoi, poi))
    ensures AllJudged(seen + batch, verdicts, InterestOf(aoi, poi), ofac, start, clock.now)
    ensures filtered == Kept(seen + batch, verdicts)
  {
    ghost var interest := InterestOf(aoi, poi);
    filtered, verdicts := kept, judged;
    assert seen + batch[..0] == seen;
    for j := 0 to |batch|
      invariant aoi.Valid(clock.now) && poi.Valid(clock.now) && old(clock.now) <= clock.now && InterestOf(aoi, poi) == interest
      invariant AllJudged(seen + batch[..j], verdicts, interest, ofac, start, clock.now)
      invariant filtered == Kept(seen + batch[..j], verdicts)
    {
      ghost var mid := clock.now;
      var next := JudgePacket(batch[j], ofac, aoi, poi, clock);
      JudgedNext(seen + batch[..j], verdicts, batch[j], next.Some?, interest, ofac, start, mid, clock.now);
      assert seen + batch[..j + 1] == seen + batch[..j] + [batch[j]];
      if next.Some? {
        filtered := filtered + [next.value];
      }
      verdicts := verdicts + [next.Some?];
    }
    assert batch[..|batch|] == batch;
  }

  lemma FlattenNext(batches: seq<seq<Candidate>>, b: nat)
    requires b < |batches|
    ensures Flatten(batches[..b + 1]) == Flatten(batches[..b]) + batches[b]
  {
    FlattenConcat(batches[..b], [batches[b]]);
    assert batches[..b + 1] == batches[..b] + [batches[b]];
    assert Flatten([batches[b]]) == batches[b] + Flatten([batches[b]][1..]);
  }

  // ---------- what the filter keeps ----------

  lemma {:induction false} SubsequenceAppend<T>(a: seq<T>, b: seq<T>, c: seq<T>, d: seq<T>)
    requires Subsequence(a, b) && (c == d || c == [])
    ensures Subsequence(a + c, b + d)
  {
    if c == d {
      SubsequenceSelf(c);
    }
    SubsequenceConcat(a, b, c, d);
  }

  /** The filter is in between: it keeps all that stays wanted to the end of the call, and
      nothing that was not wanted at its start. */
  lemma {:induction false} KeptIsBetween(
    arrivals: seq<Candidate>, verdicts: seq<bool>, interest: Interest, ofac: set<Pubkey>, from: Time, to: Time)
    requires AllJudged(arrivals, verdicts, interest, ofac, from, to)
    ensures Subsequence(WantedPackets(arrivals, interest, ofac, to), Kept(arrivals, verdicts))
    ensures Subsequence(Kept(arrivals, verdicts), WantedPackets(arrivals, interest, ofac, from))
  {
    if arrivals != [] {
      var n := |arrivals| - 1;
      KeptIsBetween(arrivals[..n], verdicts[..n], interest, ofac, from, to);
      assert Judged(arrivals[n], interest, ofac, from, to, verdicts[n]);
      var kept := if verdicts[n] then [arrivals[n].packet.proto.value] else [];
      var last := if Wanted(arrivals[n], interest, ofac, to) then [arrivals[n].packet.proto.value] else [];
      var first := if Wanted(arrivals[n], interest, ofac, from) then [arrivals[n].packet.proto.value] else [];
      SubsequenceAppend(WantedPackets(arrivals[..n], interest, ofac, to), Kept(arrivals[..n], verdicts[..n]), last, kept);
      SubsequenceAppend(Kept(arrivals[..n], verdicts[..n]), WantedPackets(arrivals[..n], interest, ofac, from), kept, first);
    }
  }

  /** As long as no interest runs out during the call, the filter keeps exactly the wanted
      packets, in order. */
  lemma {:induction false} KeptIsExact(
    arrivals: seq<Candidate>, verdicts: seq<bool>, interest: Interest, ofac: set<Pubkey>, from: Time, to: Time)
    requires AllJudged(arrivals, verdicts, interest, ofac, from, to)
    requires interest.Aoi(from) == interest.Aoi(to) && interest.Poi(from) == interest.Poi(to)
    ensures Kept(arrivals, verdicts) == WantedPackets(arrivals, interest, ofac, from)
  {
    if arrivals != [] {
      var n := |arrivals| - 1;
      KeptIsExact(arrivals[..n], verdicts[..n], interest, ofac, from, to);
      assert Judged(arrivals[n], interest, ofac, from, to, verdicts[n]);
      if Wanted(arrivals[n], interest, ofac, from) {
        SameInterest(Uses(arrivals[n].packet.tx.value, arrivals[n].interestViews), interest, from, to);
      }
    }
  }

  lemma SameInterest(uses: seq<Use>, interest: Interest, from: Time, to: Time)
    requires interest.Aoi(from) == interest.Aoi(to) && interest.Poi(from) == interest.Poi(to)
    requires MeetsInterest(uses, interest, from)
    ensures MeetsInterest(uses, interest, to)
  {
    var i :| 0 <= i < |uses| && Interests(uses[i], interest, from);
    assert Interests(uses[i], interest, to);
  }

  /** Learning about more tables never lets a packet through that was stopped for its
      sanctioned accounts. */
  lemma SanctionedStaysOut(a: Candidate, larger: Views, interestViews: Views, interest: Interest, ofac: set<Pubkey>, now: Time)
    requires Extends(a.ofacViews, larger)
    requires a.packet.tx.Some? && !MissesOfac(Uses(a.packet.tx.value, a.ofacViews), ofac)
    ensures !Wanted(Candidate(a.packet, larger, interestViews), interest, ofac, now)
  {
    var tx := a.packet.tx.value;
    OfacOverUses(tx, ofac, a.ofacViews);
    OfacMonotone(tx, ofac, a.ofacViews, larger);
    OfacOverUses(tx, ofac, larger);
  }
}
