/** Which packets the block engine filter keeps, read off the packets themselves
    (block_engine/src/block_engine.rs). */
module InterestRule {
  import opened Common
  import opened Transactions
  import opened Ofac
  import opened InterestCache
  import opened BlockEngineFilter

  /** A table, as cached when it is read, has a writable entry among the accounts or
      programs of interest or a read-only one among the programs. */
  predicate TableOfInterest(table: TableLookup, cache: TableCache, accounts: set<Pubkey>, programs: set<Pubkey>) {
    && table.accountKey in cache
    && (|| Names(cache[table.accountKey], table.writableIndexes, accounts + programs)
        || Names(cache[table.accountKey], table.readonlyIndexes, programs))
  }

  /** A static key is a program of interest, or an account of interest that may be written;
      or one of the tables is of interest. */
  predicate OfInterest(tx: Transaction, views: Views, accounts: set<Pubkey>, programs: set<Pubkey>) {
    || (exists i :: 0 <= i < |tx.staticKeys| && (tx.staticKeys[i] in programs || (i in tx.maybeWritable && tx.staticKeys[i] in accounts)))
    || (tx.lookups.Some? && exists i :: 0 <= i < |tx.lookups.value| && TableOfInterest(tx.lookups.value[i], ViewAt(views, i), accounts, programs))
  }

  lemma NamesPrefix(addresses: seq<Pubkey>, indexes: seq<nat>, keys: set<Pubkey>)
    requires indexes != []
    ensures var n := |indexes| - 1;
            Names(addresses, indexes, keys) <==> Names(addresses, indexes[..n], keys) || (indexes[n] < |addresses| && addresses[indexes[n]] in keys)
  {
    var n := |indexes| - 1;
    if i :| 0 <= i < |indexes| && indexes[i] < |addresses| && addresses[indexes[i]] in keys {
      assert i < n ==> indexes[..n][i] == indexes[i];
    }
    if i :| 0 <= i < n && indexes[..n][i] < |addresses| && addresses[indexes[..n][i]] in keys {
      assert indexes[i] == indexes[..n][i];
    }
  }

  lemma MeetsOne(u: Use, interest: Interest, now: Time)
    ensures MeetsInterest([u], interest, now) <==> Interests(u, interest, now)
  {
    assert [u][0] == u;
  }

  /** An index list is of interest for its accounts, if writable, and for its programs. */
  lemma {:induction false} IndexInterest(addresses: seq<Pubkey>, indexes: seq<nat>, writable: bool, interest: Interest, now: Time)
    ensures MeetsInterest(IndexUses(addresses, indexes, writable), interest, now)
       <==> Names(addresses, indexes, (if writable then interest.Aoi(now) else {}) + interest.Poi(now))
  {
    var keys := (if writable then interest.Aoi(now) else {}) + interest.Poi(now);
    if indexes != [] {
      var n := |indexes| - 1;
      IndexInterest(addresses, indexes[..n], writable, interest, now);
      NamesPrefix(addresses, indexes, keys);
      if indexes[n] < |addresses| {
        var u := Use(addresses[indexes[n]], writable);
        MeetsConcat(IndexUses(addresses, indexes[..n], writable), [u], interest, now);
        MeetsOne(u, interest, now);
      } else {
        assert IndexUses(addresses, indexes, writable) == IndexUses(addresses, indexes[..n], writable);
      }
    }
  }

  lemma TableInterest(table: TableLookup, cache: TableCache, interest: Interest, now: Time)
    ensures MeetsInterest(LookupUses(table, cache), interest, now)
       <==> TableOfInterest(table, cache, interest.Aoi(now), interest.Poi(now))
  {
    if table.accountKey in cache {
      var addresses := cache[table.accountKey];
      MeetsConcat(IndexUses(addresses, table.writableIndexes, true), IndexUses(addresses, table.readonlyIndexes, false), interest, now);
      IndexInterest(addresses, table.writableIndexes, true, interest, now);
      IndexInterest(addresses, table.readonlyIndexes, false, interest, now);
      assert {} + interest.Poi(now) == interest.Poi(now);
    }
  }

  ghost predicate SomeTable(tables: seq<TableLookup>, views: Views, interest: Interest, now: Time) {
    exists i :: 0 <= i < |tables| && TableOfInterest(tables[i], ViewAt(views, i), interest.Aoi(now), interest.Poi(now))
  }

  lemma SomeTablePrefix(tables: seq<TableLookup>, views: Views, interest: Interest, now: Time)
    requires tables != []
    ensures var n := |tables| - 1;
            SomeTable(tables, views, interest, now)
            <==> SomeTable(tables[..n], views, interest, now) || TableOfInterest(tables[n], ViewAt(views, n), interest.Aoi(now), interest.Poi(now))
  {
    var n := |tables| - 1;
    if i :| 0 <= i < |tables| && TableOfInterest(tables[i], ViewAt(views, i), interest.Aoi(now), interest.Poi(now)) {
      assert i < n ==> tables[..n][i] == tables[i];
    }
    if i :| 0 <= i < n && TableOfInterest(tables[..n][i], ViewAt(views, i), interest.Aoi(now), interest.Poi(now)) {
      assert tables[i] == tables[..n][i];
    }
  }

  lemma {:induction false} TablesInterest(tables: seq<TableLookup>, views: Views, interest: Interest, now: Time)
    ensures MeetsInterest(TableUses(tables, views), interest, now) <==> SomeTable(tables, views, interest, now)
  {
    if tables != [] {
      var n := |tables| - 1;
      TablesInterest(tables[..n], views, interest, now);
      MeetsConcat(TableUses(tables[..n], views), LookupUses(tables[n], ViewAt(views, n)), interest, now);
      TableInterest(tables[n], ViewAt(views, n), interest, now);
      SomeTablePrefix(tables, views, interest, now);
    }
  }

  lemma StaticInterest(tx: Transaction, interest: Interest, now: Time)
    ensures MeetsInterest(StaticUses(tx), interest, now)
       <==> exists i :: 0 <= i < |tx.staticKeys| && (tx.staticKeys[i] in interest.Poi(now) || (i in tx.maybeWritable && tx.staticKeys[i] in interest.Aoi(now)))
  {
    var uses := StaticUses(tx);
    if i :| 0 <= i < |uses| && Interests(uses[i], interest, now) {
      assert tx.staticKeys[i] in interest.Poi(now) || (i in tx.maybeWritable && tx.staticKeys[i] in interest.Aoi(now));
    }
    if i :| 0 <= i < |tx.staticKeys| && (tx.staticKeys[i] in interest.Poi(now) || (i in tx.maybeWritable && tx.staticKeys[i] in interest.Aoi(now))) {
      assert Interests(uses[i], interest, now);
    }
  }

  /** What the interest rule comes to. */
  lemma InterestMeaning(tx: Transaction, views: Views, interest: Interest, now: Time)
    ensures MeetsInterest(Uses(tx, views), interest, now) <==> OfInterest(tx, views, interest.Aoi(now), interest.Poi(now))
  {
    var tables := if tx.lookups.Some? then TableUses(tx.lookups.value, views) else [];
    MeetsConcat(StaticUses(tx), tables, interest, now);
    StaticInterest(tx, interest, now);
    if tx.lookups.Some? {
      TablesInterest(tx.lookups.value, views, interest, now);
    }
  }

  // ---------- the packets kept ----------

  /** Not discarded, decoded, with a wire form, of interest and not sanctioned. */
  predicate ShouldForward(a: Candidate, accounts: set<Pubkey>, programs: set<Pubkey>, ofac: set<Pubkey>) {
    && !a.packet.discard && a.packet.tx.Some? && a.packet.proto.Some?
    && OfInterest(a.packet.tx.value, a.interestViews, accounts, programs)
    && !Sanctioned(a.packet.tx.value, a.ofacViews, ofac)
  }

  lemma WantedMeaning(a: Candidate, interest: Interest, ofac: set<Pubkey>, now: Time)
    ensures Wanted(a, interest, ofac, now) <==> ShouldForward(a, interest.Aoi(now), interest.Poi(now), ofac)
  {
    if a.packet.tx.Some? {
      InterestMeaning(a.packet.tx.value, a.interestViews, interest, now);
      OfacOverUses(a.packet.tx.value, ofac, a.ofacViews);
      SanctionedExactly(a.packet.tx.value, ofac, a.ofacViews);
    }
  }

  ghost function ForwardTest(accounts: set<Pubkey>, programs: set<Pubkey>, ofac: set<Pubkey>): Candidate -> bool {
    a => ShouldForward(a, accounts, programs, ofac)
  }

  /** The wire forms of those that have one. */
  function WireForms(arrivals: seq<Candidate>): seq<ProtoPacket> {
    if arrivals == [] then []
    else (match arrivals[0].packet.proto case Some(p) => [p] case None => []) + WireForms(arrivals[1..])
  }

  lemma {:induction false} WireFormsConcat(a: seq<Candidate>, b: seq<Candidate>)
    ensures WireForms(a + b) == WireForms(a) + WireForms(b)
  {
    if a == [] {
      assert a + b == b;
    } else {
      WireFormsConcat(a[1..], b);
      assert (a + b)[1..] == a[1..] + b && (a + b)[0] == a[0];
    }
  }

  lemma {:induction false} WantedPacketsMeaning(arrivals: seq<Candidate>, interest: Interest, ofac: set<Pubkey>, now: Time)
    ensures WantedPackets(arrivals, interest, ofac, now)
         == WireForms(Filter(ForwardTest(interest.Aoi(now), interest.Poi(now), ofac), arrivals))
  {
    if arrivals != [] {
      var n := |arrivals| - 1;
      var keep := ForwardTest(interest.Aoi(now), interest.Poi(now), ofac);
      WantedPacketsMeaning(arrivals[..n], interest, ofac, now);
      WantedMeaning(arrivals[n], interest, ofac, now);
      assert arrivals == arrivals[..n] + [arrivals[n]];
      FilterConcat(keep, arrivals[..n], [arrivals[n]]);
      WireFormsConcat(Filter(keep, arrivals[..n]), Filter(keep, [arrivals[n]]));
      assert Filter(keep, [arrivals[n]]) == if keep(arrivals[n]) then [arrivals[n]] else [];
    }
  }

  /** As long as no interest runs out during the call, the filter keeps the wire forms of
      exactly the packets that should be forwarded, in order. */
  lemma KeptIsWhatShouldBe(
    arrivals: seq<Candidate>, verdicts: seq<bool>, interest: Interest, ofac: set<Pubkey>, from: Time, to: Time)
    requires AllJudged(arrivals, verdicts, interest, ofac, from, to)
    requires interest.Aoi(from) == interest.Aoi(to) && interest.Poi(from) == interest.Poi(to)
    ensures Kept(arrivals, verdicts) == WireForms(Filter(ForwardTest(interest.Aoi(from), interest.Poi(from), ofac), arrivals))
  {
    KeptIsExact(arrivals, verdicts, interest, ofac, from, to);
    WantedPacketsMeaning(arrivals, interest, ofac, from);
  }
}
