/** The shared lookup-table cache and its refresh, as seen by concurrent readers
    (transaction-relayer/src/main.rs). */
module LookupTables {
  import opened Common
  import opened Transactions
  import opened Ofac

  /** One fetched account: its key, and its addresses when the account data decodes. */
  datatype Fetched = Fetched(key: Pubkey, table: Option<seq<Pubkey>>)

  /** The decodable fetched tables; a repeated key keeps its last table. */
  function Decodable(fetched: seq<Fetched>): TableCache {
    if fetched == [] then map[]
    else
      var last := fetched[|fetched| - 1];
      var before := Decodable(fetched[..|fetched| - 1]);
      if last.table.Some? then before[last.key := last.table.value] else before
  }

  lemma {:induction false} DecodableMeaning(fetched: seq<Fetched>, k: Pubkey)
    ensures k in Decodable(fetched) <==> exists i :: 0 <= i < |fetched| && fetched[i].key == k && fetched[i].table.Some?
    ensures k in Decodable(fetched) ==> Fetched(k, Some(Decodable(fetched)[k])) in fetched
  {
    if fetched != [] {
      var n := |fetched| - 1;
      DecodableMeaning(fetched[..n], k);
      assert fetched == fetched[..n] + [fetched[n]];
    }
  }

  /** The `i`-th fetched account is the last one with a decodable table for the key. */
  ghost predicate LastDecodable(fetched: seq<Fetched>, k: Pubkey, i: nat) {
    && i < |fetched| && fetched[i].key == k && fetched[i].table.Some?
    && forall j :: i < j < |fetched| ==> !(fetched[j].key == k && fetched[j].table.Some?)
  }

  lemma LastDecodablePrefix(fetched: seq<Fetched>, k: Pubkey, i: nat)
    requires fetched != [] && LastDecodable(fetched[..|fetched| - 1], k, i)
    requires !(fetched[|fetched| - 1].key == k && fetched[|fetched| - 1].table.Some?)
    ensures LastDecodable(fetched, k, i)
  {
    forall j | i < j < |fetched| ensures !(fetched[j].key == k && fetched[j].table.Some?) {
      assert j < |fetched| - 1 ==> fetched[..|fetched| - 1][j] == fetched[j];
    }
  }

  /** A key fetched more than once keeps its last decodable table. */
  lemma {:induction false} LastTableWins(fetched: seq<Fetched>, k: Pubkey)
    requires k in Decodable(fetched)
    ensures exists i: nat :: LastDecodable(fetched, k, i) && fetched[i].table == Some(Decodable(fetched)[k])
  {
    var n := |fetched| - 1;
    if fetched[n].key == k && fetched[n].table.Some? {
      assert LastDecodable(fetched, k, n);
    } else {
      LastTableWins(fetched[..n], k);
      var i: nat :| LastDecodable(fetched[..n], k, i) && fetched[..n][i].table == Some(Decodable(fetched[..n])[k]);
      LastDecodablePrefix(fetched, k, i);
    }
  }

  /** What a reader may see while a refresh from `old` to the fetched tables is under way. */
  ghost predicate ReaderSafe(before: TableCache, fetched: seq<Fetched>, view: TableCache) {
    && (forall k :: k in before && k in Decodable(fetched) ==> k in view)
    && (forall k :: k in view ==> (k in before && view[k] == before[k]) || Fetched(k, Some(view[k])) in fetched)
  }

  /** The view shows what the fetch says about the key: its addresses, or that it is gone. */
  ghost predicate AsFetched(fetched: seq<Fetched>, view: TableCache, k: Pubkey) {
    (k in view <==> k in Decodable(fetched)) && (k in view && k in Decodable(fetched) ==> view[k] == Decodable(fetched)[k])
  }

  /** All decodable tables fetched for the key are the same, as when it is fetched once. */
  ghost predicate Unambiguous(fetched: seq<Fetched>, k: Pubkey) {
    forall f, g :: f in fetched && g in fetched && f.key == k && g.key == k && f.table.Some? && g.table.Some? ==> f.table == g.table
  }

  /** A reader who found a key as fetched in one view finds it so in the later one. */
  ghost predicate NoGoingBack(fetched: seq<Fetched>, earlier: TableCache, later: TableCache) {
    forall k :: Unambiguous(fetched, k) && AsFetched(fetched, earlier, k) ==> AsFetched(fetched, later, k)
  }

  /** The views of a refresh, those from position `from` on: each is safe by itself, and
      from the cache before the refresh on no view goes back behind an earlier one. */
  ghost predicate SafeRefresh(before: TableCache, fetched: seq<Fetched>, views: seq<TableCache>, from: nat) {
    && (forall i :: from <= i < |views| ==> ReaderSafe(before, fetched, views[i]) && NoGoingBack(fetched, before, views[i]))
    && (forall i, j :: from <= i < j < |views| ==> NoGoingBack(fetched, views[i], views[j]))
  }

  ghost function Latest(before: TableCache, views: seq<TableCache>, from: nat): TableCache {
    if from < |views| then views[|views| - 1] else before
  }

  lemma NextView(before: TableCache, fetched: seq<Fetched>, views: seq<TableCache>, from: nat, next: TableCache)
    requires from <= |views| && SafeRefresh(before, fetched, views, from)
    requires ReaderSafe(before, fetched, next) && NoGoingBack(fetched, Latest(before, views, from), next)
    ensures SafeRefresh(before, fetched, views + [next], from) && Latest(before, views + [next], from) == next
  {
    forall i | from <= i < |views| ensures NoGoingBack(fetched, views[i], next) {
      assert i < |views| - 1 ==> NoGoingBack(fetched, views[i], views[|views| - 1]);
    }
  }

  /** `views` records the cache after every atomic map operation: between any two of
      them a reader may look. */
  class LookupTableCache {
    var tables: TableCache
    ghost var views: seq<TableCache>

    constructor ()
      ensures tables == map[] && views == [map[]]
    {
      tables := map[];
      views := [map[]];
    }

    /** `walk` is the order in which the final sweep visits the keys. */
    method Refresh(accounts: Result<seq<Fetched>, string>, walk: seq<Pubkey>) returns (r: Result<(), string>)
      requires accounts.Success? ==> Enumerates(walk, tables.Keys + Decodable(accounts.value).Keys)
      modifies this
      ensures r.Success? <==> accounts.Success?
      ensures accounts.Failure? ==> r == Failure(accounts.error) && tables == old(tables) && views == old(views)
      ensures accounts.Success? ==> tables == Decodable(accounts.value)
      ensures old(views) <= views
      ensures accounts.Success? ==> SafeRefresh(old(tables), accounts.value, views, |old(views)|)
    {
      if accounts.Failure? {
        return Failure(accounts.error);
      }
      var fetched := accounts.value;
      var newPubkeys := InsertTables(fetched);
      SweepClosedTables(fetched, newPubkeys, walk, old(tables), |old(views)|);
      r := Success(());
    }

    /** First phase: every decodable table is written over whatever was cached. */
    method InsertTables(fetched: seq<Fetched>) returns (newPubkeys: set<Pubkey>)
      modifies this
      ensures newPubkeys == Decodable(fetched).Keys
      ensures tables == old(tables) + Decodable(fetched)
      ensures old(views) <= views
      ensures SafeRefresh(old(tables), fetched, views, |old(views)|) && Latest(old(tables), views, |old(views)|) == tables
    {
      newPubkeys := {};
      var i := 0;
      while i < |fetched|
        invariant 0 <= i <= |fetched|
        invariant newPubkeys == Decodable(fetched[..i]).Keys
        invariant tables == old(tables) + Decodable(fetched[..i])
        invariant old(views) <= views
        invariant SafeRefresh(old(tables), fetched, views, |old(views)|)
        invariant Latest(old(tables), views, |old(views)|) == tables
      {
        assert fetched[..i + 1][..i] == fetched[..i];
        if fetched[i].table.Some? {
          newPubkeys := newPubkeys + {fetched[i].key};
          InsertionGoesOn(old(tables), fetched, tables, i);
          NextView(old(tables), fetched, views, |old(views)|, tables[fetched[i].key := fetched[i].table.value]);
          tables := tables[fetched[i].key := fetched[i].table.value];
          views := views + [tables];
        }
        i := i + 1;
      }
      assert fetched[..i] == fetched;
    }

    /** Second phase: closed tables are removed one key at a time. The refresh began
        with `before` and its views with position `from`. */
    method SweepClosedTables(fetched: seq<Fetched>, newPubkeys: set<Pubkey>, walk: seq<Pubkey>, ghost before: TableCache, ghost from: nat)
      requires newPubkeys == Decodable(fetched).Keys
      requires tables == before + Decodable(fetched)
      requires Enumerates(walk, tables.Keys)
      requires from <= |views| && SafeRefresh(before, fetched, views, from) && Latest(before, views, from) == tables
      modifies this
      ensures tables == Decodable(fetched)
      ensures old(views) <= views && SafeRefresh(before, fetched, views, from)
    {
      var n := 0;
      while n < |walk|
        invariant 0 <= n <= |walk|
        invariant tables == Swept(old(tables), newPubkeys, walk[..n])
        invariant old(views) <= views && SafeRefresh(before, fetched, views, from) && Latest(before, views, from) == tables
      {
        SweptNext(old(tables), newPubkeys, walk, n);
        if walk[n] !in newPubkeys {
          SweepGoesOn(before, fetched, tables, walk[n]);
          NextView(before, fetched, views, from, tables - {walk[n]});
          tables := tables - {walk[n]};
          views := views + [tables];
        }
        n := n + 1;
      }
      SweptAll(before, fetched, walk);
      assert walk[..n] == walk;
    }
  }

  /** The cache after the sweep has visited the keys in `visited`. */
  ghost function Swept(tables: TableCache, keep: set<Pubkey>, visited: seq<Pubkey>): TableCache {
    map k | k in tables && (k in keep || k !in visited) :: tables[k]
  }

  lemma SweptNext(tables: TableCache, keep: set<Pubkey>, walk: seq<Pubkey>, n: nat)
    requires n < |walk|
    ensures Swept(tables, keep, walk[..n + 1])
         == if walk[n] in keep then Swept(tables, keep, walk[..n]) else Swept(tables, keep, walk[..n]) - {walk[n]}
  {
    assert walk[..n + 1] == walk[..n] + [walk[n]];
  }

  lemma SweptAll(before: TableCache, fetched: seq<Fetched>, walk: seq<Pubkey>)
    requires Enumerates(walk, (before + Decodable(fetched)).Keys)
    ensures Swept(before + Decodable(fetched), Decodable(fetched).Keys, walk) == Decodable(fetched)
  {
  }

  lemma InsertionGoesOn(before: TableCache, fetched: seq<Fetched>, view: TableCache, n: nat)
    requires n < |fetched| && fetched[n].table.Some? && view == before + Decodable(fetched[..n])
    ensures var next := view[fetched[n].key := fetched[n].table.value];
            && next == before + Decodable(fetched[..n + 1])
            && ReaderSafe(before, fetched, next) && NoGoingBack(fetched, view, next)
  {
    assert fetched[..n + 1][..n] == fetched[..n];
    InsertionsAreSafe(before, fetched, n + 1);
    InsertedAsFetched(fetched, view, n);
  }

  lemma InsertedAsFetched(fetched: seq<Fetched>, view: TableCache, n: nat)
    requires n < |fetched| && fetched[n].table.Some?
    ensures NoGoingBack(fetched, view, view[fetched[n].key := fetched[n].table.value])
  {
    DecodableMeaning(fetched, fetched[n].key);
    assert fetched[n] in fetched;
  }

  /** Between `n` and `m` insertions of a refresh the key does not go back. */
  ghost predicate StaysAsFetched(before: TableCache, fetched: seq<Fetched>, k: Pubkey, n: nat, m: nat)
    requires n <= m <= |fetched|
  {
    AsFetched(fetched, before + Decodable(fetched[..n]), k) ==> AsFetched(fetched, before + Decodable(fetched[..m]), k)
  }

  /** A key never goes back, whatever was cached, exactly if the fetch does not contradict
      itself about it. */
  lemma NeverGoesBackExactly(fetched: seq<Fetched>, k: Pubkey)
    ensures (forall before, n: nat, m: nat :: n <= m <= |fetched| ==> StaysAsFetched(before, fetched, k, n, m))
       <==> Unambiguous(fetched, k)
  {
    if Unambiguous(fetched, k) {
      forall before, n: nat, m: nat | n <= m <= |fetched| ensures StaysAsFetched(before, fetched, k, n, m) {
        UnambiguousStays(before, fetched, k, n, m);
      }
    } else {
      var i := OtherVersion(fetched, k);
      DecodableMeaning(fetched, k);
      var before: TableCache := map[k := Decodable(fetched)[k]];
      assert fetched[..i + 1][..i] == fetched[..i];
      assert !StaysAsFetched(before, fetched, k, 0, i + 1);
    }
  }

  lemma OtherVersion(fetched: seq<Fetched>, k: Pubkey) returns (i: nat)
    requires !Unambiguous(fetched, k)
    ensures k in Decodable(fetched)
    ensures i < |fetched| && fetched[i].key == k && fetched[i].table.Some? && fetched[i].table.value != Decodable(fetched)[k]
  {
    var f, g :| f in fetched && g in fetched && f.key == k && g.key == k && f.table.Some? && g.table.Some? && f.table != g.table;
    DecodableMeaning(fetched, k);
    var other := if f.table.value != Decodable(fetched)[k] then f else g;
    i :| 0 <= i < |fetched| && fetched[i] == other;
  }

  lemma {:induction false} UnambiguousStays(before: TableCache, fetched: seq<Fetched>, k: Pubkey, n: nat, m: nat)
    requires n <= m <= |fetched| && Unambiguous(fetched, k)
    ensures StaysAsFetched(before, fetched, k, n, m)
    decreases m
  {
    if n < m {
      UnambiguousStays(before, fetched, k, n, m - 1);
      if fetched[m - 1].table.Some? {
        InsertionGoesOn(before, fetched, before + Decodable(fetched[..m - 1]), m - 1);
      } else {
        assert fetched[..m][..m - 1] == fetched[..m - 1];
      }
    }
  }

  lemma InsertionsAreSafe(before: TableCache, fetched: seq<Fetched>, n: nat)
    requires n <= |fetched|
    ensures ReaderSafe(before, fetched, before + Decodable(fetched[..n]))
  {
    var view := before + Decodable(fetched[..n]);
    forall k | k in view ensures (k in before && view[k] == before[k]) || Fetched(k, Some(view[k])) in fetched {
      DecodableMeaning(fetched[..n], k);
    }
  }

  /** Removing a closed table takes nothing from the fetch and leaves the rest alone. */
  lemma SweepGoesOn(before: TableCache, fetched: seq<Fetched>, view: TableCache, k: Pubkey)
    requires forall p :: p in view ==> p in before + Decodable(fetched) && view[p] == (before + Decodable(fetched))[p]
    requires forall p :: p in Decodable(fetched) ==> p in view
    requires k !in Decodable(fetched)
    ensures ReaderSafe(before, fetched, view - {k}) && NoGoingBack(fetched, view, view - {k})
  {
    forall p | p in view - {k} ensures (p in before && view[p] == before[p]) || Fetched(p, Some(view[p])) in fetched {
      DecodableMeaning(fetched, p);
    }
  }

  /** A table the refresh does not change: cached and fetched again with the same
      addresses, or neither cached nor decodable in the fetch. */
  ghost predicate Untouched(before: TableCache, fetched: seq<Fetched>, k: Pubkey) {
    if k in before
    then k in Decodable(fetched) && forall f :: f in fetched && f.key == k && f.table.Some? ==> f.table.value == before[k]
    else k !in Decodable(fetched)
  }

  /** Every moment at which a table is read lies in the refresh. */
  ghost predicate AllSafe(before: TableCache, fetched: seq<Fetched>, views: Views) {
    views != [] && forall i :: 0 <= i < |views| ==> ReaderSafe(before, fetched, views[i])
  }

  lemma UntouchedReads(before: TableCache, fetched: seq<Fetched>, view: TableCache, k: Pubkey)
    requires ReaderSafe(before, fetched, view) && Untouched(before, fetched, k)
    ensures (k in view <==> k in before) && (k in view ==> view[k] == before[k])
  {
    DecodableMeaning(fetched, k);
  }

  /** While its tables are not changed by the refresh, a transaction gets the verdict of
      the cache before the refresh, however the moments at which its tables are read are
      spread over the refresh. */
  lemma StableVerdictDuringRefresh(tx: Transaction, ofac: set<Pubkey>, before: TableCache, fetched: seq<Fetched>, views: Views)
    requires AllSafe(before, fetched, views)
    requires tx.lookups.Some? ==>
               forall i :: 0 <= i < |tx.lookups.value| ==> Untouched(before, fetched, tx.lookups.value[i].accountKey)
    ensures IsTxOfacRelated(tx, ofac, views) == IsTxOfacRelated(tx, ofac, [before])
  {
    if tx.lookups.Some? {
      var tables := tx.lookups.value;
      ScanTablesHits(tables, ofac, views, 0);
      ScanTablesHits(tables, ofac, [before], 0);
      forall i | 0 <= i < |tables|
        ensures ScanTable(tables[i], ofac, ViewAt(views, i)) == ScanTable(tables[i], ofac, ViewAt([before], i))
      {
        assert Untouched(before, fetched, tables[i].accountKey);
        UntouchedReads(before, fetched, ViewAt(views, i), tables[i].accountKey);
      }
    }
  }

  /** The table hits in the old cache and in every fetched version of it. */
  ghost predicate HitsThroughout(table: TableLookup, ofac: set<Pubkey>, before: TableCache, fetched: seq<Fetched>) {
    && ScanTable(table, ofac, before)
    && table.accountKey in Decodable(fetched)
    && (forall f :: f in fetched && f.key == table.accountKey && f.table.Some? ==> ScanTable(table, ofac, map[f.key := f.table.value]))
  }

  /** Sanctioned before and sanctioned in the fetch means sanctioned at every moment of the refresh. */
  lemma SanctionedThroughoutRefresh(tx: Transaction, ofac: set<Pubkey>, before: TableCache, fetched: seq<Fetched>, views: Views, i: nat)
    requires AllSafe(before, fetched, views) && tx.lookups.Some? && i < |tx.lookups.value|
    requires HitsThroughout(tx.lookups.value[i], ofac, before, fetched)
    ensures IsTxOfacRelated(tx, ofac, views)
  {
    var tables := tx.lookups.value;
    var k, view := tables[i].accountKey, ViewAt(views, i);
    assert ReaderSafe(before, fetched, view) && k in view;
    if !(k in before && view[k] == before[k]) {
      assert Fetched(k, Some(view[k])) in fetched;
    }
    assert ScanTable(tables[i], ofac, view);
    ScanTablesHits(tables, ofac, views, 0);
  }
}
