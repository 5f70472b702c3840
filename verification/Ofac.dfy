/** Sanctions filtering (core/src/ofac.rs). The tables of a transaction are looked up one
    after another, so each may be read at a different moment of a refresh. */
module Ofac {
  import opened Common
  import opened Transactions

  predicate IsTxOfacRelated(tx: Transaction, ofac: set<Pubkey>, views: Views) {
    IsOfacAddressInStaticKeys(tx, ofac) || IsOfacAddressInLookupTable(tx, ofac, views)
  }

  predicate IsOfacAddressInStaticKeys(tx: Transaction, ofac: set<Pubkey>) {
    exists i :: 0 <= i < |tx.staticKeys| && tx.staticKeys[i] in ofac
  }

  predicate IsOfacAddressInLookupTable(tx: Transaction, ofac: set<Pubkey>, views: Views) {
    tx.lookups.Some? && ScanTables(tx.lookups.value, ofac, views, 0)
  }

  /** Tables in order from the `i`-th on, leaving at the first hit. */
  predicate ScanTables(tables: seq<TableLookup>, ofac: set<Pubkey>, views: Views, i: nat)
    decreases |tables| - i
  {
    if i >= |tables| then false
    else if ScanTable(tables[i], ofac, ViewAt(views, i)) then true
    else ScanTables(tables, ofac, views, i + 1)
  }

  /** One table, read at one moment; a table missing from the cache is skipped. */
  predicate ScanTable(table: TableLookup, ofac: set<Pubkey>, cache: TableCache) {
    table.accountKey in cache && ScanIndexes(table.writableIndexes + table.readonlyIndexes, ofac, cache[table.accountKey])
  }

  predicate ScanIndexes(indexes: seq<nat>, ofac: set<Pubkey>, addresses: seq<Pubkey>) {
    if indexes == [] then false
    else if Resolve(addresses, indexes[0]).Some? && Resolve(addresses, indexes[0]).value in ofac then true
    else ScanIndexes(indexes[1..], ofac, addresses)
  }

  // ---------- reference definition: the accounts a transaction touches ----------

  /** What one table resolves to at one moment. */
  function LookupAccounts(table: TableLookup, cache: TableCache): seq<Pubkey> {
    if table.accountKey in cache then ResolveAll(cache[table.accountKey], table.writableIndexes + table.readonlyIndexes) else []
  }

  function TableAccounts(tables: seq<TableLookup>, views: Views): seq<Pubkey> {
    if tables == [] then []
    else
      var n := |tables| - 1;
      TableAccounts(tables[..n], views) + LookupAccounts(tables[n], ViewAt(views, n))
  }

  /** Static keys, then the resolvable lookup-table entries. */
  function ResolvedAccounts(tx: Transaction, views: Views): seq<Pubkey> {
    tx.staticKeys + (if tx.lookups.Some? then TableAccounts(tx.lookups.value, views) else [])
  }

  ghost predicate FromTable(tables: seq<TableLookup>, views: Views, a: Pubkey, i: nat) {
    i < |tables| && a in LookupAccounts(tables[i], ViewAt(views, i))
  }

  lemma FromTablePrefix(tables: seq<TableLookup>, views: Views, a: Pubkey, n: nat, i: nat)
    requires i < n <= |tables|
    ensures FromTable(tables[..n], views, a, i) == FromTable(tables, views, a, i)
  {
    assert tables[..n][i] == tables[i];
  }

  ghost predicate FromSomeTable(tables: seq<TableLookup>, views: Views, a: Pubkey) {
    exists i: nat :: FromTable(tables, views, a, i)
  }

  lemma FromLastTable(tables: seq<TableLookup>, views: Views, a: Pubkey)
    requires tables != []
    ensures var n := |tables| - 1;
            FromSomeTable(tables, views, a) <==> FromSomeTable(tables[..n], views, a) || FromTable(tables, views, a, n)
  {
    var n := |tables| - 1;
    if i: nat :| FromTable(tables, views, a, i) {
      if i < n {
        FromTablePrefix(tables, views, a, n, i);
      }
    }
    if i: nat :| FromTable(tables[..n], views, a, i) {
      FromTablePrefix(tables, views, a, n, i);
    }
  }

  lemma {:induction false} TableAccountsMember(tables: seq<TableLookup>, views: Views, a: Pubkey)
    ensures a in TableAccounts(tables, views) <==> FromSomeTable(tables, views, a)
  {
    if tables != [] {
      TableAccountsMember(tables[..|tables| - 1], views, a);
      FromLastTable(tables, views, a);
    }
  }

  lemma {:induction false} ScanIndexesMeaning(indexes: seq<nat>, ofac: set<Pubkey>, addresses: seq<Pubkey>)
    ensures ScanIndexes(indexes, ofac, addresses) <==> exists a :: a in ResolveAll(addresses, indexes) && a in ofac
  {
    if indexes != [] {
      ScanIndexesMeaning(indexes[1..], ofac, addresses);
      var rest := ResolveAll(addresses, indexes[1..]);
      match Resolve(addresses, indexes[0]) {
        case None => assert ResolveAll(addresses, indexes) == rest;
        case Some(b) =>
          assert ResolveAll(addresses, indexes) == [b] + rest;
          assert forall a :: a in [b] + rest <==> a == b || a in rest;
      }
    }
  }

  /** The scan from the `i`-th table on hits exactly if one of those tables does, at its own moment. */
  lemma {:induction false} ScanTablesHits(tables: seq<TableLookup>, ofac: set<Pubkey>, views: Views, i: nat)
    requires i <= |tables|
    ensures ScanTables(tables, ofac, views, i) <==> exists j :: i <= j < |tables| && ScanTable(tables[j], ofac, ViewAt(views, j))
    decreases |tables| - i
  {
    if i < |tables| {
      ScanTablesHits(tables, ofac, views, i + 1);
      assert i <= i < |tables|;
      if j :| i <= j < |tables| && ScanTable(tables[j], ofac, ViewAt(views, j)) {
        assert j != i ==> i + 1 <= j;
      }
    }
  }

  lemma ScanTablesMeaning(tables: seq<TableLookup>, ofac: set<Pubkey>, views: Views)
    ensures ScanTables(tables, ofac, views, 0) <==> exists a :: a in TableAccounts(tables, views) && a in ofac
  {
    ScanTablesHits(tables, ofac, views, 0);
    if j :| 0 <= j < |tables| && ScanTable(tables[j], ofac, ViewAt(views, j)) {
      ScanTableMeaning(tables[j], ofac, ViewAt(views, j));
      var a :| a in LookupAccounts(tables[j], ViewAt(views, j)) && a in ofac;
      assert FromTable(tables, views, a, j);
      TableAccountsMember(tables, views, a);
    }
    if a :| a in TableAccounts(tables, views) && a in ofac {
      TableAccountsMember(tables, views, a);
      var j: nat :| FromTable(tables, views, a, j);
      ScanTableMeaning(tables[j], ofac, ViewAt(views, j));
    }
  }

  lemma ScanTableMeaning(table: TableLookup, ofac: set<Pubkey>, cache: TableCache)
    ensures ScanTable(table, ofac, cache) <==> exists a :: a in LookupAccounts(table, cache) && a in ofac
  {
    if table.accountKey in cache {
      ScanIndexesMeaning(table.writableIndexes + table.readonlyIndexes, ofac, cache[table.accountKey]);
    }
  }

  /** A transaction is sanctioned exactly when one of the accounts it resolves to is. */
  lemma OfacMeaning(tx: Transaction, ofac: set<Pubkey>, views: Views)
    ensures IsTxOfacRelated(tx, ofac, views) <==> exists a :: a in ResolvedAccounts(tx, views) && a in ofac
  {
    if tx.lookups.Some? {
      ScanTablesMeaning(tx.lookups.value, ofac, views);
    }
    assert forall i :: 0 <= i < |tx.staticKeys| ==> tx.staticKeys[i] in ResolvedAccounts(tx, views);
  }

  /** Some entry of the index list that the table can resolve is one of `keys`. */
  predicate Names(addresses: seq<Pubkey>, indexes: seq<nat>, keys: set<Pubkey>) {
    exists i :: 0 <= i < |indexes| && indexes[i] < |addresses| && addresses[indexes[i]] in keys
  }

  /** A static key, or an entry of one of the tables, is sanctioned. */
  predicate Sanctioned(tx: Transaction, views: Views, ofac: set<Pubkey>) {
    || (exists i :: 0 <= i < |tx.staticKeys| && tx.staticKeys[i] in ofac)
    || (tx.lookups.Some? && exists i :: 0 <= i < |tx.lookups.value| && TableSanctioned(tx.lookups.value[i], ViewAt(views, i), ofac))
  }

  predicate TableSanctioned(table: TableLookup, cache: TableCache, ofac: set<Pubkey>) {
    && table.accountKey in cache
    && (Names(cache[table.accountKey], table.writableIndexes, ofac) || Names(cache[table.accountKey], table.readonlyIndexes, ofac))
  }

  lemma TableSanctionedExactly(table: TableLookup, cache: TableCache, ofac: set<Pubkey>)
    ensures ScanTable(table, ofac, cache) <==> TableSanctioned(table, cache, ofac)
  {
    if table.accountKey in cache {
      var addresses, w, r := cache[table.accountKey], table.writableIndexes, table.readonlyIndexes;
      ScanTableMeaning(table, ofac, cache);
      forall a ensures a in ResolveAll(addresses, w + r) && a in ofac ==> Names(addresses, w, ofac) || Names(addresses, r, ofac) {
        ResolveAllMember(addresses, w + r, a);
        if i :| 0 <= i < |w + r| && (w + r)[i] < |addresses| && addresses[(w + r)[i]] == a {
          assert if i < |w| then (w + r)[i] == w[i] else (w + r)[i] == r[i - |w|];
        }
      }
      if i :| 0 <= i < |w| && w[i] < |addresses| && addresses[w[i]] in ofac {
        ResolveAllMember(addresses, w + r, addresses[w[i]]);
        assert (w + r)[i] == w[i];
      }
      if i :| 0 <= i < |r| && r[i] < |addresses| && addresses[r[i]] in ofac {
        ResolveAllMember(addresses, w + r, addresses[r[i]]);
        assert (w + r)[|w| + i] == r[i];
      }
    }
  }

  /** What the test comes to, read off the transaction and the tables as they are read. */
  lemma SanctionedExactly(tx: Transaction, ofac: set<Pubkey>, views: Views)
    ensures IsTxOfacRelated(tx, ofac, views) <==> Sanctioned(tx, views, ofac)
  {
    if tx.lookups.Some? {
      var tables := tx.lookups.value;
      ScanTablesHits(tables, ofac, views, 0);
      forall i | 0 <= i < |tables|
        ensures ScanTable(tables[i], ofac, ViewAt(views, i)) <==> TableSanctioned(tables[i], ViewAt(views, i), ofac)
      {
        TableSanctionedExactly(tables[i], ViewAt(views, i), ofac);
      }
    }
  }

  /** With nothing sanctioned, nothing is filtered: the empty-list shortcut of the callers is the general rule. */
  lemma NoSanctionsNoHits(tx: Transaction, views: Views)
    ensures !IsTxOfacRelated(tx, {}, views)
  {
    OfacMeaning(tx, {}, views);
  }

  /** At every moment `larger` has all that `views` has. */
  ghost predicate Extends(views: Views, larger: Views) {
    forall i: nat, k :: k in ViewAt(views, i) ==> k in ViewAt(larger, i) && ViewAt(larger, i)[k] == ViewAt(views, i)[k]
  }

  /** Learning about more tables can only add hits. */
  lemma OfacMonotone(tx: Transaction, ofac: set<Pubkey>, views: Views, larger: Views)
    requires Extends(views, larger) && IsTxOfacRelated(tx, ofac, views)
    ensures IsTxOfacRelated(tx, ofac, larger)
  {
    OfacMeaning(tx, ofac, views);
    OfacMeaning(tx, ofac, larger);
    var a :| a in ResolvedAccounts(tx, views) && a in ofac;
    if a !in tx.staticKeys {
      var tables := tx.lookups.value;
      TableAccountsMember(tables, views, a);
      TableAccountsMember(tables, larger, a);
      var i: nat :| FromTable(tables, views, a, i);
      assert tables[i].accountKey in ViewAt(views, i);
      assert FromTable(tables, larger, a, i);
    }
    assert a in ResolvedAccounts(tx, larger);
  }
}
