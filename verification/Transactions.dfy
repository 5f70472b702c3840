/** Transactions and packets as far as the relayer looks into them. */
module Transactions {
  import opened Common

  /** A 32-byte key, read as a number. */
  type Pubkey = nat

  /** A reference to an address lookup table with the positions used in it. */
  datatype TableLookup = TableLookup(
    accountKey: Pubkey,
    writableIndexes: seq<nat>,
    readonlyIndexes: seq<nat>)

  /** `maybeWritable` holds the positions of `staticKeys` that may be write-locked.
      Legacy messages have no lookup list at all. */
  datatype Transaction = Transaction(
    staticKeys: seq<Pubkey>,
    maybeWritable: set<nat>,
    lookups: Option<seq<TableLookup>>)

  /** Cached address lists of the lookup tables. */
  type TableCache = map<Pubkey, seq<Pubkey>>

  /** The wire form handed to subscribers. */
  datatype ProtoPacket = ProtoPacket(data: seq<int>)

  /** A received packet: its discard mark, what deserialization makes of it and
      what conversion to the wire form makes of it. */
  datatype Packet = Packet(discard: bool, tx: Option<Transaction>, proto: Option<ProtoPacket>)

  /** The lookup-table cache at the moments when the first, second, ... table of a
      transaction is read; another thread refreshes it all the while. */
  type Views = seq<TableCache>

  /** The cache as the `i`-th table is read; the last moment given stands for all later ones. */
  function ViewAt(views: Views, i: nat): TableCache {
    if views == [] then map[] else if i < |views| then views[i] else views[|views| - 1]
  }

  /** A packet together with what a pass over its tables gets to see. */
  datatype Arrival = Arrival(packet: Packet, views: Views)

  /** The address at a referenced position, if the table has one there. */
  function Resolve(addresses: seq<Pubkey>, index: nat): Option<Pubkey> {
    if index < |addresses| then Some(addresses[index]) else None
  }

  /** All addresses named by the index list that the table can resolve, in order. */
  function ResolveAll(addresses: seq<Pubkey>, indexes: seq<nat>): seq<Pubkey> {
    if indexes == [] then []
    else (match Resolve(addresses, indexes[0]) case Some(a) => [a] case None => [])
         + ResolveAll(addresses, indexes[1..])
  }

  lemma {:induction false} ResolveAllMember(addresses: seq<Pubkey>, indexes: seq<nat>, a: Pubkey)
    ensures a in ResolveAll(addresses, indexes)
        <==> exists i :: 0 <= i < |indexes| && indexes[i] < |addresses| && addresses[indexes[i]] == a
  {
    if indexes != [] {
      ResolveAllMember(addresses, indexes[1..], a);
      if exists i :: 0 <= i < |indexes| && indexes[i] < |addresses| && addresses[indexes[i]] == a {
        var i :| 0 <= i < |indexes| && indexes[i] < |addresses| && addresses[indexes[i]] == a;
        if i > 0 {
          assert indexes[1..][i - 1] == indexes[i];
        }
      }
      if a in ResolveAll(addresses, indexes[1..]) {
        var i :| 0 <= i < |indexes[1..]| && indexes[1..][i] < |addresses| && addresses[indexes[1..][i]] == a;
        assert indexes[i + 1] == indexes[1..][i];
      }
    }
  }
}
