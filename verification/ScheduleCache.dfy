/** The leader schedule cache (relayer/src/schedule_cache.rs) and the authorization
    that reads it (transaction-relayer/src/main.rs). */
module ScheduleCache {
  import opened Common
  import opened Transactions

  type Slot = nat

  type Schedule = map<Slot, Pubkey>

  datatype EpochInfo = EpochInfo(absoluteSlot: nat, slotIndex: nat)

  /** One leader of the fetched schedule: its key when the string parses, and its
      slots relative to the start of the epoch. */
  datatype Entry = Entry(leader: Option<Pubkey>, slots: seq<nat>)

  function AddSlots(schedule: Schedule, leader: Pubkey, slots: seq<nat>, offset: nat): Schedule {
    if slots == [] then schedule
    else AddSlots(schedule, leader, slots[..|slots| - 1], offset)[slots[|slots| - 1] + offset := leader]
  }

  /** The map built from the entries in the order they are visited. */
  function Rebuild(entries: seq<Entry>, offset: nat): Schedule {
    if entries == [] then map[]
    else
      var last := entries[|entries| - 1];
      var before := Rebuild(entries[..|entries| - 1], offset);
      if last.leader.Some? then AddSlots(before, last.leader.value, last.slots, offset) else before
  }

  class LeaderScheduleCache {
    var schedule: Schedule

    constructor ()
      ensures schedule == map[]
    {
      schedule := map[];
    }

    /** The two RPC answers are inputs; `fetched` is in hash-map iteration order. */
    method UpdateLeaderCache(epoch: Option<EpochInfo>, fetched: Option<seq<Entry>>) returns (ok: bool)
      requires epoch.Some? ==> epoch.value.slotIndex <= epoch.value.absoluteSlot
      modifies this
      ensures ok <==> epoch.Some? && fetched.Some?
      ensures ok ==> schedule == Rebuild(fetched.value, epoch.value.absoluteSlot - epoch.value.slotIndex)
      ensures !ok ==> schedule == old(schedule)
    {
      if epoch.None? || fetched.None? {
        return false;
      }
      var entries, offset := fetched.value, epoch.value.absoluteSlot - epoch.value.slotIndex;
      var newSchedule: Schedule := map[];
      var i := 0;
      while i < |entries|
        invariant 0 <= i <= |entries|
        invariant newSchedule == Rebuild(entries[..i], offset)
      {
        assert entries[..i + 1][..i] == entries[..i];
        if entries[i].leader.Some? {
          var leader, slots := entries[i].leader.value, entries[i].slots;
          ghost var before := newSchedule;
          var j := 0;
          while j < |slots|
            invariant 0 <= j <= |slots|
            invariant newSchedule == AddSlots(before, leader, slots[..j], offset)
          {
            assert slots[..j + 1][..j] == slots[..j];
            newSchedule := newSchedule[slots[j] + offset := leader];
            j := j + 1;
          }
          assert slots[..j] == slots;
        }
        i := i + 1;
      }
      assert entries[..i] == entries;
      schedule := newSchedule;
      ok := true;
    }
  }

  /** Entry `e` assigns the relative slot `rel` to `leader`. */
  predicate Claims(e: Entry, leader: Pubkey, rel: nat) {
    e.leader == Some(leader) && rel in e.slots
  }

  /** No slot is given to two different leaders. */
  ghost predicate Disjoint(entries: seq<Entry>) {
    forall e, f, p, q, rel :: e in entries && f in entries && Claims(e, p, rel) && Claims(f, q, rel) ==> p == q
  }

  lemma {:induction false} AddSlotsMeaning(schedule: Schedule, leader: Pubkey, slots: seq<nat>, offset: nat)
    ensures forall s :: s in AddSlots(schedule, leader, slots, offset)
                   <==> s in schedule || (offset <= s && s - offset in slots)
    ensures forall s :: s in AddSlots(schedule, leader, slots, offset) ==>
                AddSlots(schedule, leader, slots, offset)[s] ==
                  if offset <= s && s - offset in slots then leader else schedule[s]
  {
    if slots != [] {
      var n := |slots| - 1;
      AddSlotsMeaning(schedule, leader, slots[..n], offset);
      assert slots == slots[..n] + [slots[n]];
    }
  }

  /** Some entry gives the absolute slot `s` to `p`. */
  ghost predicate Claimed(entries: seq<Entry>, offset: nat, p: Pubkey, s: Slot) {
    exists e :: e in entries && offset <= s && Claims(e, p, s - offset)
  }

  lemma {:induction false} RebuildMeaning(entries: seq<Entry>, offset: nat, s: Slot)
    ensures s in Rebuild(entries, offset) ==> Claimed(entries, offset, Rebuild(entries, offset)[s], s)
    ensures forall p :: Claimed(entries, offset, p, s) ==> s in Rebuild(entries, offset)
  {
    if entries != [] {
      var n := |entries| - 1;
      var last := entries[n];
      RebuildMeaning(entries[..n], offset, s);
      assert entries == entries[..n] + [last];
      if last.leader.Some? {
        AddSlotsMeaning(Rebuild(entries[..n], offset), last.leader.value, last.slots, offset);
        if offset <= s && s - offset in last.slots {
          assert Claims(last, last.leader.value, s - offset) && Rebuild(entries, offset)[s] == last.leader.value;
          assert last in entries;
        }
      }
      forall p | Claimed(entries, offset, p, s) ensures s in Rebuild(entries, offset) {
        var e :| e in entries && offset <= s && Claims(e, p, s - offset);
        assert e != last ==> Claimed(entries[..n], offset, p, s);
      }
      if s in Rebuild(entries[..n], offset) {
        var e :| e in entries[..n] && offset <= s && Claims(e, Rebuild(entries[..n], offset)[s], s - offset);
        assert e in entries && Claims(e, Rebuild(entries[..n], offset)[s], s - offset);
      }
    }
  }

  /** The `i`-th entry is the last one visited that gives the absolute slot to anybody. */
  ghost predicate LastClaim(entries: seq<Entry>, offset: nat, s: Slot, i: nat) {
    && i < |entries| && offset <= s && entries[i].leader.Some? && s - offset in entries[i].slots
    && forall j :: i < j < |entries| ==> !(entries[j].leader.Some? && s - offset in entries[j].slots)
  }

  lemma LastClaimPrefix(entries: seq<Entry>, offset: nat, s: Slot, i: nat)
    requires entries != [] && LastClaim(entries[..|entries| - 1], offset, s, i)
    requires !(entries[|entries| - 1].leader.Some? && s - offset in entries[|entries| - 1].slots)
    ensures LastClaim(entries, offset, s, i)
  {
    forall j | i < j < |entries| ensures !(entries[j].leader.Some? && s - offset in entries[j].slots) {
      assert j < |entries| - 1 ==> entries[..|entries| - 1][j] == entries[j];
    }
  }

  /** Where leaders share a slot, the one visited last has it. */
  lemma {:induction false} LastClaimWins(entries: seq<Entry>, offset: nat, s: Slot)
    requires s in Rebuild(entries, offset)
    ensures exists i: nat :: LastClaim(entries, offset, s, i) && entries[i].leader == Some(Rebuild(entries, offset)[s])
  {
    var n := |entries| - 1;
    var last := entries[n];
    if last.leader.Some? {
      AddSlotsMeaning(Rebuild(entries[..n], offset), last.leader.value, last.slots, offset);
    }
    if offset <= s && last.leader.Some? && s - offset in last.slots {
      assert LastClaim(entries, offset, s, n);
    } else {
      LastClaimWins(entries[..n], offset, s);
      var i: nat :| LastClaim(entries[..n], offset, s, i) && entries[..n][i].leader == Some(Rebuild(entries[..n], offset)[s]);
      LastClaimPrefix(entries, offset, s, i);
    }
  }

  /** With one leader per slot the rebuilt map does not depend on the iteration order. */
  lemma RebuildIgnoresOrder(entries: seq<Entry>, other: seq<Entry>, offset: nat)
    requires multiset(entries) == multiset(other) && Disjoint(entries)
    ensures Rebuild(entries, offset) == Rebuild(other, offset)
  {
    forall e ensures e in entries <==> e in other {
      assert e in entries <==> e in multiset(entries);
      assert e in other <==> e in multiset(other);
    }
    forall s
      ensures s in Rebuild(entries, offset) <==> s in Rebuild(other, offset)
      ensures s in Rebuild(entries, offset) ==> Rebuild(entries, offset)[s] == Rebuild(other, offset)[s]
    {
      RebuildMeaning(entries, offset, s);
      RebuildMeaning(other, offset, s);
      assert forall p :: Claimed(entries, offset, p, s) <==> Claimed(other, offset, p, s);
    }
  }

  /** Moving an entry to the end makes its claims win. */
  lemma LastEntryWins(entries: seq<Entry>, i: nat, leader: Pubkey, rel: nat, offset: nat) returns (moved: seq<Entry>)
    requires i < |entries| && Claims(entries[i], leader, rel)
    ensures multiset(moved) == multiset(entries)
    ensures rel + offset in Rebuild(moved, offset) && Rebuild(moved, offset)[rel + offset] == leader
  {
    moved := entries[..i] + entries[i + 1..] + [entries[i]];
    assert entries == entries[..i] + [entries[i]] + entries[i + 1..];
    var n := |moved| - 1;
    assert moved[..n] == entries[..i] + entries[i + 1..] && moved[n] == entries[i];
    AddSlotsMeaning(Rebuild(moved[..n], offset), leader, entries[i].slots, offset);
  }

  /** Exactly then: some iteration orders disagree as soon as two leaders share a slot. */
  lemma RebuildOrderIndependentExactly(entries: seq<Entry>, offset: nat)
    ensures Disjoint(entries) <==>
              forall other :: multiset(other) == multiset(entries) ==> Rebuild(other, offset) == Rebuild(entries, offset)
  {
    if Disjoint(entries) {
      forall other | multiset(other) == multiset(entries) ensures Rebuild(other, offset) == Rebuild(entries, offset) {
        RebuildIgnoresOrder(entries, other, offset);
      }
    } else {
      var e, f, p, q, rel :| e in entries && f in entries && Claims(e, p, rel) && Claims(f, q, rel) && p != q;
      var i :| 0 <= i < |entries| && entries[i] == e;
      var j :| 0 <= j < |entries| && entries[j] == f;
      var a := LastEntryWins(entries, i, p, rel, offset);
      var b := LastEntryWins(entries, j, q, rel, offset);
      assert Rebuild(a, offset) != Rebuild(b, offset);
    }
  }

  /** The slots `first .. first + count`. */
  function Window(first: Slot, count: nat): seq<Slot> {
    seq(count, i requires 0 <= i < count => first + i)
  }

  function LeadersForSlots(schedule: Schedule, slots: seq<Slot>): set<Pubkey> {
    set s | s in slots && s in schedule :: schedule[s]
  }

  /** The leaders looked up are those of the half-open window and no others. */
  lemma LeadersOfWindow(schedule: Schedule, first: Slot, count: nat, p: Pubkey)
    ensures p in LeadersForSlots(schedule, Window(first, count))
       <==> exists s :: first <= s < first + count && s in schedule && schedule[s] == p
  {
    if s :| first <= s < first + count && s in schedule && schedule[s] == p {
      assert Window(first, count)[s - first] == s;
    }
  }

  predicate IsScheduledValidator(schedule: Schedule, p: Pubkey) {
    exists s :: s in schedule && schedule[s] == p
  }

  datatype ValidatorStore = LeaderSchedule(schedule: Schedule) | UserDefined(pubkeys: set<Pubkey>)

  predicate IsAuthorized(store: ValidatorStore, p: Pubkey) {
    match store
    case LeaderSchedule(schedule) => IsScheduledValidator(schedule, p)
    case UserDefined(pubkeys) => p in pubkeys
  }

  /** After a rebuild with one leader per slot, schedule authorization admits exactly
      the parsed leaders that were given at least one slot; a list admits its own keys. */
  lemma AuthorizedAfterRebuild(entries: seq<Entry>, offset: nat, p: Pubkey)
    requires Disjoint(entries)
    ensures IsAuthorized(LeaderSchedule(Rebuild(entries, offset)), p)
       <==> exists e :: e in entries && e.leader == Some(p) && e.slots != []
    ensures forall keys :: IsAuthorized(UserDefined(keys), p) <==> p in keys
  {
    var schedule := Rebuild(entries, offset);
    if s :| s in schedule && schedule[s] == p {
      RebuildMeaning(entries, offset, s);
    }
    if e :| e in entries && e.leader == Some(p) && e.slots != [] {
      var s := e.slots[0] + offset;
      assert Claims(e, p, s - offset);
      RebuildMeaning(entries, offset, s);
      assert Claimed(entries, offset, p, s);
    }
  }
}
