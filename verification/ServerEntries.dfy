/** What the server map says, in terms of the notifications of a run (rpc/src/load_balancer.rs). */
module ServerEntries {
  import opened Common
  import opened LoadBalancer

  /** The event is a slot notification, taken by a waiting thread. */
  ghost predicate Notifies(urls: seq<string>, s: State, e: Event) {
    e.Insert? && e.thread < |urls| && e.thread < |s.phase| && s.phase[e.thread] == Idle
  }

  /** The `i`-th event is one for a thread of server `u`. */
  ghost predicate NotifiesAt(urls: seq<string>, run: seq<Event>, i: nat, u: string) {
    i < |run| && Notifies(urls, Exec(urls, run[..i]), run[i]) && urls[run[i].thread] == u
  }

  ghost predicate LatestAt(urls: seq<string>, run: seq<Event>, i: nat, u: string) {
    NotifiesAt(urls, run, i, u) && forall j: nat :: i < j ==> !NotifiesAt(urls, run, j, u)
  }

  /** The slot server `u` notified last; 0 stands for none. */
  ghost predicate LatestSlot(urls: seq<string>, run: seq<Event>, u: string, slot: Slot) {
    || (slot == 0 && forall i: nat :: !NotifiesAt(urls, run, i, u))
    || (exists i: nat :: LatestAt(urls, run, i, u) && run[i].slot == slot)
  }

  lemma NotifiesPrefix(urls: seq<string>, run: seq<Event>, n: nat, i: nat, u: string)
    requires i < n <= |run|
    ensures NotifiesAt(urls, run[..n], i, u) == NotifiesAt(urls, run, i, u)
  {
    assert run[..n][..i] == run[..i] && run[..n][i] == run[i];
  }

  lemma LatestIsNow(urls: seq<string>, run: seq<Event>, u: string)
    requires run != [] && NotifiesAt(urls, run, |run| - 1, u)
    ensures LatestSlot(urls, run, u, run[|run| - 1].slot)
  {
    assert LatestAt(urls, run, |run| - 1, u);
  }

  lemma LatestStays(urls: seq<string>, run: seq<Event>, u: string, slot: Slot)
    requires run != [] && !NotifiesAt(urls, run, |run| - 1, u) && LatestSlot(urls, run[..|run| - 1], u, slot)
    ensures LatestSlot(urls, run, u, slot)
  {
    var n := |run| - 1;
    if i: nat :| LatestAt(urls, run[..n], i, u) && run[..n][i].slot == slot {
      LatestAtStays(urls, run, i, u);
    } else {
      forall i: nat ensures !NotifiesAt(urls, run, i, u) {
        if i < n {
          NotifiesPrefix(urls, run, n, i, u);
        }
      }
    }
  }

  lemma LatestAtStays(urls: seq<string>, run: seq<Event>, i: nat, u: string)
    requires run != [] && !NotifiesAt(urls, run, |run| - 1, u) && LatestAt(urls, run[..|run| - 1], i, u)
    ensures LatestAt(urls, run, i, u) && run[i] == run[..|run| - 1][i]
  {
    var n := |run| - 1;
    NotifiesPrefix(urls, run, n, i, u);
    forall j: nat | i < j ensures !NotifiesAt(urls, run, j, u) {
      if j < n {
        NotifiesPrefix(urls, run, n, j, u);
      }
    }
  }

  /** After every run a server's entry is the slot it notified last, through whichever of
      its threads, and 0 as long as it notified none. */
  lemma {:induction false} EntryIsLatestSlot(urls: seq<string>, run: seq<Event>, u: string)
    requires u in urls
    ensures u in Exec(urls, run).serverToSlot && LatestSlot(urls, run, u, Exec(urls, run).serverToSlot[u])
  {
    if run != [] {
      var n := |run| - 1;
      EntryIsLatestSlot(urls, run[..n], u);
      if NotifiesAt(urls, run, n, u) {
        LatestIsNow(urls, run, u);
      } else {
        OtherStepsKeepEntry(urls, Exec(urls, run[..n]), run[n], u);
        LatestStays(urls, run, u, Exec(urls, run[..n]).serverToSlot[u]);
      }
    }
  }

  lemma OtherStepsKeepEntry(urls: seq<string>, s: State, e: Event, u: string)
    requires u in s.serverToSlot
    requires !(Notifies(urls, s, e) && urls[e.thread] == u)
    ensures u in Step(urls, s, e).serverToSlot && Step(urls, s, e).serverToSlot[u] == s.serverToSlot[u]
  {
  }

  /** No server has notified a later slot than `u`, counting only the last slot of each. */
  ghost predicate Furthest(urls: seq<string>, run: seq<Event>, u: string) {
    && u in urls
    && forall v, mine, slot :: v in urls && LatestSlot(urls, run, u, mine) && LatestSlot(urls, run, v, slot) ==> slot <= mine
  }

  lemma LatestIsUnique(urls: seq<string>, run: seq<Event>, u: string, a: Slot, b: Slot)
    requires LatestSlot(urls, run, u, a) && LatestSlot(urls, run, u, b)
    ensures a == b
  {
    if i: nat :| LatestAt(urls, run, i, u) && run[i].slot == a {
      var j: nat :| LatestAt(urls, run, j, u) && run[j].slot == b;
      assert i < j ==> !NotifiesAt(urls, run, j, u);
      assert j < i ==> !NotifiesAt(urls, run, i, u);
    }
  }

  /** The client handed out on the map of a run is that of a server whose last slot is
      largest. `chosen` is the server `RpcClient` found: one with a largest entry. */
  lemma ClientIsFurthest<Client>(urls: seq<string>, run: seq<Event>, clients: map<string, Client>, client: Client)
    requires var entries := Exec(urls, run).serverToSlot;
             && clients.Keys == entries.Keys
             && exists u :: u in entries && clients[u] == client && forall v :: v in entries ==> entries[v] <= entries[u]
    ensures exists u :: u in clients && clients[u] == client && Furthest(urls, run, u)
  {
    var entries := Exec(urls, run).serverToSlot;
    var u :| u in entries && clients[u] == client && forall v :: v in entries ==> entries[v] <= entries[u];
    ReachableStates(urls, run);
    EntryIsLatestSlot(urls, run, u);
    forall v, mine, slot | v in urls && LatestSlot(urls, run, u, mine) && LatestSlot(urls, run, v, slot) ensures slot <= mine {
      EntryIsLatestSlot(urls, run, v);
      LatestIsUnique(urls, run, u, mine, entries[u]);
      LatestIsUnique(urls, run, v, slot, entries[v]);
    }
    assert Furthest(urls, run, u);
  }

  // ---------- every notification is counted once ----------

  /** The slots of all notifications taken, in order. */
  ghost function Notified(urls: seq<string>, run: seq<Event>): seq<Slot> {
    if run == [] then []
    else
      var n := |run| - 1;
      Notified(urls, run[..n]) + if Notifies(urls, Exec(urls, run[..n]), run[n]) then [run[n].slot] else []
  }

  function Count(slots: seq<Slot>, slot: Slot): nat {
    if slots == [] then 0 else Count(slots[..|slots| - 1], slot) + if slots[|slots| - 1] == slot then 1 else 0
  }

  function Holds(p: Phase, slot: Slot): nat {
    if p == Inserted(slot) then 1 else 0
  }

  /** How many threads are between the map and `fetch_max` with the slot. */
  function OnTheWay(phase: seq<Phase>, slot: Slot): nat {
    if phase == [] then 0 else OnTheWay(phase[..|phase| - 1], slot) + Holds(phase[|phase| - 1], slot)
  }

  lemma {:induction false} CountMember(slots: seq<Slot>, slot: Slot)
    ensures Count(slots, slot) > 0 <==> slot in slots
  {
    if slots != [] {
      CountMember(slots[..|slots| - 1], slot);
      assert slots == slots[..|slots| - 1] + [slots[|slots| - 1]];
    }
  }

  lemma CountAppend(slots: seq<Slot>, x: Slot, slot: Slot)
    ensures Count(slots + [x], slot) == Count(slots, slot) + if x == slot then 1 else 0
  {
    assert (slots + [x])[..|slots|] == slots;
  }

  lemma {:induction false} OnTheWayUpdate(phase: seq<Phase>, t: nat, p: Phase, slot: Slot)
    requires t < |phase|
    ensures OnTheWay(phase[t := p], slot) + Holds(phase[t], slot) == OnTheWay(phase, slot) + Holds(p, slot)
  {
    var n := |phase| - 1;
    if t == n {
      assert phase[t := p][..n] == phase[..n];
    } else {
      OnTheWayUpdate(phase[..n], t, p, slot);
      assert phase[t := p][..n] == phase[..n][t := p];
    }
  }

  lemma {:induction false} NothingOnTheWay(phase: seq<Phase>, slot: Slot)
    requires forall t :: 0 <= t < |phase| ==> phase[t] != Inserted(slot)
    ensures OnTheWay(phase, slot) == 0
  {
    if phase != [] {
      NothingOnTheWay(phase[..|phase| - 1], slot);
    }
  }

  lemma StepCountsOnce(urls: seq<string>, s: State, e: Event, slot: Slot)
    ensures var s' := Step(urls, s, e);
            Count(s'.fetched, slot) + OnTheWay(s'.phase, slot)
            == Count(s.fetched, slot) + OnTheWay(s.phase, slot) + if Notifies(urls, s, e) && e.slot == slot then 1 else 0
  {
    var s' := Step(urls, s, e);
    match e {
      case Insert(t, x) => if Notifies(urls, s, e) { OnTheWayUpdate(s.phase, t, Inserted(x), slot); }
      case FetchMax(t) =>
        if t < |s.phase| && s.phase[t].Inserted? {
          OnTheWayUpdate(s.phase, t, s'.phase[t], slot);
          CountAppend(s.fetched, s.phase[t].slot, slot);
        }
      case Send(t) => if t < |s.phase| && s.phase[t].Raised? { OnTheWayUpdate(s.phase, t, Idle, slot); }
      case _ =>
    }
  }

  /** Every notification reaches `fetch_max` once: whatever the slot, it was notified as
      often as it was an argument of `fetch_max` or is on the way there. */
  lemma {:induction false} NotificationsFetchedOnce(urls: seq<string>, run: seq<Event>, slot: Slot)
    ensures Count(Notified(urls, run), slot) == Count(Exec(urls, run).fetched, slot) + OnTheWay(Exec(urls, run).phase, slot)
  {
    if run == [] {
      NothingOnTheWay(Exec(urls, run).phase, slot);
    } else {
      var n := |run| - 1;
      NotificationsFetchedOnce(urls, run[..n], slot);
      StepCountsOnce(urls, Exec(urls, run[..n]), run[n], slot);
      NotifiedNext(urls, run, slot);
    }
  }

  lemma NotifiedNext(urls: seq<string>, run: seq<Event>, slot: Slot)
    requires run != []
    ensures var n := |run| - 1;
            Count(Notified(urls, run), slot) == Count(Notified(urls, run[..n]), slot)
            + if Notifies(urls, Exec(urls, run[..n]), run[n]) && run[n].slot == slot then 1 else 0
  {
    var n := |run| - 1;
    if Notifies(urls, Exec(urls, run[..n]), run[n]) {
      CountAppend(Notified(urls, run[..n]), run[n].slot, slot);
    } else {
      assert Notified(urls, run) == Notified(urls, run[..n]);
    }
  }

  /** With nothing on the way the shared maximum is the largest slot ever notified. */
  lemma HighestIsLargestNotified(urls: seq<string>, run: seq<Event>)
    requires forall t :: 0 <= t < |Exec(urls, run).phase| ==> !Exec(urls, run).phase[t].Inserted?
    ensures forall slot :: slot in Notified(urls, run) ==> slot <= Exec(urls, run).highest
    ensures Exec(urls, run).highest == 0 || Exec(urls, run).highest in Notified(urls, run)
  {
    var s := Exec(urls, run);
    ReachableStates(urls, run);
    MaxOrZeroMeaning(s.fetched);
    forall slot ensures slot in Notified(urls, run) <==> slot in s.fetched {
      NotificationsFetchedOnce(urls, run, slot);
      NothingOnTheWay(s.phase, slot);
      CountMember(Notified(urls, run), slot);
      CountMember(s.fetched, slot);
    }
  }
}
