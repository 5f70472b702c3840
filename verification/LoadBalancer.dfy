/** Slot tracking by N subscription threads over shared state (rpc/src/load_balancer.rs).

    On a slot notification a thread writes the server map, raises the shared maximum
    and, if it raised it, sends the slot. The three are separate steps of a state
    machine, so any number of other threads may run between them. */
module LoadBalancer {
  import opened Common

  type Slot = nat

  const SLOT_QUEUE_CAPACITY: nat := 100

  /** Where a thread is: waiting, between insert and `fetch_max`, or between a
      `fetch_max` that raised the maximum and the send. */
  datatype Phase = Idle | Inserted(slot: Slot) | Raised(slot: Slot)

  datatype Emission = Emission(thread: nat, slot: Slot)

  /** `fetched` records the arguments of `fetch_max` in modification order, `sent` the
      successful sends; the receiver has consumed the first `taken` of them. */
  datatype State = State(
    serverToSlot: map<string, Slot>,
    highest: Slot,
    phase: seq<Phase>,
    fetched: seq<Slot>,
    sent: seq<Emission>,
    taken: nat,
    live: bool)

  datatype Event = Insert(thread: nat, slot: Slot) | FetchMax(thread: nat) | Send(thread: nat) | Take | DropReceiver

  /** `urls[t]` is the server of thread `t`; two threads may watch the same server. */
  function Init(urls: seq<string>): State {
    State(map u | u in urls :: 0, 0, seq(|urls|, _ => Idle), [], [], 0, true)
  }

  /** One atomic step; a step that is not enabled leaves the state alone, as does a
      send into a full queue, which blocks. */
  function Step(urls: seq<string>, s: State, e: Event): State {
    match e
    case Insert(t, slot) =>
      if t < |s.phase| && t < |urls| && s.phase[t].Idle?
      then s.(serverToSlot := s.serverToSlot[urls[t] := slot], phase := s.phase[t := Inserted(slot)])
      else s
    case FetchMax(t) =>
      if t < |s.phase| && s.phase[t].Inserted?
      then
        var slot := s.phase[t].slot;
        s.(highest := Max(s.highest, slot),
           fetched := s.fetched + [slot],
           phase := s.phase[t := if slot > s.highest then Raised(slot) else Idle])
      else s
    case Send(t) =>
      if t < |s.phase| && s.phase[t].Raised?
      then
        if !s.live then s.(phase := s.phase[t := Idle])
        else if |s.sent| < s.taken + SLOT_QUEUE_CAPACITY
        then s.(sent := s.sent + [Emission(t, s.phase[t].slot)], phase := s.phase[t := Idle])
        else s
      else s
    case Take => if s.live && s.taken < |s.sent| then s.(taken := s.taken + 1) else s
    case DropReceiver => s.(live := false)
  }

  function Exec(urls: seq<string>, run: seq<Event>): State {
    if run == [] then Init(urls) else Step(urls, Exec(urls, run[..|run| - 1]), run[|run| - 1])
  }

  // ---------- the shared objects, one method per atomic access ----------

  datatype SendOutcome = Sent | Disconnected | WouldBlock

  class SharedSlots {
    const urls: seq<string>
    var serverToSlot: map<string, Slot>
    var highestSlot: Slot
    var queue: seq<Slot>
    var receiverAlive: bool
    ghost var phase: seq<Phase>
    ghost var fetched: seq<Slot>
    ghost var sent: seq<Emission>

    ghost predicate Valid()
      reads this
    {
      && |phase| == |urls| && |queue| <= |sent|
      && queue == seq(|queue|, i requires 0 <= i < |queue| reads this requires |queue| <= |sent| => sent[|sent| - |queue| + i].slot)
    }

    ghost function Abs(): State
      reads this
      requires Valid()
    {
      State(serverToSlot, highestSlot, phase, fetched, sent, |sent| - |queue|, receiverAlive)
    }

    constructor (servers: seq<string>)
      ensures Valid() && urls == servers && Abs() == Init(servers)
    {
      urls := servers;
      serverToSlot := map u | u in servers :: 0;
      highestSlot := 0;
      queue := [];
      receiverAlive := true;
      phase := seq(|servers|, _ => Idle);
      fetched := [];
      sent := [];
    }

    method RecordServerSlot(t: nat, slot: Slot)
      requires Valid() && t < |urls| && phase[t] == Idle
      modifies this
      ensures Valid() && Abs() == Step(urls, old(Abs()), Insert(t, slot))
      ensures serverToSlot == old(serverToSlot)[urls[t] := slot] && highestSlot == old(highestSlot)
    {
      serverToSlot := serverToSlot[urls[t] := slot];
      phase := phase[t := Inserted(slot)];
    }

    method RaiseHighest(t: nat, slot: Slot) returns (oldSlot: Slot)
      requires Valid() && t < |urls| && phase[t] == Inserted(slot)
      modifies this
      ensures oldSlot == old(highestSlot) && highestSlot == (if slot > oldSlot then slot else oldSlot)
      ensures Valid() && Abs() == Step(urls, old(Abs()), FetchMax(t))
      ensures slot > oldSlot <==> phase[t] == Raised(slot)
    {
      oldSlot := highestSlot;
      if slot > highestSlot {
        highestSlot := slot;
      }
      fetched := fetched + [slot];
      phase := phase[t := if slot > oldSlot then Raised(slot) else Idle];
    }

    method SendSlot(t: nat, slot: Slot) returns (outcome: SendOutcome)
      requires Valid() && t < |urls| && phase[t] == Raised(slot)
      modifies this
      ensures Valid() && Abs() == Step(urls, old(Abs()), Send(t))
      ensures outcome == Sent <==> sent == old(sent) + [Emission(t, slot)]
      ensures outcome == Disconnected <==> !receiverAlive
      ensures outcome == WouldBlock <==> receiverAlive && |old(queue)| >= SLOT_QUEUE_CAPACITY
      ensures queue == old(queue) + if outcome == Sent then [slot] else []
    {
      if !receiverAlive {
        phase := phase[t := Idle];
        return Disconnected;
      }
      if |queue| >= SLOT_QUEUE_CAPACITY {
        return WouldBlock;
      }
      queue := queue + [slot];
      sent := sent + [Emission(t, slot)];
      phase := phase[t := Idle];
      return Sent;
    }
  }

  /** The server with the highest slot; `entries` is the map in iteration order and,
      as `max_by` does, the last of several maxima is taken. `None` is the panic on
      an empty server list. */
  method GetHighestSlot(serverToSlot: map<string, Slot>, entries: seq<string>) returns (r: Option<(string, Slot)>)
    requires Enumerates(entries, serverToSlot.Keys)
    ensures r.None? <==> serverToSlot == map[]
    ensures r.Some? ==>
              && r.value.0 in serverToSlot && serverToSlot[r.value.0] == r.value.1
              && (forall u :: u in serverToSlot ==> serverToSlot[u] <= r.value.1)
              && (forall i, j :: 0 <= i < j < |entries| && entries[i] == r.value.0 ==> serverToSlot[entries[j]] < r.value.1)
  {
    if |entries| == 0 {
      return None;
    }
    var best := 0;
    for i := 1 to |entries|
      invariant best < i
      invariant forall k :: 0 <= k < i ==> serverToSlot[entries[k]] <= serverToSlot[entries[best]]
      invariant forall k :: best < k < i ==> serverToSlot[entries[k]] < serverToSlot[entries[best]]
    {
      if serverToSlot[entries[best]] <= serverToSlot[entries[i]] {
        best := i;
      }
    }
    r := Some((entries[best], serverToSlot[entries[best]]));
  }

  /** The client for the server furthest ahead. Clients are held for exactly the servers
      of the slot map, so the look-up cannot fail. */
  method RpcClient<Client>(serverToSlot: map<string, Slot>, clients: map<string, Client>, entries: seq<string>)
    returns (r: Option<Client>)
    requires Enumerates(entries, serverToSlot.Keys) && clients.Keys == serverToSlot.Keys
    ensures r.None? <==> serverToSlot == map[]
    ensures r.Some? ==> exists u :: u in serverToSlot && clients[u] == r.value && forall v :: v in serverToSlot ==> serverToSlot[v] <= serverToSlot[u]
  {
    var highest := GetHighestSlot(serverToSlot, entries);
    if highest.None? {
      return None;
    }
    r := Some(clients[highest.value.0]);
  }

  // ---------- reference: record highs ----------

  function MaxOrZero(xs: seq<Slot>): Slot {
    if xs == [] then 0 else Max(MaxOrZero(xs[..|xs| - 1]), xs[|xs| - 1])
  }

  /** Position `i` holds a value above everything before it (and above 0). */
  predicate IsRecord(xs: seq<Slot>, i: nat) {
    i < |xs| && xs[i] > MaxOrZero(xs[..i])
  }

  ghost function RecordHighs(xs: seq<Slot>): set<Slot> {
    set i | 0 <= i < |xs| && IsRecord(xs, i) :: xs[i]
  }

  lemma {:induction false} MaxOrZeroMeaning(xs: seq<Slot>)
    ensures forall x :: x in xs ==> x <= MaxOrZero(xs)
    ensures MaxOrZero(xs) == 0 || MaxOrZero(xs) in xs
  {
    if xs != [] {
      var n := |xs| - 1;
      MaxOrZeroMeaning(xs[..n]);
      assert xs == xs[..n] + [xs[n]];
    }
  }

  lemma {:induction false} RecordHighsAppend(xs: seq<Slot>, x: Slot)
    ensures RecordHighs(xs + [x]) == RecordHighs(xs) + (if x > MaxOrZero(xs) then {x} else {})
  {
    var ys := xs + [x];
    assert ys[..|xs|] == xs;
    forall i | 0 <= i < |xs| ensures IsRecord(ys, i) == IsRecord(xs, i) {
      assert ys[..i] == xs[..i];
    }
    assert forall y :: y in RecordHighs(xs) ==> y in RecordHighs(ys) by {
      forall y | y in RecordHighs(xs) ensures y in RecordHighs(ys) {
        var i :| 0 <= i < |xs| && IsRecord(xs, i) && xs[i] == y;
        assert IsRecord(ys, i) && ys[i] == y;
      }
    }
    if x > MaxOrZero(xs) {
      assert IsRecord(ys, |xs|) && ys[|xs|] == x;
    }
  }

  // ---------- invariants of every reachable state ----------

  ghost function SentSlots(s: State): set<Slot> {
    set e | e in s.sent :: e.slot
  }

  /** Slots held between a raising `fetch_max` and the send. */
  ghost function HeldSlots(s: State): set<Slot> {
    set t | 0 <= t < |s.phase| && s.phase[t].Raised? :: s.phase[t].slot
  }

  /** No slot is in two places: sent twice, held twice, or both sent and held. */
  ghost predicate NoDuplicates(s: State) {
    && (forall i, j :: 0 <= i < j < |s.sent| ==> s.sent[i].slot != s.sent[j].slot)
    && (forall t, u :: 0 <= t < u < |s.phase| && s.phase[t].Raised? && s.phase[u].Raised? ==> s.phase[t].slot != s.phase[u].slot)
    && (forall i, t :: 0 <= i < |s.sent| && 0 <= t < |s.phase| && s.phase[t].Raised? ==> s.sent[i].slot != s.phase[t].slot)
  }

  /** Each thread sends increasing slots, and what it holds is above what it sent. */
  ghost predicate ThreadsIncrease(s: State) {
    && (forall i, j :: 0 <= i < j < |s.sent| && s.sent[i].thread == s.sent[j].thread ==> s.sent[i].slot < s.sent[j].slot)
    && (forall i, t :: 0 <= i < |s.sent| && 0 <= t < |s.phase| && s.phase[t].Raised? && s.sent[i].thread == t
                       ==> s.sent[i].slot < s.phase[t].slot)
  }

  ghost predicate MaximumKept(s: State) {
    && s.highest == MaxOrZero(s.fetched)
    && (forall x :: x in SentSlots(s) + HeldSlots(s) ==> 0 < x <= s.highest)
  }

  /** A server entry above the maximum belongs to a thread of that server that has not reached `fetch_max`. */
  ghost predicate MapAheadOnlyInFlight(urls: seq<string>, s: State) {
    forall u :: u in s.serverToSlot && s.serverToSlot[u] > s.highest ==>
      exists t :: 0 <= t < |s.phase| && t < |urls| && urls[t] == u && s.phase[t] == Inserted(s.serverToSlot[u])
  }

  ghost predicate RecordsAccounted(s: State) {
    && SentSlots(s) + HeldSlots(s) <= RecordHighs(s.fetched)
    && (s.live ==> SentSlots(s) + HeldSlots(s) == RecordHighs(s.fetched))
  }

  ghost predicate Inv(urls: seq<string>, s: State) {
    && |s.phase| == |urls|
    && s.taken <= |s.sent| <= s.taken + SLOT_QUEUE_CAPACITY
    && (forall u :: u in s.serverToSlot <==> u in urls)
    && (forall i :: 0 <= i < |s.sent| ==> s.sent[i].thread < |urls|)
    && NoDuplicates(s) && ThreadsIncrease(s) && MaximumKept(s)
    && MapAheadOnlyInFlight(urls, s) && RecordsAccounted(s)
  }

  lemma HeldAfter(s: State, t: nat, p: Phase)
    requires t < |s.phase| && NoDuplicates(s)
    ensures HeldSlots(s.(phase := s.phase[t := p])) ==
            HeldSlots(s) - (if s.phase[t].Raised? then {s.phase[t].slot} else {}) + (if p.Raised? then {p.slot} else {})
  {
    var s' := s.(phase := s.phase[t := p]);
    forall x | x in HeldSlots(s) && !(s.phase[t].Raised? && x == s.phase[t].slot) ensures x in HeldSlots(s') {
      var u :| 0 <= u < |s.phase| && s.phase[u].Raised? && s.phase[u].slot == x;
      assert s'.phase[u].Raised?;
    }
    assert s'.phase[t] == p;
  }

  lemma StepKeepsInv(urls: seq<string>, s: State, e: Event)
    requires Inv(urls, s)
    ensures Inv(urls, Step(urls, s, e))
  {
    if Step(urls, s, e) != s {
      match e {
        case Insert(t, slot) => StepInsert(urls, s, t, slot);
        case FetchMax(t) => StepFetchMax(urls, s, t);
        case Send(t) => StepSend(urls, s, t);
        case Take =>
        case DropReceiver =>
      }
    }
  }

  lemma StepInsert(urls: seq<string>, s: State, t: nat, slot: Slot)
    requires Inv(urls, s) && t < |s.phase| && s.phase[t].Idle?
    ensures Inv(urls, Step(urls, s, Insert(t, slot)))
  {
    var s' := Step(urls, s, Insert(t, slot));
    HeldAfter(s, t, Inserted(slot));
    assert HeldSlots(s') == HeldSlots(s.(phase := s'.phase));
    InsertKeepsMap(urls, s, t, slot);
  }

  lemma InsertKeepsMap(urls: seq<string>, s: State, t: nat, slot: Slot)
    requires MapAheadOnlyInFlight(urls, s) && t < |s.phase| && t < |urls| && s.phase[t].Idle?
    ensures MapAheadOnlyInFlight(urls, Step(urls, s, Insert(t, slot)))
  {
    var s' := Step(urls, s, Insert(t, slot));
    forall u | u in s'.serverToSlot && s'.serverToSlot[u] > s'.highest
      ensures exists v :: 0 <= v < |s'.phase| && v < |urls| && urls[v] == u && s'.phase[v] == Inserted(s'.serverToSlot[u])
    {
      if u == urls[t] {
        assert s'.phase[t] == Inserted(slot);
      } else {
        var v :| 0 <= v < |s.phase| && v < |urls| && urls[v] == u && s.phase[v] == Inserted(s.serverToSlot[u]);
        assert s'.phase[v] == s.phase[v];
      }
    }
  }

  lemma StepSend(urls: seq<string>, s: State, t: nat)
    requires Inv(urls, s) && t < |s.phase| && s.phase[t].Raised? && Step(urls, s, Send(t)) != s
    ensures Inv(urls, Step(urls, s, Send(t)))
  {
    SendKeepsOrder(urls, s, t);
    SendKeepsAccount(urls, s, t);
    SendKeepsMap(urls, s, t);
  }

  lemma SendKeepsOrder(urls: seq<string>, s: State, t: nat)
    requires NoDuplicates(s) && ThreadsIncrease(s) && t < |s.phase| && s.phase[t].Raised?
    ensures NoDuplicates(Step(urls, s, Send(t))) && ThreadsIncrease(Step(urls, s, Send(t)))
  {
  }

  lemma SendKeepsAccount(urls: seq<string>, s: State, t: nat)
    requires NoDuplicates(s) && t < |s.phase| && s.phase[t].Raised?
    requires MaximumKept(s) && RecordsAccounted(s)
    ensures MaximumKept(Step(urls, s, Send(t))) && RecordsAccounted(Step(urls, s, Send(t)))
  {
    var s' := Step(urls, s, Send(t));
    var e := Emission(t, s.phase[t].slot);
    if s' != s {
      HeldAfter(s, t, Idle);
      assert HeldSlots(s') == HeldSlots(s.(phase := s'.phase));
      assert e.slot in HeldSlots(s);
      if s.live {
        SentAfter(s, e);
        assert SentSlots(s') == SentSlots(s.(sent := s'.sent));
      }
      assert s.live ==> SentSlots(s') + HeldSlots(s') == SentSlots(s) + HeldSlots(s);
    }
  }

  lemma SendKeepsMap(urls: seq<string>, s: State, t: nat)
    requires MapAheadOnlyInFlight(urls, s) && t < |s.phase| && s.phase[t].Raised?
    ensures MapAheadOnlyInFlight(urls, Step(urls, s, Send(t)))
  {
    var s' := Step(urls, s, Send(t));
    forall u | u in s'.serverToSlot && s'.serverToSlot[u] > s'.highest
      ensures exists v :: 0 <= v < |s'.phase| && v < |urls| && urls[v] == u && s'.phase[v] == Inserted(s'.serverToSlot[u])
    {
      var v :| 0 <= v < |s.phase| && v < |urls| && urls[v] == u && s.phase[v] == Inserted(s.serverToSlot[u]);
      assert s'.phase[v] == s.phase[v];
    }
  }

  lemma SentAfter(s: State, e: Emission)
    ensures SentSlots(s.(sent := s.sent + [e])) == SentSlots(s) + {e.slot}
  {
    var s' := s.(sent := s.sent + [e]);
    forall x | x in SentSlots(s) + {e.slot} ensures x in SentSlots(s') {
      if x == e.slot {
        assert e in s'.sent;
      } else {
        var f :| f in s.sent && f.slot == x;
        assert f in s'.sent;
      }
    }
  }

  lemma StepFetchMax(urls: seq<string>, s: State, t: nat)
    requires Inv(urls, s) && t < |s.phase| && s.phase[t].Inserted?
    ensures Inv(urls, Step(urls, s, FetchMax(t)))
  {
    FetchKeepsAccount(urls, s, t);
    FetchKeepsOrder(urls, s, t);
    FetchKeepsMap(urls, s, t);
  }

  lemma AllBelowHighest(s: State)
    requires MaximumKept(s)
    ensures forall i :: 0 <= i < |s.sent| ==> s.sent[i].slot <= s.highest
    ensures forall u :: 0 <= u < |s.phase| && s.phase[u].Raised? ==> s.phase[u].slot <= s.highest
  {
    forall i | 0 <= i < |s.sent| ensures s.sent[i].slot <= s.highest {
      assert s.sent[i] in s.sent && s.sent[i].slot in SentSlots(s) + HeldSlots(s);
    }
    forall u | 0 <= u < |s.phase| && s.phase[u].Raised? ensures s.phase[u].slot <= s.highest {
      assert s.phase[u].slot in SentSlots(s) + HeldSlots(s);
    }
  }

  lemma FetchKeepsOrder(urls: seq<string>, s: State, t: nat)
    requires NoDuplicates(s) && ThreadsIncrease(s) && MaximumKept(s) && t < |s.phase| && s.phase[t].Inserted?
    ensures NoDuplicates(Step(urls, s, FetchMax(t))) && ThreadsIncrease(Step(urls, s, FetchMax(t)))
  {
    AllBelowHighest(s);
  }

  lemma FetchKeepsAccount(urls: seq<string>, s: State, t: nat)
    requires NoDuplicates(s) && MaximumKept(s) && RecordsAccounted(s) && t < |s.phase| && s.phase[t].Inserted?
    ensures MaximumKept(Step(urls, s, FetchMax(t))) && RecordsAccounted(Step(urls, s, FetchMax(t)))
  {
    var s' := Step(urls, s, FetchMax(t));
    var x := s.phase[t].slot;
    HeldAfter(s, t, s'.phase[t]);
    RecordHighsAppend(s.fetched, x);
    assert s'.fetched[..|s.fetched|] == s.fetched;
    assert SentSlots(s') == SentSlots(s);
    assert HeldSlots(s') == HeldSlots(s.(phase := s'.phase)) == HeldSlots(s) + (if x > s.highest then {x} else {});
  }

  lemma FetchKeepsMap(urls: seq<string>, s: State, t: nat)
    requires MapAheadOnlyInFlight(urls, s) && t < |s.phase| && s.phase[t].Inserted?
    ensures MapAheadOnlyInFlight(urls, Step(urls, s, FetchMax(t)))
  {
    var s' := Step(urls, s, FetchMax(t));
    forall u | u in s'.serverToSlot && s'.serverToSlot[u] > s'.highest
      ensures exists v :: 0 <= v < |s'.phase| && v < |urls| && urls[v] == u && s'.phase[v] == Inserted(s'.serverToSlot[u])
    {
      var v :| 0 <= v < |s.phase| && v < |urls| && urls[v] == u && s.phase[v] == Inserted(s.serverToSlot[u]);
      assert v != t && s'.phase[v] == s.phase[v];
    }
  }

  /** Whatever the interleaving: with a live receiver, slots sent plus slots held are
      exactly the record highs of the `fetch_max` sequence, none of them twice; each
      thread's sends increase; the shared maximum is their maximum (or 0); and a
      server entry is ahead of it only while its thread is about to raise it. */
  lemma {:induction false} ReachableStates(urls: seq<string>, run: seq<Event>)
    ensures Inv(urls, Exec(urls, run))
  {
    if run == [] {
      var s := Init(urls);
      assert SentSlots(s) + HeldSlots(s) == RecordHighs(s.fetched);
    } else {
      ReachableStates(urls, run[..|run| - 1]);
      StepKeepsInv(urls, Exec(urls, run[..|run| - 1]), run[|run| - 1]);
    }
  }

  lemma {:induction false} MaximumIsARecord(xs: seq<Slot>)
    ensures MaxOrZero(xs) == 0 || MaxOrZero(xs) in RecordHighs(xs)
  {
    if xs != [] {
      var n := |xs| - 1;
      MaximumIsARecord(xs[..n]);
      RecordHighsAppend(xs[..n], xs[n]);
      assert xs == xs[..n] + [xs[n]];
    }
  }

  /** With a live receiver the shared maximum never runs away from the channel: it is 0, or
      some thread sent it or is about to. */
  lemma HighestIsSentOrHeld(urls: seq<string>, run: seq<Event>)
    requires Exec(urls, run).live
    ensures Exec(urls, run).highest == 0 || Exec(urls, run).highest in SentSlots(Exec(urls, run)) + HeldSlots(Exec(urls, run))
  {
    ReachableStates(urls, run);
    MaximumIsARecord(Exec(urls, run).fetched);
  }

  /** No run adds or loses a server, so the clients made at the start stay the right ones. */
  lemma {:induction false} ServersNeverChange(urls: seq<string>, run: seq<Event>)
    ensures Exec(urls, run).serverToSlot.Keys == Init(urls).serverToSlot.Keys
  {
    ReachableStates(urls, run);
  }

  // ---------- bounded disorder ----------

  /** Sends after position `i` with a smaller slot. */
  ghost function LaterSmaller(sent: seq<Emission>, i: nat): set<nat>
    requires i < |sent|
  {
    set j | i < j < |sent| && sent[j].slot < sent[i].slot
  }

  /** Threads about to send a slot below `a`. */
  ghost function HoldingBelow(phase: seq<Phase>, a: Slot): set<nat> {
    set t | 0 <= t < |phase| && phase[t].Raised? && phase[t].slot < a
  }

  /** Smaller slots already sent after `a`, plus those still held, number fewer than the threads. */
  ghost predicate DisorderBounded(s: State) {
    forall i :: 0 <= i < |s.sent| ==>
      |LaterSmaller(s.sent, i)| + |HoldingBelow(s.phase, s.sent[i].slot)| < |s.phase|
  }

  function Below(n: nat): (r: set<nat>)
    ensures |r| == n
    ensures forall x: nat :: x in r <==> x < n
  {
    if n == 0 then {} else Below(n - 1) + {n - 1}
  }

  /** A raise lands above everything sent, so it adds nothing below a sent slot. */
  lemma HoldingBelowShrinks(urls: seq<string>, s: State, e: Event, a: Slot)
    requires a <= s.highest
    ensures |HoldingBelow(Step(urls, s, e).phase, a)| <= |HoldingBelow(s.phase, a)|
  {
    var phase' := Step(urls, s, e).phase;
    assert HoldingBelow(phase', a) <= HoldingBelow(s.phase, a);
    SubsetSize(HoldingBelow(phase', a), HoldingBelow(s.phase, a));
  }

  /** A send below `a` moves its thread from the held side to the sent side. */
  lemma SendBelowMoves(phase: seq<Phase>, sent: seq<Emission>, t: nat, i: nat)
    requires t < |phase| && phase[t].Raised? && i < |sent| && phase[t].slot < sent[i].slot
    ensures |LaterSmaller(sent + [Emission(t, phase[t].slot)], i)| == |LaterSmaller(sent, i)| + 1
    ensures |HoldingBelow(phase[t := Idle], sent[i].slot)| == |HoldingBelow(phase, sent[i].slot)| - 1
  {
    var a := sent[i].slot;
    var sent' := sent + [Emission(t, phase[t].slot)];
    assert LaterSmaller(sent', i) == LaterSmaller(sent, i) + {|sent|};
    assert t in HoldingBelow(phase, a);
    assert HoldingBelow(phase[t := Idle], a) == HoldingBelow(phase, a) - {t};
  }

  lemma SendAboveKeeps(sent: seq<Emission>, e: Emission, i: nat)
    requires i < |sent| && e.slot >= sent[i].slot
    ensures LaterSmaller(sent + [e], i) == LaterSmaller(sent, i)
  {
    assert forall j :: 0 <= j < |sent| ==> (sent + [e])[j] == sent[j];
  }

  lemma SenderHoldsNothing(phase: seq<Phase>, t: nat, a: Slot)
    requires t < |phase|
    ensures |HoldingBelow(phase[t := Idle], a)| < |phase|
  {
    SubsetSize(HoldingBelow(phase[t := Idle], a), Below(|phase|) - {t});
  }

  lemma SendKeepsDisorder(phase: seq<Phase>, sent: seq<Emission>, t: nat, i: nat)
    requires t < |phase| && phase[t].Raised? && i <= |sent|
    requires i < |sent| ==> |LaterSmaller(sent, i)| + |HoldingBelow(phase, sent[i].slot)| < |phase|
    ensures var sent' := sent + [Emission(t, phase[t].slot)];
            |LaterSmaller(sent', i)| + |HoldingBelow(phase[t := Idle], sent'[i].slot)| < |phase|
  {
    var e := Emission(t, phase[t].slot);
    if i == |sent| {
      SenderHoldsNothing(phase, t, e.slot);
      assert LaterSmaller(sent + [e], i) == {};
    } else if e.slot < sent[i].slot {
      SendBelowMoves(phase, sent, t, i);
    } else {
      SendAboveKeeps(sent, e, i);
      assert HoldingBelow(phase[t := Idle], sent[i].slot) == HoldingBelow(phase, sent[i].slot);
    }
  }

  lemma StepKeepsDisorder(urls: seq<string>, s: State, e: Event)
    requires forall i :: 0 <= i < |s.sent| ==> s.sent[i].slot <= s.highest
    requires DisorderBounded(s)
    ensures DisorderBounded(Step(urls, s, e))
  {
    var s' := Step(urls, s, e);
    forall i | 0 <= i < |s'.sent|
      ensures |LaterSmaller(s'.sent, i)| + |HoldingBelow(s'.phase, s'.sent[i].slot)| < |s'.phase|
    {
      if s'.sent == s.sent {
        HoldingBelowShrinks(urls, s, e, s.sent[i].slot);
      } else {
        SendKeepsDisorder(s.phase, s.sent, e.thread, i);
      }
    }
  }

  lemma SentBelowHighest(urls: seq<string>, run: seq<Event>)
    ensures forall i :: 0 <= i < |Exec(urls, run).sent| ==> Exec(urls, run).sent[i].slot <= Exec(urls, run).highest
  {
    ReachableStates(urls, run);
    var s := Exec(urls, run);
    forall i | 0 <= i < |s.sent| ensures s.sent[i].slot <= s.highest {
      assert s.sent[i] in s.sent && s.sent[i].slot in SentSlots(s);
    }
  }

  lemma {:induction false} DisorderInvariant(urls: seq<string>, run: seq<Event>)
    ensures DisorderBounded(Exec(urls, run))
  {
    if run != [] {
      var before := run[..|run| - 1];
      SentBelowHighest(urls, before);
      DisorderInvariant(urls, before);
      StepKeepsDisorder(urls, Exec(urls, before), run[|run| - 1]);
    }
  }

  /** With N threads at most N - 1 slots below a sent slot ever follow it in the channel. */
  lemma BoundedDisorder(urls: seq<string>, run: seq<Event>, i: nat)
    requires i < |Exec(urls, run).sent|
    ensures |LaterSmaller(Exec(urls, run).sent, i)| <= |urls| - 1
  {
    ReachableStates(urls, run);
    DisorderInvariant(urls, run);
  }

  // ---------- the bound is attained ----------

  /** Threads `0 .. n` report slots `1 .. n + 1` and raise the maximum in that order. */
  function RaiseAll(n: nat): seq<Event> {
    if n == 0 then [] else RaiseAll(n - 1) + [Insert(n - 1, n), FetchMax(n - 1)]
  }

  /** The last thread sends first; then threads `0 .. m` send in order. */
  function SendLastFirst(n: nat, m: nat): seq<Event>
    requires n > 0
  {
    if m == 0 then RaiseAll(n) + [Send(n - 1), Take] else SendLastFirst(n, m - 1) + [Send(m - 1), Take]
  }

  lemma ExecTwo(urls: seq<string>, run: seq<Event>, e: Event, f: Event)
    ensures Exec(urls, run + [e, f]) == Step(urls, Step(urls, Exec(urls, run), e), f)
  {
    var all := run + [e, f];
    assert all[..|all| - 1] == run + [e];
    assert (run + [e])[..|run|] == run;
  }

  ghost predicate AfterRaising(s: State, total: nat, n: nat) {
    && |s.phase| == total && s.highest == n && s.sent == [] && s.taken == 0 && s.live
    && (forall t :: 0 <= t < total ==> s.phase[t] == if t < n then Raised(t + 1) else Idle)
  }

  lemma {:induction false} RaiseAllWorks(urls: seq<string>, n: nat)
    requires n <= |urls|
    ensures AfterRaising(Exec(urls, RaiseAll(n)), |urls|, n)
  {
    if n > 0 {
      RaiseAllWorks(urls, n - 1);
      ExecTwo(urls, RaiseAll(n - 1), Insert(n - 1, n), FetchMax(n - 1));
    }
  }

  ghost predicate AfterSending(s: State, n: nat, m: nat) {
    && |s.phase| == n && |s.sent| == m + 1 && s.taken == m + 1 && s.live
    && s.sent[0].slot == n && (forall j :: 1 <= j <= m ==> s.sent[j].slot == j)
    && (forall t :: m <= t < n - 1 ==> s.phase[t] == Raised(t + 1))
  }

  lemma FirstSend(urls: seq<string>, s: State)
    requires urls != [] && AfterRaising(s, |urls|, |urls|)
    ensures AfterSending(Step(urls, Step(urls, s, Send(|urls| - 1)), Take), |urls|, 0)
  {
  }

  lemma NextSend(urls: seq<string>, s: State, m: nat)
    requires 0 < m < |urls| && AfterSending(s, |urls|, m - 1)
    ensures AfterSending(Step(urls, Step(urls, s, Send(m - 1)), Take), |urls|, m)
  {
    assert s.phase[m - 1] == Raised(m);
  }

  lemma {:induction false} SendLastFirstWorks(urls: seq<string>, m: nat)
    requires m < |urls|
    ensures AfterSending(Exec(urls, SendLastFirst(|urls|, m)), |urls|, m)
  {
    var n := |urls|;
    if m == 0 {
      RaiseAllWorks(urls, n);
      FirstSend(urls, Exec(urls, RaiseAll(n)));
      ExecTwo(urls, RaiseAll(n), Send(n - 1), Take);
    } else {
      SendLastFirstWorks(urls, m - 1);
      NextSend(urls, Exec(urls, SendLastFirst(n, m - 1)), m);
      ExecTwo(urls, SendLastFirst(n, m - 1), Send(m - 1), Take);
    }
  }

  /** For every N > 0 some interleaving makes N - 1 smaller slots follow a sent slot. */
  lemma DisorderBoundIsTight(urls: seq<string>)
    requires urls != []
    ensures exists run, i: nat :: i < |Exec(urls, run).sent| && |LaterSmaller(Exec(urls, run).sent, i)| == |urls| - 1
  {
    var n := |urls|;
    SendLastFirstWorks(urls, n - 1);
    var run := SendLastFirst(n, n - 1);
    AllSmallerFollow(Exec(urls, run), n);
    assert 0 < |Exec(urls, run).sent|;
  }

  lemma AllSmallerFollow(s: State, n: nat)
    requires n > 0 && AfterSending(s, n, n - 1)
    ensures |LaterSmaller(s.sent, 0)| == n - 1
  {
    assert LaterSmaller(s.sent, 0) == Below(n) - {0};
  }
}
