/** What it costs that a fan-out stops at the first closed channel
    (relayer/src/relayer.rs): open subscribers left out, and removals counted twice. */
module BreakEffects {
  import opened Common
  import opened Transactions
  import opened Relayer
  import opened FanOutProofs
  import opened RelayerRuns
  import ScheduleCache

  // ---------- one subscriber ----------

  /** The `j`-th target is tried in the round, and its channel is not closed. */
  ghost predicate ServedIn(tries: seq<Try>, j: nat) {
    j < |tries| && !tries[j].outcome.Closed?
  }

  lemma ServedIsCounted(targets: seq<Target>, tries: seq<Try>, j: nat)
    requires DistinctTargets(targets) && StopsAtFirstClosed(targets, tries) && j < |targets|
    ensures ServedIn(tries, j) <==> Try(targets[j].pubkey, Delivered) in tries || Try(targets[j].pubkey, Full) in tries
    ensures !(Try(targets[j].pubkey, Delivered) in tries && Try(targets[j].pubkey, Full) in tries)
  {
    forall i | 0 <= i < |tries| && tries[i].pubkey == targets[j].pubkey ensures i == j {
      assert targets[i].pubkey == targets[j].pubkey;
    }
    if j < |tries| {
      assert tries[j] in tries;
    }
  }

  /** Packets of the batches in whose round the `j`-th target is served. */
  ghost function ServedSize(rounds: seq<seq<Try>>, batches: seq<seq<ProtoPacket>>, j: nat): nat
    requires |rounds| <= |batches|
  {
    if rounds == [] then 0
    else
      var n := |rounds| - 1;
      ServedSize(rounds[..n], batches, j) + if ServedIn(rounds[n], j) then |batches[n]| else 0
  }

  lemma {:induction false} CountedIsServed(targets: seq<Target>, rounds: seq<seq<Try>>, batches: seq<seq<ProtoPacket>>, j: nat)
    requires |rounds| <= |batches| && DistinctTargets(targets) && j < |targets|
    requires forall b :: 0 <= b < |rounds| ==> StopsAtFirstClosed(targets, rounds[b])
    ensures Tally(rounds, batches, targets[j].pubkey, Delivered) + Tally(rounds, batches, targets[j].pubkey, Full)
         == ServedSize(rounds, batches, j)
  {
    if rounds != [] {
      var n := |rounds| - 1;
      assert forall b :: 0 <= b < n ==> rounds[..n][b] == rounds[b];
      CountedIsServed(targets, rounds[..n], batches, j);
      ServedIsCounted(targets, rounds[n], j);
    }
  }

  lemma {:induction false} AllServedExactly(rounds: seq<seq<Try>>, batches: seq<seq<ProtoPacket>>, j: nat)
    requires |rounds| <= |batches| && forall b :: 0 <= b < |rounds| ==> batches[b] != []
    ensures ServedSize(rounds, batches, j) <= TotalSize(batches[..|rounds|])
    ensures ServedSize(rounds, batches, j) == TotalSize(batches[..|rounds|])
       <==> forall b :: 0 <= b < |rounds| ==> ServedIn(rounds[b], j)
  {
    if rounds == [] {
      assert batches[..0] == [];
    } else {
      var n := |rounds| - 1;
      assert forall b :: 0 <= b < n ==> rounds[..n][b] == rounds[b];
      AllServedExactly(rounds[..n], batches, j);
      assert batches[..n + 1][..n] == batches[..n];
    }
  }

  /** A subscriber is counted for every packet exactly if it is reached, and open, in every round. */
  lemma CountedInFullExactly(targets: seq<Target>, rounds: seq<seq<Try>>, batches: seq<seq<ProtoPacket>>, j: nat)
    requires |rounds| == |batches| && DistinctTargets(targets) && j < |targets|
    requires forall b :: 0 <= b < |rounds| ==> StopsAtFirstClosed(targets, rounds[b]) && batches[b] != []
    ensures Tally(rounds, batches, targets[j].pubkey, Delivered) + Tally(rounds, batches, targets[j].pubkey, Full) == |Flatten(batches)|
       <==> forall b :: 0 <= b < |rounds| ==> ServedIn(rounds[b], j)
  {
    CountedIsServed(targets, rounds, batches, j);
    AllServedExactly(rounds, batches, j);
    assert batches[..|rounds|] == batches;
    TotalSizeIsLength(batches);
  }

  // ---------- the first subscriber hangs up ----------

  /** The first target's receiver goes away before the first send; nothing else happens. */
  function HangUpFirst(targets: seq<Target>): seq<seq<EnvMove>>
    requires targets != []
  {
    [[HangUp(targets[0].chan)]]
  }

  /** Every round stops at the first target. */
  function OnlyFirstTried(targets: seq<Target>, n: nat): seq<seq<Try>>
    requires targets != []
  {
    seq(n, _ => [Try(targets[0].pubkey, Closed)])
  }

  lemma OneMoreRound(targets: seq<Target>, n: nat)
    requires targets != []
    ensures [[Try(targets[0].pubkey, Closed)]] + OnlyFirstTried(targets, n) == OnlyFirstTried(targets, n + 1)
  {
  }

  lemma ClosedFirst(channels: seq<Channel>, targets: seq<Target>, m: Message)
    requires InRange(targets, |channels|) && targets != [] && channels[targets[0].chan].closed
    ensures FanOut(channels, targets, m, [], true) == Fan(channels, [Try(targets[0].pubkey, Closed)], [])
  {
  }

  lemma {:induction false} ClosedFirstThroughout(channels: seq<Channel>, targets: seq<Target>, batches: seq<seq<ProtoPacket>>)
    requires InRange(targets, |channels|) && targets != [] && channels[targets[0].chan].closed
    ensures FanOutAll(channels, targets, batches, []) == Rounds(channels, OnlyFirstTried(targets, |batches|))
  {
    if batches != [] {
      ClosedFirst(channels, targets, Batch(batches[0]));
      ClosedFirstThroughout(channels, targets, batches[1..]);
      OneMoreRound(targets, |batches| - 1);
    }
  }

  lemma FirstHangsUp(channels: seq<Channel>, targets: seq<Target>, m: Message)
    requires InRange(targets, |channels|) && targets != []
    ensures FanOut(channels, targets, m, HangUpFirst(targets), true)
         == Fan(Move(channels, HangUp(targets[0].chan)), [Try(targets[0].pubkey, Closed)], [])
  {
    var moves := HangUpFirst(targets);
    assert Head(moves) == [HangUp(targets[0].chan)] && Tail(moves) == [];
    assert MoveAll(channels, Head(moves)) == MoveAll(Move(channels, Head(moves)[0]), Head(moves)[1..]);
  }

  /** Once the first round has met the closed first target, all later rounds do. */
  lemma ClosedFromThere(channels: seq<Channel>, targets: seq<Target>, batches: seq<seq<ProtoPacket>>, moves: seq<seq<EnvMove>>, moved: seq<Channel>)
    requires InRange(targets, |channels|) && targets != [] && batches != []
    requires |moved| == |channels| && moved[targets[0].chan].closed
    requires FanOut(channels, targets, Batch(batches[0]), moves, true) == Fan(moved, [Try(targets[0].pubkey, Closed)], [])
    ensures FanOutAll(channels, targets, batches, moves) == Rounds(moved, OnlyFirstTried(targets, |batches|))
  {
    ClosedFirstThroughout(moved, targets, batches[1..]);
    OneMoreRound(targets, |batches| - 1);
  }

  /** Then nobody but the first is tried in any round, and no other channel is touched. */
  lemma HangUpEndsEverything(channels: seq<Channel>, targets: seq<Target>, batches: seq<seq<ProtoPacket>>)
    requires InRange(targets, |channels|) && targets != [] && batches != []
    ensures FanOutAll(channels, targets, batches, HangUpFirst(targets))
         == Rounds(Move(channels, HangUp(targets[0].chan)), OnlyFirstTried(targets, |batches|))
  {
    FirstHangsUp(channels, targets, Batch(batches[0]));
    ClosedFromThere(channels, targets, batches, HangUpFirst(targets), Move(channels, HangUp(targets[0].chan)));
  }

  // ---------- every open subscriber ----------

  /** Whoever is still connected after the event has been counted for all its packets. */
  ghost predicate OpenAreServed(channels: seq<Channel>, targets: seq<Target>, batches: seq<seq<ProtoPacket>>, moves: seq<seq<EnvMove>>)
    requires InRange(targets, |channels|)
  {
    var r := FanOutAll(channels, targets, batches, moves);
    forall t :: t in targets && !r.channels[t.chan].closed ==>
      Tally(r.rounds, batches, t.pubkey, Delivered) + Tally(r.rounds, batches, t.pubkey, Full) == |Flatten(batches)|
  }

  /** Nobody behind the first target is open, so there is nobody to be left out. */
  ghost predicate OnlyFirstOpen(channels: seq<Channel>, targets: seq<Target>)
    requires InRange(targets, |channels|)
  {
    forall j :: 1 <= j < |targets| ==> channels[targets[j].chan].closed
  }

  /** A channel found closed in some round is closed in the end. */
  lemma {:induction false} ClosedRoundIsClosed(
    channels: seq<Channel>, targets: seq<Target>, batches: seq<seq<ProtoPacket>>, moves: seq<seq<EnvMove>>, b: nat, j: nat)
    requires InRange(targets, |channels|) && b < |batches| && j < |targets|
    requires j < |FanOutAll(channels, targets, batches, moves).rounds[b]|
    requires FanOutAll(channels, targets, batches, moves).rounds[b][j].outcome.Closed?
    ensures FanOutAll(channels, targets, batches, moves).channels[targets[j].chan].closed
    decreases |batches|
  {
    var fan := FanOut(channels, targets, Batch(batches[0]), moves, true);
    FanOutAllCons(channels, targets, batches, moves);
    if b == 0 {
      ClosedTryIsClosed(channels, targets, Batch(batches[0]), moves, true, j);
      FanOutAllKeepsClosed(fan.channels, targets, batches[1..], fan.rest, targets[j].chan);
    } else {
      ClosedRoundIsClosed(fan.channels, targets, batches[1..], fan.rest, b - 1, j);
    }
  }

  /** The first target is reached in every round, so as long as it is open it is counted in full. */
  lemma FirstIsServed(channels: seq<Channel>, targets: seq<Target>, batches: seq<seq<ProtoPacket>>, moves: seq<seq<EnvMove>>)
    requires InRange(targets, |channels|) && DistinctTargets(targets) && targets != []
    requires forall b :: 0 <= b < |batches| ==> batches[b] != []
    requires !FanOutAll(channels, targets, batches, moves).channels[targets[0].chan].closed
    ensures var rounds := FanOutAll(channels, targets, batches, moves).rounds;
            Tally(rounds, batches, targets[0].pubkey, Delivered) + Tally(rounds, batches, targets[0].pubkey, Full) == |Flatten(batches)|
  {
    var rounds := FanOutAll(channels, targets, batches, moves).rounds;
    TriedPrefixesShrink(channels, targets, batches, moves);
    forall b | 0 <= b < |rounds| ensures ServedIn(rounds[b], 0) {
      assert StopsAtFirstClosed(targets, rounds[b]) && |rounds[b]| > 0;
      if rounds[b][0].outcome.Closed? {
        ClosedRoundIsClosed(channels, targets, batches, moves, b, 0);
      }
    }
    CountedInFullExactly(targets, rounds, batches, 0);
  }

  /** If the first hangs up, an open subscriber behind it gets nothing of the event. */
  lemma HangUpStarves(channels: seq<Channel>, targets: seq<Target>, batches: seq<seq<ProtoPacket>>, j: nat)
    requires InRange(targets, |channels|) && DistinctTargets(targets) && batches != [] && 1 <= j < |targets|
    requires !channels[targets[j].chan].closed
    ensures var r := FanOutAll(channels, targets, batches, HangUpFirst(targets));
            && r.channels[targets[j].chan] == channels[targets[j].chan]
            && Tally(r.rounds, batches, targets[j].pubkey, Delivered) + Tally(r.rounds, batches, targets[j].pubkey, Full) == 0
  {
    HangUpEndsEverything(channels, targets, batches);
    var rounds := OnlyFirstTried(targets, |batches|);
    TriedPrefixesShrink(channels, targets, batches, HangUpFirst(targets));
    CountedIsServed(targets, rounds, batches, j);
    NeverServed(rounds, batches, j);
  }

  lemma {:induction false} NeverServed(rounds: seq<seq<Try>>, batches: seq<seq<ProtoPacket>>, j: nat)
    requires |rounds| <= |batches| && forall b :: 0 <= b < |rounds| ==> !ServedIn(rounds[b], j)
    ensures ServedSize(rounds, batches, j) == 0
  {
    if rounds != [] {
      NeverServed(rounds[..|rounds| - 1], batches, j);
    }
  }

  /** Whatever subscribers do meanwhile, those still connected are counted in full exactly
      if there is nothing to send or nobody behind the first target is open. */
  lemma OpenServedExactly(channels: seq<Channel>, targets: seq<Target>, batches: seq<seq<ProtoPacket>>)
    requires InRange(targets, |channels|) && DistinctTargets(targets)
    requires forall b :: 0 <= b < |batches| ==> batches[b] != []
    ensures (forall moves :: OpenAreServed(channels, targets, batches, moves))
       <==> batches == [] || OnlyFirstOpen(channels, targets)
  {
    if batches == [] {
    } else if OnlyFirstOpen(channels, targets) {
      forall moves ensures OpenAreServed(channels, targets, batches, moves) {
        OnlyFirstMatters(channels, targets, batches, moves);
      }
    } else {
      var j :| 1 <= j < |targets| && !channels[targets[j].chan].closed;
      HangUpStarves(channels, targets, batches, j);
      NotEmpty(batches);
      assert targets[j] in targets && !OpenAreServed(channels, targets, batches, HangUpFirst(targets));
    }
  }

  lemma NotEmpty(batches: seq<seq<ProtoPacket>>)
    requires batches != [] && batches[0] != []
    ensures Flatten(batches) != []
  {
  }

  lemma OnlyFirstMatters(channels: seq<Channel>, targets: seq<Target>, batches: seq<seq<ProtoPacket>>, moves: seq<seq<EnvMove>>)
    requires InRange(targets, |channels|) && DistinctTargets(targets) && OnlyFirstOpen(channels, targets)
    requires forall b :: 0 <= b < |batches| ==> batches[b] != []
    ensures OpenAreServed(channels, targets, batches, moves)
  {
    var r := FanOutAll(channels, targets, batches, moves);
    forall t | t in targets && !r.channels[t.chan].closed
      ensures Tally(r.rounds, batches, t.pubkey, Delivered) + Tally(r.rounds, batches, t.pubkey, Full) == |Flatten(batches)|
    {
      var j :| 0 <= j < |targets| && targets[j] == t;
      if j > 0 {
        FanOutAllKeepsClosed(channels, targets, batches, moves, t.chan);
      } else {
        FirstIsServed(channels, targets, batches, moves);
      }
    }
  }

  // ---------- one packet event ----------

  /** Every subscriber in the audience that is connected after the event was counted for
      all its filtered packets. */
  ghost predicate EverybodyServed(cfg: Config, s: State, e: Event)
    requires WalksAudience(cfg, s, e)
  {
    forall p :: p in s.subs && p in e.order && !Step(cfg, s, e).channels[s.subs[p]].closed ==>
      EventTally(cfg, s, e, p, Delivered) + EventTally(cfg, s, e, p, Full) == |Filtered(cfg.ofac, e.batches)|
  }

  lemma TargetsAreSubscribers(cfg: Config, s: State, e: Event, t: Target)
    requires WalksAudience(cfg, s, e)
    ensures t in Targets(s.subs, e.order) <==> t.pubkey in s.subs && t.pubkey in e.order && t.chan == s.subs[t.pubkey]
  {
    WalksMeaning(cfg, s, e);
    if t in Targets(s.subs, e.order) {
      var i :| 0 <= i < |Targets(s.subs, e.order)| && Targets(s.subs, e.order)[i] == t;
    }
  }

  lemma EverybodyIsEveryTarget(cfg: Config, s: State, e: Event)
    requires WalksAudience(cfg, s, e)
    ensures InRange(Targets(s.subs, e.order), |s.channels|)
    ensures EverybodyServed(cfg, s, e)
       <==> OpenAreServed(s.channels, Targets(s.subs, e.order), Chunks(Filtered(cfg.ofac, e.batches), cfg.batchSize), e.moves)
  {
    WalksMeaning(cfg, s, e);
    ChunksMeaning(Filtered(cfg.ofac, e.batches), cfg.batchSize);
    forall p | p in s.subs && p in e.order ensures Target(p, s.subs[p]) in Targets(s.subs, e.order) {
      TargetsAreSubscribers(cfg, s, e, Target(p, s.subs[p]));
    }
    forall t | t in Targets(s.subs, e.order) ensures t.pubkey in s.subs && t.pubkey in e.order && t.chan == s.subs[t.pubkey] {
      TargetsAreSubscribers(cfg, s, e, t);
    }
  }

  lemma ChunksNotEmpty(packets: seq<ProtoPacket>, size: nat)
    requires size > 0
    ensures forall b :: 0 <= b < |Chunks(packets, size)| ==> Chunks(packets, size)[b] != []
    ensures Chunks(packets, size) == [] <==> packets == []
  {
    ChunksMeaning(packets, size);
    forall b | 0 <= b < |Chunks(packets, size)| ensures Chunks(packets, size)[b] != [] {
      assert Chunks(packets, size)[b] in Chunks(packets, size);
    }
  }

  /** For a given walk of the audience: everybody still connected is counted in full,
      whatever subscribers do, exactly if the filter leaves nothing or only the first
      subscriber of the walk is open. */
  lemma BreakHarmlessExactly(cfg: Config, s: State, batches: seq<seq<Arrival>>, order: seq<Pubkey>)
    requires Valid(s) && Enumerates(order, Audience(cfg, s))
    ensures InRange(Targets(s.subs, order), |s.channels|)
    ensures (forall moves :: EverybodyServed(cfg, s, PacketBatches(batches, order, moves)))
       <==> Filtered(cfg.ofac, batches) == [] || OnlyFirstOpen(s.channels, Targets(s.subs, order))
  {
    var targets := Targets(s.subs, order);
    var chunks := Chunks(Filtered(cfg.ofac, batches), cfg.batchSize);
    StepTargetsDistinct(s, order, Audience(cfg, s));
    ChunksNotEmpty(Filtered(cfg.ofac, batches), cfg.batchSize);
    OpenServedExactly(s.channels, targets, chunks);
    forall moves
      ensures EverybodyServed(cfg, s, PacketBatches(batches, order, moves)) <==> OpenAreServed(s.channels, targets, chunks, moves)
    {
      EverybodyIsEveryTarget(cfg, s, PacketBatches(batches, order, moves));
    }
  }

  /** The instance: the first subscriber of the walk hangs up, and the open subscriber `p`
      behind it gets none of the filtered packets and stays connected. */
  lemma OpenSubscriberGetsNothing(cfg: Config, s: State, batches: seq<seq<Arrival>>, order: seq<Pubkey>, p: Pubkey) returns (e: Event)
    requires Valid(s) && Enumerates(order, Audience(cfg, s)) && Filtered(cfg.ofac, batches) != []
    requires p in order && p in s.subs && !s.channels[s.subs[p]].closed
    requires |Targets(s.subs, order)| > 0 && Targets(s.subs, order)[0].pubkey != p
    ensures WalksAudience(cfg, s, e) && e.batches == batches && e.order == order
    ensures Step(cfg, s, e).channels[s.subs[p]] == s.channels[s.subs[p]]
    ensures EventTally(cfg, s, e, p, Delivered) + EventTally(cfg, s, e, p, Full) == 0
  {
    var targets := Targets(s.subs, order);
    e := PacketBatches(batches, order, HangUpFirst(targets));
    WalksMeaning(cfg, s, e);
    ChunksNotEmpty(Filtered(cfg.ofac, batches), cfg.batchSize);
    assert Target(p, s.subs[p]) in targets;
    var j :| 0 <= j < |targets| && targets[j] == Target(p, s.subs[p]);
    HangUpStarves(s.channels, targets, Chunks(Filtered(cfg.ofac, batches), cfg.batchSize), j);
  }

  /** Some order in which a walk can visit the set, starting with a given member. */
  lemma {:induction false} WalkFrom(members: set<Pubkey>, first: Pubkey) returns (order: seq<Pubkey>)
    requires first in members
    ensures Enumerates(order, members) && order[0] == first
    decreases members
  {
    var others := members - {first};
    if others == {} {
      order := [first];
    } else {
      var next :| next in others;
      var rest := WalkFrom(others, next);
      order := [first] + rest;
      assert forall i :: 1 <= i < |order| ==> order[i] == rest[i - 1];
    }
  }

  /** Of any two subscribers in the audience neither is open: an open one is alone. */
  ghost predicate OpenIsAlone(cfg: Config, s: State)
    requires Valid(s)
  {
    forall p, q :: p in s.subs && q in s.subs && p in Audience(cfg, s) && q in Audience(cfg, s) && p != q
      ==> s.channels[s.subs[p]].closed
  }

  /** In whatever order the audience is walked and whatever subscribers do, everybody still
      connected is counted in full, exactly if the filter leaves nothing or an open
      subscriber is the only one in the audience. */
  lemma BreakHarmlessInEveryOrder(cfg: Config, s: State, batches: seq<seq<Arrival>>)
    requires Valid(s)
    ensures (forall order, moves :: Enumerates(order, Audience(cfg, s)) ==> EverybodyServed(cfg, s, PacketBatches(batches, order, moves)))
       <==> Filtered(cfg.ofac, batches) == [] || OpenIsAlone(cfg, s)
  {
    if Filtered(cfg.ofac, batches) == [] || OpenIsAlone(cfg, s) {
      forall order, moves | Enumerates(order, Audience(cfg, s)) ensures EverybodyServed(cfg, s, PacketBatches(batches, order, moves)) {
        AloneIsFirst(cfg, s, batches, order);
        BreakHarmlessExactly(cfg, s, batches, order);
      }
    } else {
      var p, q :| p in s.subs && q in s.subs && p in Audience(cfg, s) && q in Audience(cfg, s) && p != q
                  && !s.channels[s.subs[p]].closed;
      var order := WalkFrom(Audience(cfg, s), q);
      assert p in order && Targets(s.subs, order)[0] == Target(q, s.subs[q]);
      var e := OpenSubscriberGetsNothing(cfg, s, batches, order, p);
      assert !EverybodyServed(cfg, s, PacketBatches(batches, order, e.moves));
    }
  }

  lemma AloneIsFirst(cfg: Config, s: State, batches: seq<seq<Arrival>>, order: seq<Pubkey>)
    requires Valid(s) && Enumerates(order, Audience(cfg, s)) && (Filtered(cfg.ofac, batches) == [] || OpenIsAlone(cfg, s))
    ensures InRange(Targets(s.subs, order), |s.channels|)
    ensures Filtered(cfg.ofac, batches) == [] || OnlyFirstOpen(s.channels, Targets(s.subs, order))
  {
    var targets := Targets(s.subs, order);
    StepTargetsDistinct(s, order, Audience(cfg, s));
    if OpenIsAlone(cfg, s) {
      forall j | 1 <= j < |targets| ensures s.channels[targets[j].chan].closed {
        assert targets[0].pubkey != targets[j].pubkey;
      }
    }
  }

  // ---------- counting removals ----------

  /** The counter of dropped connections grows by as many as leave the map. */
  ghost predicate RemovalsRight(cfg: Config, s: State, e: Event)
    requires Valid(s)
  {
    Step(cfg, s, e).metrics.removed - s.metrics.removed == |s.subs| - |Step(cfg, s, e).subs|
  }

  ghost function DropList(cfg: Config, s: State, e: Event): seq<Pubkey>
    requires Valid(s) && e.PacketBatches?
  {
    ClosedInAll(Forward(cfg, s, e.batches, e.order, e.moves).rounds)
  }

  lemma DroppedAreSubscribed(cfg: Config, s: State, e: Event)
    requires WalksAudience(cfg, s, e)
    ensures Keys(DropList(cfg, s, e)) <= s.subs.Keys
  {
    var targets := Targets(s.subs, e.order);
    var chunks := Chunks(Filtered(cfg.ofac, e.batches), cfg.batchSize);
    var rounds := Forward(cfg, s, e.batches, e.order, e.moves).rounds;
    forall p | p in DropList(cfg, s, e) ensures p in s.subs {
      ClosedInAllMember(rounds, p);
      var b :| 0 <= b < |rounds| && Try(p, Closed) in rounds[b];
      DroppedWereClosed(s.channels, targets, chunks, e.moves, b, p);
    }
  }

  /** The counter grows by the length of the drop list; what leaves are the keys on it,
      each once however often it is listed. */
  lemma CountedAndLeaving(cfg: Config, s: State, e: Event)
    requires WalksAudience(cfg, s, e)
    ensures Step(cfg, s, e).metrics.removed - s.metrics.removed == |DropList(cfg, s, e)|
    ensures |s.subs| - |Step(cfg, s, e).subs| == |Keys(DropList(cfg, s, e))|
  {
    DroppedAreSubscribed(cfg, s, e);
    var gone := Keys(DropList(cfg, s, e));
    assert Step(cfg, s, e).subs.Keys == s.subs.Keys - gone;
    assert |s.subs.Keys - gone| == |s.subs.Keys| - |gone|;
  }

  lemma DropListAtMost(cfg: Config, s: State, e: Event)
    requires WalksAudience(cfg, s, e)
    ensures |DropList(cfg, s, e)| <= |Chunks(Filtered(cfg.ofac, e.batches), cfg.batchSize)|
    ensures Targets(s.subs, e.order) == [] ==> DropList(cfg, s, e) == []
  {
    var targets := Targets(s.subs, e.order);
    var rounds := Forward(cfg, s, e.batches, e.order, e.moves).rounds;
    WalksMeaning(cfg, s, e);
    var first := FirstClosedExists(targets, rounds);
    DropListRepeats(targets, rounds, first);
    assert targets == [] ==> forall b :: 0 <= b < |rounds| ==> !EndsClosed(rounds[b]);
  }

  lemma ShortListsAreRight(list: seq<Pubkey>)
    requires |list| <= 1
    ensures |Keys(list)| == |list|
  {
    if list != [] {
      assert Keys(list) == {list[0]};
    }
  }

  lemma {:induction false} SameKeyRepeats(targets: seq<Target>, n: nat)
    requires targets != []
    ensures ClosedInAll(OnlyFirstTried(targets, n)) == seq(n, _ => targets[0].pubkey)
  {
    if n > 0 {
      SameKeyRepeats(targets, n - 1);
      var rounds := OnlyFirstTried(targets, n);
      assert rounds[..n - 1] == OnlyFirstTried(targets, n - 1);
      assert ClosedIn(rounds[n - 1]) == [targets[0].pubkey];
    }
  }

  lemma RepeatsAreOneKey(targets: seq<Target>, n: nat)
    requires targets != [] && n > 0
    ensures |ClosedInAll(OnlyFirstTried(targets, n))| == n && |Keys(ClosedInAll(OnlyFirstTried(targets, n)))| == 1
  {
    SameKeyRepeats(targets, n);
    var list := seq(n, _ => targets[0].pubkey);
    assert list[0] == targets[0].pubkey;
    assert Keys(list) == {targets[0].pubkey};
  }

  lemma DropListAfterHangUp(cfg: Config, s: State, e: Event)
    requires WalksAudience(cfg, s, e) && Targets(s.subs, e.order) != [] && e.moves == HangUpFirst(Targets(s.subs, e.order))
    requires Chunks(Filtered(cfg.ofac, e.batches), cfg.batchSize) != []
    ensures DropList(cfg, s, e)
         == ClosedInAll(OnlyFirstTried(Targets(s.subs, e.order), |Chunks(Filtered(cfg.ofac, e.batches), cfg.batchSize)|))
  {
    WalksMeaning(cfg, s, e);
    HangUpEndsEverything(s.channels, Targets(s.subs, e.order), Chunks(Filtered(cfg.ofac, e.batches), cfg.batchSize));
  }

  /** The instance: with two chunks or more, one subscriber that hangs up is the only key to
      leave and is counted once for every chunk. */
  lemma RemovalsOvercounted(cfg: Config, s: State, batches: seq<seq<Arrival>>, order: seq<Pubkey>) returns (e: Event)
    requires Valid(s) && Enumerates(order, Audience(cfg, s)) && Targets(s.subs, order) != []
    requires |Chunks(Filtered(cfg.ofac, batches), cfg.batchSize)| >= 2
    ensures WalksAudience(cfg, s, e) && e.batches == batches && e.order == order
    ensures |Step(cfg, s, e).subs| == |s.subs| - 1
    ensures Step(cfg, s, e).metrics.removed == s.metrics.removed + |Chunks(Filtered(cfg.ofac, batches), cfg.batchSize)|
    ensures !RemovalsRight(cfg, s, e)
  {
    e := PacketBatches(batches, order, HangUpFirst(Targets(s.subs, order)));
    DropListAfterHangUp(cfg, s, e);
    RepeatsAreOneKey(Targets(s.subs, order), |Chunks(Filtered(cfg.ofac, batches), cfg.batchSize)|);
    CountedAndLeaving(cfg, s, e);
  }

  /** Whatever subscribers do, the counter is right for a packet event exactly if it has at
      most one chunk or nobody to send to. */
  lemma RemovalCounterRightExactly(cfg: Config, s: State, batches: seq<seq<Arrival>>, order: seq<Pubkey>)
    requires Valid(s) && Enumerates(order, Audience(cfg, s))
    ensures (forall moves :: RemovalsRight(cfg, s, PacketBatches(batches, order, moves)))
       <==> |Chunks(Filtered(cfg.ofac, batches), cfg.batchSize)| <= 1 || Targets(s.subs, order) == []
  {
    if |Chunks(Filtered(cfg.ofac, batches), cfg.batchSize)| <= 1 || Targets(s.subs, order) == [] {
      forall moves ensures RemovalsRight(cfg, s, PacketBatches(batches, order, moves)) {
        var e := PacketBatches(batches, order, moves);
        CountedAndLeaving(cfg, s, e);
        DropListAtMost(cfg, s, e);
        ShortListsAreRight(DropList(cfg, s, e));
      }
    } else {
      var e := RemovalsOvercounted(cfg, s, batches, order);
      assert !RemovalsRight(cfg, s, PacketBatches(batches, order, e.moves));
    }
  }

  // ---------- which configurations are affected ----------

  /** An arrival that every filter passes: decoded, without any account. */
  const HARMLESS := Arrival(Packet(false, Some(Transaction([], {}, None)), Some(ProtoPacket([]))), [])

  lemma {:induction false} HarmlessPasses(ofac: set<Pubkey>, n: nat)
    ensures |FilterBatch(ofac, seq(n, _ => HARMLESS))| == n
  {
    if n > 0 {
      HarmlessPasses(ofac, n - 1);
      assert seq(n, _ => HARMLESS)[1..] == seq(n - 1, _ => HARMLESS);
    }
  }

  lemma HarmlessBatch(ofac: set<Pubkey>, n: nat) returns (batches: seq<seq<Arrival>>)
    ensures |Filtered(ofac, batches)| == n
  {
    batches := [seq(n, _ => HARMLESS)];
    HarmlessPasses(ofac, n);
    assert Filtered(ofac, batches) == FilterBatch(ofac, batches[0]) + Filtered(ofac, batches[1..]);
  }

  lemma AppendExec(cfg: Config, run: seq<Event>, e: Event)
    ensures Exec(cfg, run + [e]) == Step(cfg, Exec(cfg, run), e)
  {
    assert (run + [e])[..|run|] == run;
  }

  /** Validators 0 and 1 subscribe. */
  lemma TwoSubscribe(cfg: Config) returns (run: seq<Event>)
    ensures var s := Exec(cfg, run);
            && s.subs == map[0 := 0, 1 := 1] && |s.channels| == 2
            && !s.channels[0].closed && !s.channels[1].closed
  {
    assert Exec(cfg, []) == INIT;
    AppendExec(cfg, [], Subscribe(0, false));
    var first := [] + [Subscribe(0, false)];
    assert Exec(cfg, first).subs == map[0 := 0] && Exec(cfg, first).channels == [Channel([], 0, false)];
    AppendExec(cfg, first, Subscribe(1, false));
    run := first + [Subscribe(1, false)];
  }

  /** Both are served, either because everybody is or because both lead a slot of the window. */
  lemma BothInAudience(cfg: Config) returns (run: seq<Event>)
    requires cfg.forwardAll || cfg.slotLookahead >= 2
    ensures !OpenIsAlone(cfg, Exec(cfg, run))
  {
    var before := TwoSubscribe(cfg);
    var schedule: map<nat, Pubkey> := map[0 := 0, 1 := 1];
    var e := SlotUpdate(0, schedule);
    AppendExec(cfg, before, e);
    run := before + [e];
    var s := Exec(cfg, run);
    if !cfg.forwardAll {
      ScheduleCache.LeadersOfWindow(schedule, 0, cfg.slotLookahead, 0);
      ScheduleCache.LeadersOfWindow(schedule, 0, cfg.slotLookahead, 1);
      assert 0 in schedule && schedule[0] == 0 && 1 in schedule && schedule[1] == 1;
    }
    assert 0 in Audience(cfg, s) && 1 in Audience(cfg, s) && 0 in s.subs && 1 in s.subs;
    assert !s.channels[s.subs[0]].closed;
  }

  /** With one slot of lookahead at most one validator is served at a time. */
  lemma OneLeader(cfg: Config, run: seq<Event>)
    requires !cfg.forwardAll && cfg.slotLookahead <= 1
    ensures OpenIsAlone(cfg, Exec(cfg, run))
  {
    var s := Exec(cfg, run);
    forall p, q | p in s.slotLeaders && q in s.slotLeaders ensures p == q {
      LeadsTheSlot(cfg, run, p);
      LeadsTheSlot(cfg, run, q);
    }
  }

  lemma LeadsTheSlot(cfg: Config, run: seq<Event>, p: Pubkey)
    requires cfg.slotLookahead <= 1 && p in Exec(cfg, run).slotLeaders
    ensures LastSlotUpdate(run).Some?
    ensures var e := run[LastSlotUpdate(run).value]; e.slot in e.schedule && e.schedule[e.slot] == p
  {
    LeadersMatchLatestSlot(cfg, run, p);
  }

  /** In every run everybody still connected after a packet event has been counted for all
      its packets: true of a configuration exactly if not everybody is served and the
      lookahead is at most one slot. */
  lemma {:induction false} BreakHarmlessConfigurations(cfg: Config)
    ensures (forall run, batches, order, moves :: Enumerates(order, Audience(cfg, Exec(cfg, run)))
               ==> EverybodyServed(cfg, Exec(cfg, run), PacketBatches(batches, order, moves)))
       <==> !cfg.forwardAll && cfg.slotLookahead <= 1
  {
    if !cfg.forwardAll && cfg.slotLookahead <= 1 {
      forall run, batches, order, moves | Enumerates(order, Audience(cfg, Exec(cfg, run)))
        ensures EverybodyServed(cfg, Exec(cfg, run), PacketBatches(batches, order, moves))
      {
        OneLeader(cfg, run);
        BreakHarmlessInEveryOrder(cfg, Exec(cfg, run), batches);
      }
    } else {
      var run := BothInAudience(cfg);
      var batches := HarmlessBatch(cfg.ofac, 1);
      BreakHarmlessInEveryOrder(cfg, Exec(cfg, run), batches);
    }
  }

  lemma SecondChunk(packets: seq<ProtoPacket>, size: nat)
    requires size > 0 && |packets| > size
    ensures |Chunks(packets, size)| >= 2
  {
    assert Chunks(packets, size) == [packets[..size]] + Chunks(packets[size..], size);
    assert packets[size..] != [];
  }

  /** Validator 0 is connected and served. */
  lemma OneInAudience(cfg: Config) returns (run: seq<Event>)
    requires cfg.forwardAll || cfg.slotLookahead >= 1
    ensures 0 in Exec(cfg, run).subs && 0 in Audience(cfg, Exec(cfg, run))
  {
    var before := TwoSubscribe(cfg);
    var schedule: map<nat, Pubkey> := map[0 := 0];
    var e := SlotUpdate(0, schedule);
    AppendExec(cfg, before, e);
    run := before + [e];
    if !cfg.forwardAll {
      ScheduleCache.LeadersOfWindow(schedule, 0, cfg.slotLookahead, 0);
      assert 0 in schedule && schedule[0] == 0;
    }
  }

  /** The counter of dropped connections is right for every packet event of every run
      exactly in a configuration that never serves anybody. */
  lemma {:induction false} RemovalsRightConfigurations(cfg: Config)
    ensures (forall run, batches, order, moves :: Enumerates(order, Audience(cfg, Exec(cfg, run)))
               ==> RemovalsRight(cfg, Exec(cfg, run), PacketBatches(batches, order, moves)))
       <==> !cfg.forwardAll && cfg.slotLookahead == 0
  {
    if !cfg.forwardAll && cfg.slotLookahead == 0 {
      forall run, batches, order, moves | Enumerates(order, Audience(cfg, Exec(cfg, run)))
        ensures RemovalsRight(cfg, Exec(cfg, run), PacketBatches(batches, order, moves))
      {
        NobodyServed(cfg, run, order);
        RemovalCounterRightExactly(cfg, Exec(cfg, run), batches, order);
      }
    } else {
      var run := OneInAudience(cfg);
      var s := Exec(cfg, run);
      var batches := HarmlessBatch(cfg.ofac, cfg.batchSize + 1);
      SecondChunk(Filtered(cfg.ofac, batches), cfg.batchSize);
      var order := WalkFrom(Audience(cfg, s), 0);
      assert Targets(s.subs, order) != [];
      var e := RemovalsOvercounted(cfg, s, batches, order);
      assert !RemovalsRight(cfg, Exec(cfg, run), PacketBatches(batches, order, e.moves));
    }
  }

  lemma NobodyServed(cfg: Config, run: seq<Event>, order: seq<Pubkey>)
    requires !cfg.forwardAll && cfg.slotLookahead == 0 && Enumerates(order, Audience(cfg, Exec(cfg, run)))
    ensures Targets(Exec(cfg, run).subs, order) == []
  {
    var s := Exec(cfg, run);
    forall p ensures p !in s.slotLeaders {
      LeadersMatchLatestSlot(cfg, run, p);
    }
    SomebodyOrdered(s.subs, order);
  }

  lemma SomebodyOrdered(subs: map<Pubkey, nat>, order: seq<Pubkey>)
    ensures Targets(subs, order) != [] ==> exists p :: p in order
  {
    if order != [] {
      assert order[0] in order;
    }
  }
}
