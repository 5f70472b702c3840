/** What reaches a subscriber's queue, said in numbers only: which messages are waiting,
    who is still there, how much room is left (relayer/src/relayer.rs). */
module QueueLaws {
  import opened Common
  import opened Transactions
  import opened Relayer
  import opened FanOutProofs
  import opened RelayerRuns
  import HealthManager

  // ---------- one channel ----------

  function Reads(moves: seq<EnvMove>, c: nat): nat {
    multiset(moves)[Read(c)]
  }

  ghost predicate Sane(channels: seq<Channel>) {
    forall c :: 0 <= c < |channels| ==> channels[c].read <= |channels[c].history|
  }

  /** Each read takes one message while there is one, and only a hang-up closes. */
  lemma {:induction false} MovesExactly(channels: seq<Channel>, moves: seq<EnvMove>, c: nat)
    requires c < |channels| && Sane(channels)
    ensures Sane(MoveAll(channels, moves))
    ensures MoveAll(channels, moves)[c]
         == Channel(channels[c].history, Min(|channels[c].history|, channels[c].read + Reads(moves, c)),
                    channels[c].closed || HangUp(c) in moves)
    decreases |moves|
  {
    if moves != [] {
      MovesExactly(Move(channels, moves[0]), moves[1..], c);
      ReadsConcat([moves[0]], moves[1..], c);
      assert [moves[0]] + moves[1..] == moves;
    }
  }

  lemma ReadsConcat(a: seq<EnvMove>, b: seq<EnvMove>, c: nat)
    ensures Reads(a + b, c) == Reads(a, c) + Reads(b, c)
    ensures HangUp(c) in a + b <==> HangUp(c) in a || HangUp(c) in b
  {
  }

  // ---------- one fan-out ----------

  /** Everything subscribers do before the `i`-th try. */
  function Before(moves: seq<seq<EnvMove>>, i: nat): seq<EnvMove> {
    Flatten(moves[..Min(i + 1, |moves|)])
  }

  /** The `i`-th target has hung up by its try. */
  predicate GoneAt(channels: seq<Channel>, targets: seq<Target>, moves: seq<seq<EnvMove>>, i: nat)
    requires InRange(targets, |channels|) && i < |targets|
  {
    channels[targets[i].chan].closed || HangUp(targets[i].chan) in Before(moves, i)
  }

  /** The messages the `i`-th target has not read by its try. */
  function UnreadAt(channels: seq<Channel>, targets: seq<Target>, moves: seq<seq<EnvMove>>, i: nat): nat
    requires InRange(targets, |channels|) && i < |targets|
  {
    Max(0, |channels[targets[i].chan].history| - channels[targets[i].chan].read - Reads(Before(moves, i), targets[i].chan))
  }

  function OutcomeAt(channels: seq<Channel>, targets: seq<Target>, moves: seq<seq<EnvMove>>, i: nat): Outcome
    requires InRange(targets, |channels|) && i < |targets|
  {
    if GoneAt(channels, targets, moves, i) then Closed
    else if UnreadAt(channels, targets, moves, i) >= SUBSCRIBER_QUEUE_CAPACITY then Full
    else Delivered
  }

  lemma BeforeFirst(moves: seq<seq<EnvMove>>)
    ensures Before(moves, 0) == Head(moves)
  {
    if moves != [] {
      assert moves[..1] == [moves[0]] && Flatten([moves[0]]) == moves[0] + Flatten([moves[0]][1..]);
    }
  }

  lemma BeforeNext(moves: seq<seq<EnvMove>>, i: nat)
    requires i > 0
    ensures Before(moves, i) == Head(moves) + Before(Tail(moves), i - 1)
  {
    if moves != [] {
      var n := Min(i + 1, |moves|);
      assert moves[..n][0] == moves[0] && moves[..n][1..] == moves[1..][..n - 1];
    }
  }

  /** The state in which the rest of the targets is tried gives the same picture. */
  lemma LaterTargets(channels: seq<Channel>, targets: seq<Target>, m: Message, moves: seq<seq<EnvMove>>, i: nat)
    requires InRange(targets, |channels|) && DistinctTargets(targets) && Sane(channels) && 0 < i < |targets|
    ensures var sent := Deliver(MoveAll(channels, Head(moves)), targets[0].chan, m);
            && Sane(sent) && InRange(targets[1..], |sent|) && targets[1..][i - 1] == targets[i]
            && sent[targets[i].chan].history == channels[targets[i].chan].history
            && GoneAt(sent, targets[1..], Tail(moves), i - 1) == GoneAt(channels, targets, moves, i)
            && UnreadAt(sent, targets[1..], Tail(moves), i - 1) == UnreadAt(channels, targets, moves, i)
            && OutcomeAt(sent, targets[1..], Tail(moves), i - 1) == OutcomeAt(channels, targets, moves, i)
  {
    var c := targets[i].chan;
    MovesExactly(channels, Head(moves), c);
    MovesExactly(channels, Head(moves), targets[0].chan);
    BeforeNext(moves, i);
    ReadsConcat(Head(moves), Before(Tail(moves), i - 1), c);
  }

  lemma LaterDistinct(targets: seq<Target>)
    requires DistinctTargets(targets) && targets != []
    ensures DistinctTargets(targets[1..])
  {
    assert forall i :: 0 <= i < |targets[1..]| ==> targets[1..][i] == targets[i + 1];
  }

  /** The `i`-th target is reached: nobody before it had hung up, or a heartbeat is sent. */
  ghost predicate Reached(channels: seq<Channel>, targets: seq<Target>, moves: seq<seq<EnvMove>>, stop: bool, i: nat)
    requires InRange(targets, |channels|) && i < |targets|
  {
    stop ==> forall k :: 0 <= k < i ==> !GoneAt(channels, targets, moves, k)
  }

  /** A target that is reached gets the message exactly if it is still there and has fewer
      unread messages than fit; one that is not reached gets nothing. */
  ghost predicate SentExactly(channels: seq<Channel>, targets: seq<Target>, m: Message, moves: seq<seq<EnvMove>>, stop: bool, i: nat)
    requires InRange(targets, |channels|) && i < |targets|
  {
    var fan := FanOut(channels, targets, m, moves, stop);
    var c := targets[i].chan;
    && (i < |fan.tries| <==> Reached(channels, targets, moves, stop, i))
    && (i < |fan.tries| ==> fan.tries[i] == Try(targets[i].pubkey, OutcomeAt(channels, targets, moves, i)))
    && fan.channels[c].history
       == channels[c].history
          + if && Reached(channels, targets, moves, stop, i) && !GoneAt(channels, targets, moves, i)
               && UnreadAt(channels, targets, moves, i) < SUBSCRIBER_QUEUE_CAPACITY
            then [m] else []
  }

  lemma FirstOutcome(channels: seq<Channel>, targets: seq<Target>, moves: seq<seq<EnvMove>>)
    requires InRange(targets, |channels|) && Sane(channels) && targets != []
    ensures OutcomeOf(MoveAll(channels, Head(moves))[targets[0].chan]) == OutcomeAt(channels, targets, moves, 0)
    ensures MoveAll(channels, Head(moves))[targets[0].chan].history == channels[targets[0].chan].history
  {
    MovesExactly(channels, Head(moves), targets[0].chan);
    BeforeFirst(moves);
  }

  /** A channel that is not a target gets nothing. */
  lemma OthersGetNothing(channels: seq<Channel>, targets: seq<Target>, m: Message, moves: seq<seq<EnvMove>>, stop: bool, c: nat)
    requires InRange(targets, |channels|) && DistinctTargets(targets) && c < |channels|
    requires forall i :: 0 <= i < |targets| ==> targets[i].chan != c
    ensures FanOut(channels, targets, m, moves, stop).channels[c].history == channels[c].history
  {
    FanOutHistory(channels, targets, m, moves, stop, c);
    assert channels[c].history + [] == channels[c].history;
  }

  lemma FirstSent(channels: seq<Channel>, targets: seq<Target>, m: Message, moves: seq<seq<EnvMove>>, stop: bool)
    requires InRange(targets, |channels|) && DistinctTargets(targets) && Sane(channels) && targets != []
    ensures SentExactly(channels, targets, m, moves, stop, 0)
  {
    var c := targets[0].chan;
    var sent := Deliver(MoveAll(channels, Head(moves)), c, m);
    FirstOutcome(channels, targets, moves);
    assert channels[c].history + [] == channels[c].history;
    if !(stop && OutcomeAt(channels, targets, moves, 0).Closed?) {
      LaterDistinct(targets);
      assert forall i :: 0 <= i < |targets[1..]| ==> targets[1..][i] == targets[i + 1];
      OthersGetNothing(sent, targets[1..], m, Tail(moves), stop, c);
    }
  }

  /** `sent` and the rest of the moves show the later targets as before. */
  ghost predicate SamePicture(channels: seq<Channel>, targets: seq<Target>, moves: seq<seq<EnvMove>>, sent: seq<Channel>) {
    && targets != [] && InRange(targets, |channels|) && InRange(targets[1..], |sent|)
    && forall k :: 0 <= k < |targets[1..]| ==>
         && GoneAt(sent, targets[1..], Tail(moves), k) == GoneAt(channels, targets, moves, k + 1)
         && OutcomeAt(sent, targets[1..], Tail(moves), k) == OutcomeAt(channels, targets, moves, k + 1)
  }

  lemma PictureStays(channels: seq<Channel>, targets: seq<Target>, m: Message, moves: seq<seq<EnvMove>>)
    requires InRange(targets, |channels|) && DistinctTargets(targets) && Sane(channels) && targets != []
    ensures SamePicture(channels, targets, moves, Deliver(MoveAll(channels, Head(moves)), targets[0].chan, m))
  {
    var sent := Deliver(MoveAll(channels, Head(moves)), targets[0].chan, m);
    assert forall k :: 0 <= k < |targets[1..]| ==> targets[1..][k] == targets[k + 1];
    forall k | 0 <= k < |targets[1..]|
      ensures GoneAt(sent, targets[1..], Tail(moves), k) == GoneAt(channels, targets, moves, k + 1)
      ensures OutcomeAt(sent, targets[1..], Tail(moves), k) == OutcomeAt(channels, targets, moves, k + 1)
    {
      LaterTargets(channels, targets, m, moves, k + 1);
    }
  }

  lemma ReachedLater(channels: seq<Channel>, targets: seq<Target>, moves: seq<seq<EnvMove>>, sent: seq<Channel>, stop: bool, i: nat)
    requires SamePicture(channels, targets, moves, sent) && 0 < i < |targets|
    ensures Reached(channels, targets, moves, stop, i)
       <==> !(stop && GoneAt(channels, targets, moves, 0)) && Reached(sent, targets[1..], Tail(moves), stop, i - 1)
  {
    if stop && Reached(channels, targets, moves, stop, i) {
      forall k | 0 <= k < i - 1 ensures !GoneAt(sent, targets[1..], Tail(moves), k) {
        assert !GoneAt(channels, targets, moves, k + 1);
      }
    }
    if stop && Reached(sent, targets[1..], Tail(moves), stop, i - 1) && !GoneAt(channels, targets, moves, 0) {
      forall k | 0 <= k < i ensures !GoneAt(channels, targets, moves, k) {
        assert k > 0 ==> !GoneAt(sent, targets[1..], Tail(moves), k - 1);
      }
    }
  }

  lemma FanOutStops(channels: seq<Channel>, targets: seq<Target>, m: Message, moves: seq<seq<EnvMove>>, i: nat)
    requires InRange(targets, |channels|) && DistinctTargets(targets) && Sane(channels) && 0 < i < |targets|
    requires GoneAt(channels, targets, moves, 0)
    ensures SentExactly(channels, targets, m, moves, true, i)
  {
    FirstOutcome(channels, targets, moves);
    LaterTargets(channels, targets, m, moves, i);
    assert channels[targets[i].chan].history + [] == channels[targets[i].chan].history;
  }

  lemma FanOutGoesOn(channels: seq<Channel>, targets: seq<Target>, m: Message, moves: seq<seq<EnvMove>>, stop: bool)
    requires InRange(targets, |channels|) && Sane(channels) && targets != [] && !(stop && GoneAt(channels, targets, moves, 0))
    ensures var sent := Deliver(MoveAll(channels, Head(moves)), targets[0].chan, m);
            var fan, rest := FanOut(channels, targets, m, moves, stop), FanOut(sent, targets[1..], m, Tail(moves), stop);
            fan.tries == [Try(targets[0].pubkey, OutcomeAt(channels, targets, moves, 0))] + rest.tries
            && fan.channels == rest.channels && fan.rest == rest.rest
  {
    FirstOutcome(channels, targets, moves);
  }

  lemma {:induction false} FanOutExactly(channels: seq<Channel>, targets: seq<Target>, m: Message, moves: seq<seq<EnvMove>>, stop: bool, i: nat)
    requires InRange(targets, |channels|) && DistinctTargets(targets) && Sane(channels) && i < |targets|
    ensures SentExactly(channels, targets, m, moves, stop, i)
    decreases |targets|
  {
    if i == 0 {
      FirstSent(channels, targets, m, moves, stop);
    } else if stop && GoneAt(channels, targets, moves, 0) {
      FanOutStops(channels, targets, m, moves, i);
    } else {
      var sent := Deliver(MoveAll(channels, Head(moves)), targets[0].chan, m);
      AfterFirst(channels, targets, m, moves, i);
      FanOutExactly(sent, targets[1..], m, Tail(moves), stop, i - 1);
      ExactlyLater(channels, targets, m, moves, stop, i, sent);
    }
  }

  lemma AfterFirst(channels: seq<Channel>, targets: seq<Target>, m: Message, moves: seq<seq<EnvMove>>, i: nat)
    requires InRange(targets, |channels|) && DistinctTargets(targets) && Sane(channels) && 0 < i < |targets|
    ensures var sent := Deliver(MoveAll(channels, Head(moves)), targets[0].chan, m);
            InRange(targets[1..], |sent|) && DistinctTargets(targets[1..]) && Sane(sent)
  {
    LaterTargets(channels, targets, m, moves, i);
    LaterDistinct(targets);
  }

  lemma ExactlyLater(channels: seq<Channel>, targets: seq<Target>, m: Message, moves: seq<seq<EnvMove>>, stop: bool, i: nat,
                     sent: seq<Channel>)
    requires InRange(targets, |channels|) && DistinctTargets(targets) && Sane(channels) && 0 < i < |targets|
    requires !(stop && GoneAt(channels, targets, moves, 0)) && sent == Deliver(MoveAll(channels, Head(moves)), targets[0].chan, m)
    requires InRange(targets[1..], |sent|) && SentExactly(sent, targets[1..], m, Tail(moves), stop, i - 1)
    ensures SentExactly(channels, targets, m, moves, stop, i)
  {
    LaterTargets(channels, targets, m, moves, i);
    PictureStays(channels, targets, m, moves);
    FanOutGoesOn(channels, targets, m, moves, stop);
    LaterSent(channels, targets, m, moves, stop, i, sent);
  }

  lemma LaterSent(channels: seq<Channel>, targets: seq<Target>, m: Message, moves: seq<seq<EnvMove>>, stop: bool, i: nat,
                  sent: seq<Channel>)
    requires 0 < i < |targets| && SamePicture(channels, targets, moves, sent) && !(stop && GoneAt(channels, targets, moves, 0))
    requires targets[1..][i - 1] == targets[i] && sent[targets[i].chan].history == channels[targets[i].chan].history
    requires SentExactly(sent, targets[1..], m, Tail(moves), stop, i - 1)
    requires var fan, rest := FanOut(channels, targets, m, moves, stop), FanOut(sent, targets[1..], m, Tail(moves), stop);
             fan.tries == [Try(targets[0].pubkey, OutcomeAt(channels, targets, moves, 0))] + rest.tries && fan.channels == rest.channels
    ensures SentExactly(channels, targets, m, moves, stop, i)
  {
    ReachedLater(channels, targets, moves, sent, stop, i);
    assert OutcomeAt(sent, targets[1..], Tail(moves), i - 1) == OutcomeAt(channels, targets, moves, i);
  }

  // ---------- one event ----------

  ghost predicate Never(moves: seq<seq<EnvMove>>, move: EnvMove) {
    forall k :: 0 <= k < |moves| ==> move !in moves[k]
  }

  /** Nobody among the targets has hung up or does so during the event. */
  ghost predicate Peaceful(channels: seq<Channel>, targets: seq<Target>, moves: seq<seq<EnvMove>>) {
    && InRange(targets, |channels|) && DistinctTargets(targets) && Sane(channels)
    && forall i :: 0 <= i < |targets| ==> !channels[targets[i].chan].closed && Never(moves, HangUp(targets[i].chan))
  }

  lemma {:induction false} NeverBefore(moves: seq<seq<EnvMove>>, move: EnvMove, n: nat)
    requires Never(moves, move) && n <= |moves|
    ensures move !in Flatten(moves[..n])
  {
    if n > 0 {
      var rest := moves[1..];
      assert forall k :: 0 <= k < |rest| ==> rest[k] == moves[k + 1];
      NeverBefore(rest, move, n - 1);
      assert moves[..n][1..] == rest[..n - 1] && moves[..n][0] == moves[0];
    }
  }

  /** What a fan-out leaves of a channel's read mark and of the moves still to come. */
  ghost predicate Kept(before: Channel, after: Channel, moves: seq<seq<EnvMove>>, c: nat) {
    && before.read <= after.read && (Never(moves, Read(c)) ==> after.read == before.read)
    && (after.closed ==> before.closed || !Never(moves, HangUp(c)))
  }

  lemma FirstKept(channels: seq<Channel>, moves: seq<seq<EnvMove>>, t: nat, m: Message, c: nat)
    requires Sane(channels) && c < |channels| && t < |channels|
    ensures var sent := Deliver(MoveAll(channels, Head(moves)), t, m);
            Sane(sent) && Kept(channels[c], sent[c], moves, c)
  {
    MovesExactly(channels, Head(moves), c);
    assert moves != [] ==> Head(moves) == moves[0];
    assert moves == [] ==> Reads([], c) == 0;
  }

  lemma NeverTail(moves: seq<seq<EnvMove>>, move: EnvMove)
    requires Never(moves, move)
    ensures Never(Tail(moves), move)
  {
  }

  lemma KeptTwice(a: Channel, b: Channel, d: Channel, moves: seq<seq<EnvMove>>, rest: seq<seq<EnvMove>>, c: nat)
    requires Kept(a, b, moves, c) && Kept(b, d, rest, c)
    requires forall move :: Never(moves, move) ==> Never(rest, move)
    ensures Kept(a, d, moves, c)
  {
  }

  lemma {:induction false} FanOutKeeps(channels: seq<Channel>, targets: seq<Target>, m: Message, moves: seq<seq<EnvMove>>, stop: bool, c: nat)
    requires InRange(targets, |channels|) && Sane(channels) && c < |channels|
    ensures var fan := FanOut(channels, targets, m, moves, stop);
            Sane(fan.channels) && Kept(channels[c], fan.channels[c], moves, c)
            && forall move :: Never(moves, move) ==> Never(fan.rest, move)
    decreases |targets|
  {
    if targets != [] {
      var sent := Deliver(MoveAll(channels, Head(moves)), targets[0].chan, m);
      FirstKept(channels, moves, targets[0].chan, m, c);
      forall move | Never(moves, move) ensures Never(Tail(moves), move) {
        NeverTail(moves, move);
      }
      FanOutKeeps(sent, targets[1..], m, Tail(moves), stop, c);
      KeptTwice(channels[c], sent[c], FanOut(sent, targets[1..], m, Tail(moves), stop).channels[c], moves, Tail(moves), c);
    }
  }

  /** In a peaceful event every target is reached, and gets the message exactly if it has room. */
  lemma PeacefulSend(channels: seq<Channel>, targets: seq<Target>, m: Message, moves: seq<seq<EnvMove>>, j: nat)
    requires Peaceful(channels, targets, moves) && j < |targets|
    ensures var fan := FanOut(channels, targets, m, moves, true);
            && Peaceful(fan.channels, targets, fan.rest)
            && fan.channels[targets[j].chan].history
               == channels[targets[j].chan].history
                  + if UnreadAt(channels, targets, moves, j) < SUBSCRIBER_QUEUE_CAPACITY then [m] else []
  {
    forall k | 0 <= k < |targets| ensures !GoneAt(channels, targets, moves, k) {
      NeverBefore(moves, HangUp(targets[k].chan), Min(k + 1, |moves|));
    }
    FanOutExactly(channels, targets, m, moves, true, j);
    var fan := FanOut(channels, targets, m, moves, true);
    forall k | 0 <= k < |targets| ensures !fan.channels[targets[k].chan].closed && Never(fan.rest, HangUp(targets[k].chan)) {
      FanOutKeeps(channels, targets, m, moves, true, targets[k].chan);
    }
    FanOutKeeps(channels, targets, m, moves, true, targets[j].chan);
  }

  function Room(ch: Channel): int {
    SUBSCRIBER_QUEUE_CAPACITY - (|ch.history| - ch.read)
  }

  /** With room for all batches, a subscriber gets them all, whatever is read meanwhile. */
  lemma {:induction false} RoomForAll(channels: seq<Channel>, targets: seq<Target>, batches: seq<seq<ProtoPacket>>, moves: seq<seq<EnvMove>>, j: nat)
    requires Peaceful(channels, targets, moves) && j < |targets|
    requires |batches| <= Room(channels[targets[j].chan])
    ensures FanOutAll(channels, targets, batches, moves).channels[targets[j].chan].history
         == channels[targets[j].chan].history + AsMessages(batches)
    decreases |batches|
  {
    var c := targets[j].chan;
    if batches == [] {
      assert channels[c].history + [] == channels[c].history;
    } else {
      var fan := FanOut(channels, targets, Batch(batches[0]), moves, true);
      PeacefulSend(channels, targets, Batch(batches[0]), moves, j);
      FanOutKeeps(channels, targets, Batch(batches[0]), moves, true, c);
      RoomForAll(fan.channels, targets, batches[1..], fan.rest, j);
      Chain(channels[c].history, fan.channels[c].history, FanOutAll(channels, targets, batches, moves).channels[c].history,
            [Batch(batches[0])], AsMessages(batches[1..]));
    }
  }

  lemma NoReadsBefore(channels: seq<Channel>, targets: seq<Target>, moves: seq<seq<EnvMove>>, j: nat)
    requires InRange(targets, |channels|) && Sane(channels) && j < |targets| && Never(moves, Read(targets[j].chan))
    ensures UnreadAt(channels, targets, moves, j) == |channels[targets[j].chan].history| - channels[targets[j].chan].read
  {
    NeverBefore(moves, Read(targets[j].chan), Min(j + 1, |moves|));
  }

  /** A subscriber that reads nothing meanwhile gets the first batches, as many as fit. */
  lemma {:induction false} FirstBatchesThatFit(channels: seq<Channel>, targets: seq<Target>, batches: seq<seq<ProtoPacket>>, moves: seq<seq<EnvMove>>, j: nat)
    requires Peaceful(channels, targets, moves) && j < |targets| && Never(moves, Read(targets[j].chan))
    requires Room(channels[targets[j].chan]) >= 0
    ensures FanOutAll(channels, targets, batches, moves).channels[targets[j].chan].history
         == channels[targets[j].chan].history + AsMessages(batches[..Min(|batches|, Room(channels[targets[j].chan]))])
    decreases |batches|
  {
    var c := targets[j].chan;
    if batches == [] {
      assert channels[c].history + [] == channels[c].history;
    } else {
      var fan := FanOut(channels, targets, Batch(batches[0]), moves, true);
      QuietSend(channels, targets, Batch(batches[0]), moves, j);
      FirstBatchesThatFit(fan.channels, targets, batches[1..], fan.rest, j);
      FanOutAllCons(channels, targets, batches, moves);
      FirstBatch(channels[c], fan.channels[c], FanOutAll(channels, targets, batches, moves).channels[c], batches);
    }
  }

  /** One batch towards a subscriber that reads nothing. */
  lemma QuietSend(channels: seq<Channel>, targets: seq<Target>, m: Message, moves: seq<seq<EnvMove>>, j: nat)
    requires Peaceful(channels, targets, moves) && j < |targets| && Never(moves, Read(targets[j].chan))
    requires Room(channels[targets[j].chan]) >= 0
    ensures var fan, c := FanOut(channels, targets, m, moves, true), targets[j].chan;
            && Peaceful(fan.channels, targets, fan.rest) && Never(fan.rest, Read(c))
            && fan.channels[c].read == channels[c].read && Room(fan.channels[c]) >= 0
            && fan.channels[c].history == channels[c].history + if Room(channels[c]) > 0 then [m] else []
  {
    NoReadsBefore(channels, targets, moves, j);
    PeacefulSend(channels, targets, m, moves, j);
    FanOutKeeps(channels, targets, m, moves, true, targets[j].chan);
  }

  lemma FirstBatch(before: Channel, middle: Channel, after: Channel, batches: seq<seq<ProtoPacket>>)
    requires batches != [] && Room(before) >= 0 && middle.read == before.read
    requires middle.history == before.history + if Room(before) > 0 then [Batch(batches[0])] else []
    requires after.history == middle.history + AsMessages(batches[1..][..Min(|batches| - 1, Room(middle))])
    ensures after.history == before.history + AsMessages(batches[..Min(|batches|, Room(before))])
  {
    var n := Min(|batches|, Room(before));
    if n > 0 {
      assert batches[..n][1..] == batches[1..][..n - 1] && batches[..n][0] == batches[0];
    }
  }

  // ---------- batch by batch ----------

  /** Every try uses up the moves before it; the rest is left to the next batch. */
  lemma {:induction false} MovesUsedUp(channels: seq<Channel>, targets: seq<Target>, m: Message, moves: seq<seq<EnvMove>>, stop: bool)
    requires InRange(targets, |channels|)
    ensures var fan := FanOut(channels, targets, m, moves, stop);
            fan.rest == moves[Min(|fan.tries|, |moves|)..]
    decreases |targets|
  {
    if targets != [] {
      var moved := MoveAll(channels, Head(moves));
      var sent := Deliver(moved, targets[0].chan, m);
      if !(stop && OutcomeOf(moved[targets[0].chan]).Closed?) {
        MovesUsedUp(sent, targets[1..], m, Tail(moves), stop);
      }
    }
  }

  /** The channels before a batch, and the moves still to come. */
  datatype Stage = Stage(channels: seq<Channel>, left: seq<seq<EnvMove>>)

  ghost function StageAt(channels: seq<Channel>, targets: seq<Target>, batches: seq<seq<ProtoPacket>>, moves: seq<seq<EnvMove>>, b: nat): (r: Stage)
    requires InRange(targets, |channels|) && b <= |batches|
    ensures |r.channels| == |channels|
    decreases b
  {
    if b == 0 then Stage(channels, moves)
    else
      var fan := FanOut(channels, targets, Batch(batches[0]), moves, true);
      StageAt(fan.channels, targets, batches[1..], fan.rest, b - 1)
  }

  /** An event ends where its last batch leaves it. */
  lemma {:induction false} EventIsItsStages(channels: seq<Channel>, targets: seq<Target>, batches: seq<seq<ProtoPacket>>, moves: seq<seq<EnvMove>>)
    requires InRange(targets, |channels|)
    ensures FanOutAll(channels, targets, batches, moves).channels == StageAt(channels, targets, batches, moves, |batches|).channels
    decreases |batches|
  {
    if batches != [] {
      var fan := FanOut(channels, targets, Batch(batches[0]), moves, true);
      EventIsItsStages(fan.channels, targets, batches[1..], fan.rest);
    }
  }

  /** From one batch to the next. */
  lemma {:induction false} NextStage(channels: seq<Channel>, targets: seq<Target>, batches: seq<seq<ProtoPacket>>, moves: seq<seq<EnvMove>>, b: nat)
    requires InRange(targets, |channels|) && b < |batches|
    ensures var now := StageAt(channels, targets, batches, moves, b);
            StageAt(channels, targets, batches, moves, b + 1).channels == FanOut(now.channels, targets, Batch(batches[b]), now.left, true).channels
    decreases b
  {
    var fan := FanOut(channels, targets, Batch(batches[0]), moves, true);
    if b > 0 {
      NextStage(fan.channels, targets, batches[1..], fan.rest, b - 1);
    } else {
      LastStage(fan.channels, targets, batches[1..], fan.rest);
    }
  }

  lemma LastStage(channels: seq<Channel>, targets: seq<Target>, batches: seq<seq<ProtoPacket>>, moves: seq<seq<EnvMove>>)
    requires InRange(targets, |channels|)
    ensures StageAt(channels, targets, batches, moves, 0) == Stage(channels, moves)
  {
  }

  lemma {:induction false} StagesStaySane(channels: seq<Channel>, targets: seq<Target>, batches: seq<seq<ProtoPacket>>, moves: seq<seq<EnvMove>>, b: nat)
    requires InRange(targets, |channels|) && Sane(channels) && b <= |batches|
    ensures Sane(StageAt(channels, targets, batches, moves, b).channels)
    decreases b
  {
    if b > 0 {
      var fan := FanOut(channels, targets, Batch(batches[0]), moves, true);
      if |channels| > 0 {
        FanOutKeeps(channels, targets, Batch(batches[0]), moves, true, 0);
      }
      StagesStaySane(fan.channels, targets, batches[1..], fan.rest, b - 1);
    }
  }

  /** In whatever way subscribers read and hang up: the `b`-th batch is put on the queue of
      the `i`-th target exactly if nobody before it has hung up by then, and it is there
      itself and has a free place. */
  lemma RoundExactly(channels: seq<Channel>, targets: seq<Target>, batches: seq<seq<ProtoPacket>>, moves: seq<seq<EnvMove>>, b: nat, i: nat)
    requires InRange(targets, |channels|) && DistinctTargets(targets) && Sane(channels) && b < |batches| && i < |targets|
    ensures var now := StageAt(channels, targets, batches, moves, b);
            var c := targets[i].chan;
            StageAt(channels, targets, batches, moves, b + 1).channels[c].history
            == now.channels[c].history
               + if && (forall k :: 0 <= k <= i ==> !GoneAt(now.channels, targets, now.left, k))
                    && UnreadAt(now.channels, targets, now.left, i) < SUBSCRIBER_QUEUE_CAPACITY
                 then [Batch(batches[b])] else []
  {
    StagesStaySane(channels, targets, batches, moves, b);
    NextStage(channels, targets, batches, moves, b);
    var now := StageAt(channels, targets, batches, moves, b);
    FanOutExactly(now.channels, targets, Batch(batches[b]), now.left, true, i);
    assert (forall k :: 0 <= k <= i ==> !GoneAt(now.channels, targets, now.left, k))
           <==> Reached(now.channels, targets, now.left, true, i) && !GoneAt(now.channels, targets, now.left, i);
  }

  lemma {:induction false} RoundsAreStages(channels: seq<Channel>, targets: seq<Target>, batches: seq<seq<ProtoPacket>>, moves: seq<seq<EnvMove>>, b: nat)
    requires InRange(targets, |channels|) && b < |batches|
    ensures var now := StageAt(channels, targets, batches, moves, b);
            FanOutAll(channels, targets, batches, moves).rounds[b] == FanOut(now.channels, targets, Batch(batches[b]), now.left, true).tries
    decreases b
  {
    var fan := FanOut(channels, targets, Batch(batches[0]), moves, true);
    FanOutAllCons(channels, targets, batches, moves);
    if b > 0 {
      RoundsAreStages(fan.channels, targets, batches[1..], fan.rest, b - 1);
    } else {
      LastStage(channels, targets, batches, moves);
    }
  }

  /** The tries report a hang-up of the `i`-th target exactly if they reach it and it is gone. */
  lemma ReportedGone(channels: seq<Channel>, targets: seq<Target>, m: Message, moves: seq<seq<EnvMove>>, stop: bool, i: nat)
    requires InRange(targets, |channels|) && DistinctTargets(targets) && Sane(channels) && i < |targets|
    requires var tries := FanOut(channels, targets, m, moves, stop).tries;
             |tries| <= |targets| && forall k :: 0 <= k < |tries| ==> tries[k].pubkey == targets[k].pubkey
    ensures Try(targets[i].pubkey, Closed) in FanOut(channels, targets, m, moves, stop).tries
       <==> Reached(channels, targets, moves, stop, i) && GoneAt(channels, targets, moves, i)
  {
    FanOutExactly(channels, targets, m, moves, stop, i);
    TriedUnderOwnKey(targets, FanOut(channels, targets, m, moves, stop).tries, i, Closed);
  }

  lemma TriedUnderOwnKey(targets: seq<Target>, tries: seq<Try>, i: nat, o: Outcome)
    requires DistinctTargets(targets) && |tries| <= |targets| && i < |targets|
    requires forall k :: 0 <= k < |tries| ==> tries[k].pubkey == targets[k].pubkey
    ensures Try(targets[i].pubkey, o) in tries <==> i < |tries| && tries[i].outcome == o
  {
    if k :| 0 <= k < |tries| && tries[k] == Try(targets[i].pubkey, o) {
      assert targets[k].pubkey == targets[i].pubkey;
    }
    if i < |tries| {
      assert tries[i] in tries;
    }
  }

  // ---------- the event loop ----------

  /** Between two turns of the loop subscribers read and hang up, and nothing else happens. */
  lemma BetweenTurns(cfg: Config, s: State, moves: seq<EnvMove>, c: nat)
    requires Valid(s) && c < |s.channels|
    ensures var s', ch := Step(cfg, s, Environment(moves)), s.channels[c];
            && s' == s.(channels := s'.channels) && |s'.channels| == |s.channels|
            && s'.channels[c] == Channel(ch.history, Min(|ch.history|, ch.read + Reads(moves, c)), ch.closed || HangUp(c) in moves)
  {
    MovesExactly(s.channels, moves, c);
  }

  /** The event offers its packets to subscriber `p`, and neither `p` nor anybody else it
      offers them to is gone or hangs up meanwhile. */
  ghost predicate PeacefulEvent(cfg: Config, s: State, e: Event, p: Pubkey) {
    && WalksAudience(cfg, s, e) && p in s.subs && (cfg.forwardAll || p in s.slotLeaders)
    && forall q :: q in s.subs && (cfg.forwardAll || q in s.slotLeaders) ==>
         !s.channels[s.subs[q]].closed && Never(e.moves, HangUp(s.subs[q]))
  }

  lemma PeacefulTargets(cfg: Config, s: State, e: Event, p: Pubkey) returns (j: nat)
    requires PeacefulEvent(cfg, s, e, p)
    ensures var targets := Targets(s.subs, e.order);
            Peaceful(s.channels, targets, e.moves) && j < |targets| && targets[j] == Target(p, s.subs[p])
  {
    var targets := Targets(s.subs, e.order);
    WalksMeaning(cfg, s, e);
    assert p in e.order;
    j :| 0 <= j < |targets| && targets[j] == Target(p, s.subs[p]);
  }

  /** The packets that came with the event and pass the filter, in wire form. */
  ghost function Due(cfg: Config, e: Event): seq<ProtoPacket>
    requires e.PacketBatches?
  {
    WireForms(CleanOnly(cfg, Flatten(e.batches)))
  }

  ghost function Stream(s: State, c: nat): seq<ProtoPacket>
    requires c < |s.channels|
  {
    Payload(s.channels[c].history)
  }

  /** As long as nobody served hangs up, a subscriber with room for all batches gets every
      clean packet of the event, in order. */
  lemma EverythingWithRoom(cfg: Config, s: State, e: Event, p: Pubkey)
    requires PeacefulEvent(cfg, s, e, p)
    requires |Due(cfg, e)| <= Room(s.channels[s.subs[p]]) * cfg.batchSize
    ensures Stream(Step(cfg, s, e), s.subs[p]) == Stream(s, s.subs[p]) + Due(cfg, e)
  {
    var j := PeacefulTargets(cfg, s, e, p);
    var packets, c := Filtered(cfg.ofac, e.batches), s.subs[p];
    FilteredIsClean(cfg, e.batches);
    ChunksPrefix(packets, cfg.batchSize, Room(s.channels[c]));
    RoomForAll(s.channels, Targets(s.subs, e.order), Chunks(packets, cfg.batchSize), e.moves, j);
    ChunksMeaning(packets, cfg.batchSize);
    StreamGrows(s.channels[c].history, Chunks(packets, cfg.batchSize));
  }

  lemma StreamGrows(history: seq<Message>, batches: seq<seq<ProtoPacket>>)
    ensures Payload(history + AsMessages(batches)) == Payload(history) + Flatten(batches)
  {
    PayloadConcat(history, AsMessages(batches));
    PayloadOfBatches(batches);
  }

  lemma StreamCut(history: seq<Message>, packets: seq<ProtoPacket>, size: nat, room: nat)
    requires size > 0
    ensures var chunks := Chunks(packets, size);
            Payload(history + AsMessages(chunks[..Min(|chunks|, room)])) == Payload(history) + packets[..Min(|packets|, room * size)]
  {
    var chunks := Chunks(packets, size);
    ChunksPrefix(packets, size, room);
    StreamGrows(history, chunks[..Min(|chunks|, room)]);
  }

  /** The packets of `due` that fit the free places of the queue, in full batches. */
  ghost function Fitting(cfg: Config, due: seq<ProtoPacket>, ch: Channel): seq<ProtoPacket> {
    due[..Min(|due|, Max(0, Room(ch)) * cfg.batchSize)]
  }

  /** If it reads nothing meanwhile, it gets exactly the first packets, as many as the free
      places hold in full batches. */
  lemma FirstPacketsThatFit(cfg: Config, s: State, e: Event, p: Pubkey)
    requires PeacefulEvent(cfg, s, e, p) && Never(e.moves, Read(s.subs[p]))
    ensures Stream(Step(cfg, s, e), s.subs[p]) == Stream(s, s.subs[p]) + Fitting(cfg, Due(cfg, e), s.channels[s.subs[p]])
  {
    var j := PeacefulTargets(cfg, s, e, p);
    var packets, c := Filtered(cfg.ofac, e.batches), s.subs[p];
    FilteredIsClean(cfg, e.batches);
    FirstBatchesThatFit(s.channels, Targets(s.subs, e.order), Chunks(packets, cfg.batchSize), e.moves, j);
    StreamCut(s.channels[c].history, packets, cfg.batchSize, Room(s.channels[c]));
  }

  /** Whenever an event of the run offers packets to channel `c`, nobody it offers them to
      is gone or hangs up, and the queue has room for all of them. */
  ghost predicate AlwaysRoom(cfg: Config, run: seq<Event>, c: nat) {
    run == [] || (AlwaysRoom(cfg, run[..|run| - 1], c) && RoomAt(cfg, Exec(cfg, run[..|run| - 1]), run[|run| - 1], c))
  }

  ghost predicate RoomAt(cfg: Config, s: State, e: Event, c: nat)
    requires Valid(s)
  {
    Addresses(cfg, s, e, c) ==>
      forall p :: p in s.subs && s.subs[p] == c ==>
        PeacefulEvent(cfg, s, e, p) && |Due(cfg, e)| <= Room(s.channels[c]) * cfg.batchSize
  }

  lemma RoomStep(cfg: Config, s: State, e: Event, c: nat)
    requires Valid(s) && c < |s.channels| && RoomAt(cfg, s, e, c)
    ensures Payload(Step(cfg, s, e).channels[c].history) == Payload(s.channels[c].history) + OfferedBy(cfg, s, e, c)
  {
    if Addresses(cfg, s, e, c) {
      var p :| p in s.subs && s.subs[p] == c && p in Audience(cfg, s);
      EverythingWithRoom(cfg, s, e, p);
      FilteredIsClean(cfg, e.batches);
    } else {
      StepHistory(cfg, s, e, c);
      NothingUnaddressed(cfg, s, e, c);
      PayloadConcat(s.channels[c].history, Appended(cfg, s, e, c));
    }
  }

  /** In a run that always leaves room the stream of a subscriber is complete: the wire
      forms of all clean arrivals, since it subscribed, of the events that offered it any. */
  lemma {:induction false} StreamIsComplete(cfg: Config, run: seq<Event>, c: nat)
    requires AlwaysRoom(cfg, run, c) && c < |Exec(cfg, run).channels|
    ensures Payload(Exec(cfg, run).channels[c].history) == WireForms(CleanOnly(cfg, ArrivedSince(cfg, run, c)))
  {
    OfferedIsClean(cfg, run, c);
    StreamIsOffered(cfg, run, c);
  }

  lemma {:induction false} StreamIsOffered(cfg: Config, run: seq<Event>, c: nat)
    requires AlwaysRoom(cfg, run, c) && c < |Exec(cfg, run).channels|
    ensures Payload(Exec(cfg, run).channels[c].history) == Offered(cfg, run, c)
  {
    if run != [] {
      var before, e := run[..|run| - 1], run[|run| - 1];
      if c < |Exec(cfg, before).channels| {
        StreamIsOffered(cfg, before, c);
        RoomStep(cfg, Exec(cfg, before), e, c);
      } else {
        NewChannelIsEmpty(cfg, Exec(cfg, before), e, c);
      }
    }
  }

  // ---------- heartbeats ----------

  ghost predicate HealthyTick(s: State, e: Event) {
    Valid(s) && e.HeartbeatTick? && e.health.Healthy? && Enumerates(e.order, s.subs.Keys)
  }

  lemma {:induction false} FullTries(tries: seq<Try>)
    ensures CountFull(tries) == |set i | 0 <= i < |tries| && tries[i].outcome.Full?|
  {
    if tries != [] {
      var n := |tries| - 1;
      FullTries(tries[..n]);
      var front := set i | 0 <= i < n && tries[..n][i].outcome.Full?;
      var all := set i | 0 <= i < |tries| && tries[i].outcome.Full?;
      assert all == front + if tries[n].outcome.Full? then {n} else {};
    }
  }

  /** The targets of a healthy tick that are found there but without a free place. */
  ghost function FullAt(channels: seq<Channel>, targets: seq<Target>, moves: seq<seq<EnvMove>>): set<nat>
    requires InRange(targets, |channels|)
  {
    set i: nat | i < |targets| && !GoneAt(channels, targets, moves, i) && UnreadAt(channels, targets, moves, i) >= SUBSCRIBER_QUEUE_CAPACITY
  }

  lemma TickTargets(s: State, e: Event)
    requires HealthyTick(s, e)
    ensures var targets := Targets(s.subs, e.order);
            && InRange(targets, |s.channels|) && DistinctTargets(targets) && Sane(s.channels)
            && forall p :: p in s.subs ==> Target(p, s.subs[p]) in targets
  {
    TargetsMeaning(s.subs, e.order);
    forall p | p in s.subs ensures Target(p, s.subs[p]) in Targets(s.subs, e.order) {
      assert p in s.subs.Keys;
    }
  }

  lemma TriedInOrder(channels: seq<Channel>, targets: seq<Target>, m: Message, moves: seq<seq<EnvMove>>, stop: bool)
    requires InRange(targets, |channels|)
    ensures var tries := FanOut(channels, targets, m, moves, stop).tries;
            |tries| <= |targets| && (!stop ==> |tries| == |targets|)
            && forall k :: 0 <= k < |tries| ==> tries[k].pubkey == targets[k].pubkey
  {
    if stop {
      TriedPrefix(channels, targets, m, moves);
    } else {
      HeartbeatTries(channels, targets, m, moves);
    }
  }

  /** A healthy tick, for the `i`-th subscriber in the order: it stays in the map exactly if
      it has not hung up by its try, and is sent the count exactly if it then has a free
      place. */
  lemma HeartbeatExactly(cfg: Config, s: State, e: Event, i: nat)
    requires HealthyTick(s, e) && i < |Targets(s.subs, e.order)|
    ensures var targets, s' := Targets(s.subs, e.order), Step(cfg, s, e);
            && InRange(targets, |s.channels|)
            && (targets[i].pubkey in s'.subs <==> !GoneAt(s.channels, targets, e.moves, i))
            && s'.channels[targets[i].chan].history
               == s.channels[targets[i].chan].history
                  + if && !GoneAt(s.channels, targets, e.moves, i)
                       && UnreadAt(s.channels, targets, e.moves, i) < SUBSCRIBER_QUEUE_CAPACITY
                    then [Heartbeat(s.metrics.heartbeats)] else []
  {
    TickTargets(s, e);
    var targets, m := Targets(s.subs, e.order), Heartbeat(s.metrics.heartbeats);
    TriedInOrder(s.channels, targets, m, e.moves, false);
    FanOutExactly(s.channels, targets, m, e.moves, false, i);
    ReportedGone(s.channels, targets, m, e.moves, false, i);
    ClosedInMember(FanOut(s.channels, targets, m, e.moves, false).tries, targets[i].pubkey);
  }

  /** Every subscriber has its place in the order, and nobody else has one. */
  lemma EverySubscriberTicks(s: State, e: Event)
    requires HealthyTick(s, e)
    ensures forall p :: p in s.subs ==> Target(p, s.subs[p]) in Targets(s.subs, e.order)
    ensures |Targets(s.subs, e.order)| == |s.subs|
  {
    TickTargets(s, e);
    var targets := Targets(s.subs, e.order);
    var keys := set i | 0 <= i < |targets| :: targets[i].pubkey;
    DistinctKeys(targets);
    assert keys == s.subs.Keys by {
      forall p | p in s.subs ensures p in keys {
        var i :| 0 <= i < |targets| && targets[i] == Target(p, s.subs[p]);
      }
    }
  }

  lemma {:induction false} DistinctKeys(targets: seq<Target>)
    requires DistinctTargets(targets)
    ensures |set i | 0 <= i < |targets| :: targets[i].pubkey| == |targets|
  {
    if targets != [] {
      var n := |targets| - 1;
      DistinctKeys(targets[..n]);
      var front := set i | 0 <= i < n :: targets[..n][i].pubkey;
      var all := set i | 0 <= i < |targets| :: targets[i].pubkey;
      assert all == front + {targets[n].pubkey};
    }
  }

  /** The counter of full heartbeat queues grows by the subscribers found without a free place. */
  lemma HeartbeatsRefused(cfg: Config, s: State, e: Event)
    requires HealthyTick(s, e)
    ensures InRange(Targets(s.subs, e.order), |s.channels|)
    ensures Step(cfg, s, e).metrics.trySendFull
         == s.metrics.trySendFull + |FullAt(s.channels, Targets(s.subs, e.order), e.moves)|
  {
    TickTargets(s, e);
    FullTriesExactly(s.channels, Targets(s.subs, e.order), Heartbeat(s.metrics.heartbeats), e.moves);
  }

  lemma FullTriesExactly(channels: seq<Channel>, targets: seq<Target>, m: Message, moves: seq<seq<EnvMove>>)
    requires InRange(targets, |channels|) && DistinctTargets(targets) && Sane(channels)
    ensures CountFull(FanOut(channels, targets, m, moves, false).tries) == |FullAt(channels, targets, moves)|
  {
    var tries := FanOut(channels, targets, m, moves, false).tries;
    TriedInOrder(channels, targets, m, moves, false);
    FullTries(tries);
    forall i | 0 <= i < |targets| ensures tries[i].outcome.Full? <==> i in FullAt(channels, targets, moves) {
      FanOutExactly(channels, targets, m, moves, false, i);
    }
    assert FullAt(channels, targets, moves) == set i | 0 <= i < |tries| && tries[i].outcome.Full?;
  }

  // ---------- who leaves at a packet event ----------

  /** The `i`-th target is the one a batch stops at. */
  ghost predicate StopsAt(stage: Stage, targets: seq<Target>, i: nat)
    requires InRange(targets, |stage.channels|) && i < |targets|
  {
    GoneAt(stage.channels, targets, stage.left, i) && forall k :: 0 <= k < i ==> !GoneAt(stage.channels, targets, stage.left, k)
  }

  ghost predicate NeverStopsAt(channels: seq<Channel>, targets: seq<Target>, batches: seq<seq<ProtoPacket>>, moves: seq<seq<EnvMove>>, i: nat)
    requires InRange(targets, |channels|) && i < |targets|
  {
    forall b :: 0 <= b < |batches| ==> !StopsAt(StageAt(channels, targets, batches, moves, b), targets, i)
  }

  ghost predicate NeverReported(rounds: seq<seq<Try>>, p: Pubkey) {
    forall b :: 0 <= b < |rounds| ==> Try(p, Closed) !in rounds[b]
  }

  lemma StagesReport(channels: seq<Channel>, targets: seq<Target>, batches: seq<seq<ProtoPacket>>, moves: seq<seq<EnvMove>>, i: nat)
    requires InRange(targets, |channels|) && DistinctTargets(targets) && Sane(channels) && i < |targets|
    ensures NeverStopsAt(channels, targets, batches, moves, i)
       <==> NeverReported(FanOutAll(channels, targets, batches, moves).rounds, targets[i].pubkey)
  {
    var rounds := FanOutAll(channels, targets, batches, moves).rounds;
    if NeverStopsAt(channels, targets, batches, moves, i) {
      forall b | 0 <= b < |rounds| ensures Try(targets[i].pubkey, Closed) !in rounds[b] {
        StageReports(channels, targets, batches, moves, b, i);
        assert !StopsAt(StageAt(channels, targets, batches, moves, b), targets, i);
      }
    }
    if NeverReported(rounds, targets[i].pubkey) {
      forall b | 0 <= b < |batches| ensures !StopsAt(StageAt(channels, targets, batches, moves, b), targets, i) {
        StageReports(channels, targets, batches, moves, b, i);
        assert Try(targets[i].pubkey, Closed) !in rounds[b];
      }
    }
  }

  /** A subscriber leaves the map exactly if some batch stops at it. */
  lemma PacketRemovalExactly(cfg: Config, s: State, e: Event, i: nat)
    requires WalksAudience(cfg, s, e) && i < |Targets(s.subs, e.order)|
    ensures var targets, chunks := Targets(s.subs, e.order), Chunks(Filtered(cfg.ofac, e.batches), cfg.batchSize);
            && InRange(targets, |s.channels|)
            && (targets[i].pubkey in Step(cfg, s, e).subs <==> NeverStopsAt(s.channels, targets, chunks, e.moves, i))
  {
    WalksMeaning(cfg, s, e);
    var targets, chunks := Targets(s.subs, e.order), Chunks(Filtered(cfg.ofac, e.batches), cfg.batchSize);
    var p := targets[i].pubkey;
    assert p in s.subs;
    DropListEffect(cfg, s, e, p);
    StagesReport(s.channels, targets, chunks, e.moves, i);
    assert Forward(cfg, s, e.batches, e.order, e.moves) == FanOutAll(s.channels, targets, chunks, e.moves);
  }

  lemma StageReports(channels: seq<Channel>, targets: seq<Target>, batches: seq<seq<ProtoPacket>>, moves: seq<seq<EnvMove>>, b: nat, i: nat)
    requires InRange(targets, |channels|) && DistinctTargets(targets) && Sane(channels) && b < |batches| && i < |targets|
    ensures StopsAt(StageAt(channels, targets, batches, moves, b), targets, i)
       <==> Try(targets[i].pubkey, Closed) in FanOutAll(channels, targets, batches, moves).rounds[b]
  {
    StagesStaySane(channels, targets, batches, moves, b);
    RoundsAreStages(channels, targets, batches, moves, b);
    var now := StageAt(channels, targets, batches, moves, b);
    TriedInOrder(now.channels, targets, Batch(batches[b]), now.left, true);
    ReportedGone(now.channels, targets, Batch(batches[b]), now.left, true, i);
  }

  // ---------- connections are counted ----------

  /** Outside packet events, whose count is another matter, the counters of connections
      added and removed tell how the number of subscribers changes. */
  lemma ConnectionsBalance(cfg: Config, s: State, e: Event)
    requires Valid(s) && !e.PacketBatches? && !e.MetricsTick?
    ensures var s' := Step(cfg, s, e);
            |s'.subs| - |s.subs| == (s'.metrics.added - s.metrics.added) - (s'.metrics.removed - s.metrics.removed)
  {
    match e {
      case Subscribe(pubkey, hungUp) =>
        assert s.subs[pubkey := |s.channels|].Keys == s.subs.Keys + {pubkey};
      case HeartbeatTick(health, order, moves) =>
        if Enumerates(order, s.subs.Keys) {
          if health.Unhealthy? {
            DropBalance(s, order);
          } else {
            HealthyTickBalance(s, e);
          }
        }
      case _ =>
    }
  }

  lemma DropBalance(s: State, list: seq<Pubkey>)
    requires (forall p :: p in list ==> p in s.subs) && forall i, j :: 0 <= i < j < |list| ==> list[i] != list[j]
    ensures |DropConnections(s, list).subs| + |list| == |s.subs|
  {
    DistinctLength(list);
    assert DropConnections(s, list).subs.Keys == s.subs.Keys - Keys(list);
    assert |s.subs.Keys - Keys(list)| == |s.subs.Keys| - |Keys(list)|;
    assert |DropConnections(s, list).subs| == |DropConnections(s, list).subs.Keys| && |s.subs| == |s.subs.Keys|;
  }

  lemma {:induction false} DistinctLength(list: seq<Pubkey>)
    requires forall i, j :: 0 <= i < j < |list| ==> list[i] != list[j]
    ensures |Keys(list)| == |list|
  {
    if list != [] {
      var n := |list| - 1;
      DistinctLength(list[..n]);
      assert Keys(list) == Keys(list[..n]) + {list[n]};
      assert list[n] !in Keys(list[..n]);
    }
  }

  lemma {:induction false} ClosedOnce(tries: seq<Try>)
    requires TriedOnce(tries)
    ensures forall i, j :: 0 <= i < j < |ClosedIn(tries)| ==> ClosedIn(tries)[i] != ClosedIn(tries)[j]
  {
    if tries != [] {
      var n := |tries| - 1;
      ClosedOnce(tries[..n]);
      var before := ClosedIn(tries[..n]);
      forall i | 0 <= i < |before| && tries[n].outcome.Closed? ensures before[i] != tries[n].pubkey {
        assert before[i] in before;
        ClosedInMember(tries[..n], before[i]);
      }
    }
  }

  lemma HealthyTickBalance(s: State, e: Event)
    requires HealthyTick(s, e)
    ensures InRange(Targets(s.subs, e.order), |s.channels|)
    ensures var closed := ClosedIn(FanOut(s.channels, Targets(s.subs, e.order), Heartbeat(s.metrics.heartbeats), e.moves, false).tries);
            |DropConnections(s, closed).subs| + |closed| == |s.subs|
  {
    TickTargets(s, e);
    var targets, m := Targets(s.subs, e.order), Heartbeat(s.metrics.heartbeats);
    TriedInOrder(s.channels, targets, m, e.moves, false);
    TriesBalance(s, targets, FanOut(s.channels, targets, m, e.moves, false).tries);
  }

  lemma TriesBalance(s: State, targets: seq<Target>, tries: seq<Try>)
    requires DistinctTargets(targets) && |tries| <= |targets|
    requires forall k :: 0 <= k < |tries| ==> tries[k].pubkey == targets[k].pubkey && targets[k].pubkey in s.subs
    ensures |DropConnections(s, ClosedIn(tries)).subs| + |ClosedIn(tries)| == |s.subs|
  {
    forall i, j | 0 <= i < j < |tries| ensures tries[i].pubkey != tries[j].pubkey {
      assert targets[i].pubkey != targets[j].pubkey;
    }
    ClosedOnce(tries);
    forall p | p in ClosedIn(tries) ensures p in s.subs {
      ClosedInMember(tries, p);
    }
    DropBalance(s, ClosedIn(tries));
  }
}
