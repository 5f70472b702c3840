/** What one event's fan-out does: who is tried, how sends are counted, what reaches a queue. */
module FanOutProofs {
  import opened Common
  import opened Transactions
  import opened Relayer

  /** Hash-map keys: every target has a pubkey and a channel of its own. */
  ghost predicate DistinctTargets(targets: seq<Target>) {
    forall i, j :: 0 <= i < j < |targets| ==> targets[i].pubkey != targets[j].pubkey && targets[i].chan != targets[j].chan
  }

  lemma {:induction false} TargetsMeaning(subs: map<Pubkey, nat>, order: seq<Pubkey>)
    requires forall i, j :: 0 <= i < j < |order| ==> order[i] != order[j]
    requires forall p, q :: p in subs && q in subs && subs[p] == subs[q] ==> p == q
    ensures DistinctTargets(Targets(subs, order))
    ensures forall p :: p in subs ==> (p in order <==> Target(p, subs[p]) in Targets(subs, order))
  {
    if order != [] {
      var rest := order[1..];
      assert forall i :: 0 <= i < |rest| ==> rest[i] == order[i + 1];
      TargetsMeaning(subs, rest);
    }
  }

  // ---------- chunks ----------

  lemma {:induction false} ChunksFlatten(packets: seq<ProtoPacket>, size: nat)
    requires size > 0
    ensures Flatten(Chunks(packets, size)) == packets
  {
    if packets == [] {
    } else if |packets| <= size {
      assert Flatten([packets]) == packets + Flatten([]);
    } else {
      ChunksFlatten(packets[size..], size);
      assert Chunks(packets, size)[1..] == Chunks(packets[size..], size);
    }
  }

  lemma {:induction false} ChunkSizes(packets: seq<ProtoPacket>, size: nat, c: seq<ProtoPacket>)
    requires size > 0 && c in Chunks(packets, size)
    ensures 0 < |c| <= size
  {
    if |packets| > size && c != packets[..size] {
      ChunkSizes(packets[size..], size, c);
    }
  }

  /** The chunks are the packets in order, in pieces that are neither empty nor too long;
      all but the last are full. */
  lemma {:induction false} ChunksMeaning(packets: seq<ProtoPacket>, size: nat)
    requires size > 0
    ensures Flatten(Chunks(packets, size)) == packets
    ensures forall c :: c in Chunks(packets, size) ==> 0 < |c| <= size
    ensures forall b :: 0 <= b < |Chunks(packets, size)| - 1 ==> |Chunks(packets, size)[b]| == size
  {
    ChunksFlatten(packets, size);
    forall c | c in Chunks(packets, size) ensures 0 < |c| <= size {
      ChunkSizes(packets, size, c);
    }
    forall b | 0 <= b < |Chunks(packets, size)| - 1 ensures |Chunks(packets, size)[b]| == size {
      ChunkIsFull(packets, size, b);
    }
  }

  lemma {:induction false} ChunkIsFull(packets: seq<ProtoPacket>, size: nat, b: nat)
    requires size > 0 && b < |Chunks(packets, size)| - 1
    ensures |Chunks(packets, size)[b]| == size
    decreases b
  {
    assert |packets| > size;
    if b > 0 {
      ChunkIsFull(packets[size..], size, b - 1);
    }
  }

  /** There is no other way to cut the packets into full pieces and a last one. */
  lemma {:induction false} ChunksAreUnique(pieces: seq<seq<ProtoPacket>>, packets: seq<ProtoPacket>, size: nat)
    requires size > 0 && Flatten(pieces) == packets
    requires forall b :: 0 <= b < |pieces| ==> 0 < |pieces[b]| <= size
    requires forall b :: 0 <= b < |pieces| - 1 ==> |pieces[b]| == size
    ensures pieces == Chunks(packets, size)
    decreases |pieces|
  {
    if pieces != [] {
      var rest := pieces[1..];
      assert forall b :: 0 <= b < |rest| ==> rest[b] == pieces[b + 1];
      if rest == [] {
        assert pieces == [pieces[0]] && packets == pieces[0];
        assert Chunks(packets, size) == [packets];
      } else {
        assert |pieces[0]| == size && packets[..size] == pieces[0] && packets[size..] == Flatten(rest);
        assert Flatten(rest) == rest[0] + Flatten(rest[1..]);
        ChunksAreUnique(rest, packets[size..], size);
        assert pieces == [pieces[0]] + rest;
      }
    }
  }

  /** The first `k` chunks hold the first `k * size` packets. */
  lemma {:induction false} ChunksPrefix(packets: seq<ProtoPacket>, size: nat, k: nat)
    requires size > 0
    ensures |Chunks(packets, size)| <= k <==> |packets| <= k * size
    ensures Flatten(Chunks(packets, size)[..Min(|Chunks(packets, size)|, k)]) == packets[..Min(|packets|, k * size)]
    decreases k
  {
    var chunks := Chunks(packets, size);
    if k == 0 {
      assert chunks[..0] == [] && packets[..0] == [];
    } else if |packets| <= size {
      SmallCut(packets, size, k);
    } else {
      ChunksPrefix(packets[size..], size, k - 1);
      assert k * size == (k - 1) * size + size;
      OneChunkMore(packets[..size], packets[size..], Chunks(packets[size..], size), k - 1, (k - 1) * size);
      assert chunks == [packets[..size]] + Chunks(packets[size..], size) && packets == packets[..size] + packets[size..];
    }
  }

  lemma OneChunkMore(first: seq<ProtoPacket>, rest: seq<ProtoPacket>, later: seq<seq<ProtoPacket>>, k: nat, m: nat)
    requires |later| <= k <==> |rest| <= m
    requires Flatten(later[..Min(|later|, k)]) == rest[..Min(|rest|, m)]
    ensures |[first] + later| <= k + 1 <==> |first + rest| <= m + |first|
    ensures Flatten(([first] + later)[..Min(|[first] + later|, k + 1)]) == (first + rest)[..Min(|first + rest|, m + |first|)]
  {
    FirstChunkFirst(first, later, Min(|later|, k));
    TakeAcross(first, rest, Min(|rest|, m));
  }

  lemma TakeAcross(first: seq<ProtoPacket>, rest: seq<ProtoPacket>, n: nat)
    requires n <= |rest|
    ensures (first + rest)[..|first| + n] == first + rest[..n]
  {
  }

  lemma SmallCut(packets: seq<ProtoPacket>, size: nat, k: nat)
    requires 0 < k && 0 < size && |packets| <= size
    ensures |Chunks(packets, size)| <= 1 && |packets| <= k * size
    ensures Flatten(Chunks(packets, size)[..Min(|Chunks(packets, size)|, k)]) == packets[..Min(|packets|, k * size)]
  {
    var chunks := Chunks(packets, size);
    assert k * size == (k - 1) * size + size;
    assert chunks[..Min(|chunks|, k)] == chunks;
    ChunksFlatten(packets, size);
  }

  lemma FirstChunkFirst(first: seq<ProtoPacket>, rest: seq<seq<ProtoPacket>>, k: nat)
    requires k <= |rest|
    ensures Flatten(([first] + rest)[..k + 1]) == first + Flatten(rest[..k])
  {
    assert ([first] + rest)[..k + 1] == [first] + rest[..k];
    assert ([first] + rest[..k])[1..] == rest[..k];
  }

  // ---------- who is tried ----------

  /** `tries` covers the targets up to and including the first closed one, or all of them. */
  ghost predicate StopsAtFirstClosed(targets: seq<Target>, tries: seq<Try>) {
    && |tries| <= |targets|
    && (forall i :: 0 <= i < |tries| ==> tries[i].pubkey == targets[i].pubkey)
    && (forall i :: 0 <= i < |tries| - 1 ==> !tries[i].outcome.Closed?)
    && (|tries| < |targets| ==> |tries| > 0 && tries[|tries| - 1].outcome.Closed?)
  }

  ghost predicate EndsClosed(tries: seq<Try>) {
    |tries| > 0 && tries[|tries| - 1].outcome.Closed?
  }

  lemma {:induction false} TriedPrefix(channels: seq<Channel>, targets: seq<Target>, m: Message, moves: seq<seq<EnvMove>>)
    requires InRange(targets, |channels|)
    ensures StopsAtFirstClosed(targets, FanOut(channels, targets, m, moves, true).tries)
    decreases |targets|
  {
    if targets != [] {
      var moved := MoveAll(channels, Head(moves));
      var sent := Deliver(moved, targets[0].chan, m);
      if !moved[targets[0].chan].closed {
        TriedPrefix(sent, targets[1..], m, Tail(moves));
        var rest := FanOut(sent, targets[1..], m, Tail(moves), true).tries;
        var all := FanOut(channels, targets, m, moves, true).tries;
        assert all == [Try(targets[0].pubkey, OutcomeOf(moved[targets[0].chan]))] + rest;
        assert forall i :: 1 <= i < |all| ==> all[i] == rest[i - 1] && targets[i] == targets[1..][i - 1];
      }
    }
  }

  // ---------- closed channels stay closed ----------

  lemma {:induction false} MovesKeepClosed(channels: seq<Channel>, moves: seq<EnvMove>, c: nat)
    requires c < |channels| && channels[c].closed
    ensures MoveAll(channels, moves)[c].closed
    decreases |moves|
  {
    if moves != [] {
      MovesKeepClosed(Move(channels, moves[0]), moves[1..], c);
    }
  }

  lemma {:induction false} FanOutKeepsClosed(channels: seq<Channel>, targets: seq<Target>, m: Message, moves: seq<seq<EnvMove>>, stop: bool, c: nat)
    requires InRange(targets, |channels|) && c < |channels| && channels[c].closed
    ensures FanOut(channels, targets, m, moves, stop).channels[c].closed
    decreases |targets|
  {
    if targets != [] {
      MovesKeepClosed(channels, Head(moves), c);
      var sent := Deliver(MoveAll(channels, Head(moves)), targets[0].chan, m);
      FanOutKeepsClosed(sent, targets[1..], m, Tail(moves), stop, c);
    }
  }

  /** A try that reports "closed" reports a channel that is closed from then on. */
  lemma {:induction false} ClosedTryIsClosed(channels: seq<Channel>, targets: seq<Target>, m: Message, moves: seq<seq<EnvMove>>, stop: bool, i: nat)
    requires InRange(targets, |channels|)
    requires i < |FanOut(channels, targets, m, moves, stop).tries| && i < |targets|
    requires FanOut(channels, targets, m, moves, stop).tries[i].outcome.Closed?
    ensures FanOut(channels, targets, m, moves, stop).channels[targets[i].chan].closed
    decreases |targets|
  {
    var moved := MoveAll(channels, Head(moves));
    var sent := Deliver(moved, targets[0].chan, m);
    var first := Try(targets[0].pubkey, OutcomeOf(moved[targets[0].chan]));
    if stop && first.outcome.Closed? {
    } else if i == 0 {
      FanOutKeepsClosed(sent, targets[1..], m, Tail(moves), stop, targets[0].chan);
    } else {
      assert targets[1..][i - 1] == targets[i];
      ClosedTryIsClosed(sent, targets[1..], m, Tail(moves), stop, i - 1);
    }
  }

  /** Nobody behind a closed channel is tried. */
  lemma {:induction false} ClosedTargetStops(channels: seq<Channel>, targets: seq<Target>, m: Message, moves: seq<seq<EnvMove>>, j: nat)
    requires InRange(targets, |channels|) && j < |targets| && channels[targets[j].chan].closed
    ensures |FanOut(channels, targets, m, moves, true).tries| <= j + 1
    ensures EndsClosed(FanOut(channels, targets, m, moves, true).tries)
    decreases |targets|
  {
    var moved := MoveAll(channels, Head(moves));
    var sent := Deliver(moved, targets[0].chan, m);
    MovesKeepClosed(channels, Head(moves), targets[j].chan);
    if !moved[targets[0].chan].closed {
      assert targets[1..][j - 1] == targets[j];
      ClosedTargetStops(sent, targets[1..], m, Tail(moves), j - 1);
      OneTryMore(channels, targets, m, moves);
    }
  }

  lemma OneTryMore(channels: seq<Channel>, targets: seq<Target>, m: Message, moves: seq<seq<EnvMove>>)
    requires InRange(targets, |channels|) && targets != [] && !MoveAll(channels, Head(moves))[targets[0].chan].closed
    ensures var sent := Deliver(MoveAll(channels, Head(moves)), targets[0].chan, m);
            var tries, rest := FanOut(channels, targets, m, moves, true).tries, FanOut(sent, targets[1..], m, Tail(moves), true).tries;
            |tries| == |rest| + 1 && (rest != [] ==> tries[|tries| - 1] == rest[|rest| - 1])
  {
  }

  lemma {:induction false} ClosedBoundsRounds(channels: seq<Channel>, targets: seq<Target>, batches: seq<seq<ProtoPacket>>, moves: seq<seq<EnvMove>>, j: nat)
    requires InRange(targets, |channels|) && j < |targets| && channels[targets[j].chan].closed
    ensures forall b :: 0 <= b < |batches| ==>
              var tries := FanOutAll(channels, targets, batches, moves).rounds[b]; |tries| <= j + 1 && EndsClosed(tries)
    decreases |batches|
  {
    if batches != [] {
      var fan := FanOut(channels, targets, Batch(batches[0]), moves, true);
      ClosedTargetStops(channels, targets, Batch(batches[0]), moves, j);
      FanOutKeepsClosed(channels, targets, Batch(batches[0]), moves, true, targets[j].chan);
      ClosedBoundsRounds(fan.channels, targets, batches[1..], fan.rest, j);
    }
  }

  ghost predicate PrefixesShrink(targets: seq<Target>, rounds: seq<seq<Try>>) {
    && (forall b :: 0 <= b < |rounds| ==> StopsAtFirstClosed(targets, rounds[b]))
    && (forall b, c :: 0 <= b < c < |rounds| ==> |rounds[c]| <= |rounds[b]|)
    && (forall b, c :: 0 <= b < c < |rounds| && EndsClosed(rounds[b]) ==> EndsClosed(rounds[c]))
  }

  lemma PrefixesShrinkCons(targets: seq<Target>, tries: seq<Try>, rest: seq<seq<Try>>)
    requires StopsAtFirstClosed(targets, tries) && PrefixesShrink(targets, rest)
    requires EndsClosed(tries) ==> forall b :: 0 <= b < |rest| ==> |rest[b]| <= |tries| && EndsClosed(rest[b])
    ensures PrefixesShrink(targets, [tries] + rest)
  {
    var rounds := [tries] + rest;
    assert forall b :: 1 <= b < |rounds| ==> rounds[b] == rest[b - 1];
  }

  /** For each batch the subscribers tried are the prefix of the targets up to and
      including the first closed one; within one event the prefix never grows, and
      from the first round that meets a closed channel every later round does too. */
  lemma {:induction false} TriedPrefixesShrink(channels: seq<Channel>, targets: seq<Target>, batches: seq<seq<ProtoPacket>>, moves: seq<seq<EnvMove>>)
    requires InRange(targets, |channels|)
    ensures PrefixesShrink(targets, FanOutAll(channels, targets, batches, moves).rounds)
    decreases |batches|
  {
    if batches != [] {
      var fan := FanOut(channels, targets, Batch(batches[0]), moves, true);
      TriedPrefix(channels, targets, Batch(batches[0]), moves);
      TriedPrefixesShrink(fan.channels, targets, batches[1..], fan.rest);
      if EndsClosed(fan.tries) {
        var j := |fan.tries| - 1;
        ClosedTryIsClosed(channels, targets, Batch(batches[0]), moves, true, j);
        ClosedBoundsRounds(fan.channels, targets, batches[1..], fan.rest, j);
      }
      PrefixesShrinkCons(targets, fan.tries, FanOutAll(fan.channels, targets, batches[1..], fan.rest).rounds);
    }
  }

  // ---------- the drop list ----------

  lemma {:induction false} ClosedInMeaning(targets: seq<Target>, tries: seq<Try>)
    requires StopsAtFirstClosed(targets, tries)
    ensures ClosedIn(tries) == if EndsClosed(tries) then [tries[|tries| - 1].pubkey] else []
  {
    if tries != [] {
      NoneClosed(tries[..|tries| - 1]);
    }
  }

  lemma {:induction false} NoneClosed(tries: seq<Try>)
    requires forall i :: 0 <= i < |tries| ==> !tries[i].outcome.Closed?
    ensures ClosedIn(tries) == []
  {
    if tries != [] {
      NoneClosed(tries[..|tries| - 1]);
    }
  }

  lemma {:induction false} ClosedInMember(tries: seq<Try>, p: Pubkey)
    ensures p in ClosedIn(tries) <==> Try(p, Closed) in tries
  {
    if tries != [] {
      ClosedInMember(tries[..|tries| - 1], p);
      assert tries == tries[..|tries| - 1] + [tries[|tries| - 1]];
    }
  }

  lemma {:induction false} ClosedInAllMember(rounds: seq<seq<Try>>, p: Pubkey)
    ensures p in ClosedInAll(rounds) <==> exists b :: 0 <= b < |rounds| && Try(p, Closed) in rounds[b]
  {
    if rounds != [] {
      var n := |rounds| - 1;
      ClosedInAllMember(rounds[..n], p);
      ClosedInMember(rounds[n], p);
      assert forall b :: 0 <= b < n ==> rounds[..n][b] == rounds[b];
    }
  }

  lemma {:induction false} FanOutAllKeepsClosed(channels: seq<Channel>, targets: seq<Target>, batches: seq<seq<ProtoPacket>>, moves: seq<seq<EnvMove>>, c: nat)
    requires InRange(targets, |channels|) && c < |channels| && channels[c].closed
    ensures FanOutAll(channels, targets, batches, moves).channels[c].closed
    decreases |batches|
  {
    if batches != [] {
      FanOutKeepsClosed(channels, targets, Batch(batches[0]), moves, true, c);
      var fan := FanOut(channels, targets, Batch(batches[0]), moves, true);
      FanOutAllKeepsClosed(fan.channels, targets, batches[1..], fan.rest, c);
    }
  }

  /** Whoever is on the drop list had its channel closed. */
  lemma {:induction false} DroppedWereClosed(channels: seq<Channel>, targets: seq<Target>, batches: seq<seq<ProtoPacket>>, moves: seq<seq<EnvMove>>, b: nat, p: Pubkey)
    requires InRange(targets, |channels|) && b < |batches|
    requires Try(p, Closed) in FanOutAll(channels, targets, batches, moves).rounds[b]
    ensures exists i :: 0 <= i < |targets| && targets[i].pubkey == p
                        && FanOutAll(channels, targets, batches, moves).channels[targets[i].chan].closed
    decreases |batches|
  {
    var fan := FanOut(channels, targets, Batch(batches[0]), moves, true);
    if b == 0 {
      TriedPrefix(channels, targets, Batch(batches[0]), moves);
      var i :| 0 <= i < |fan.tries| && fan.tries[i] == Try(p, Closed);
      ClosedTryIsClosed(channels, targets, Batch(batches[0]), moves, true, i);
      FanOutAllKeepsClosed(fan.channels, targets, batches[1..], fan.rest, targets[i].chan);
    } else {
      DroppedWereClosed(fan.channels, targets, batches[1..], fan.rest, b - 1, p);
    }
  }

  /** One entry in the drop list per round from the first round that meets a closed
      channel on, although these rounds may all have met the same one. */
  lemma {:induction false} DropListRepeats(targets: seq<Target>, rounds: seq<seq<Try>>, first: nat)
    requires forall b :: 0 <= b < |rounds| ==> StopsAtFirstClosed(targets, rounds[b])
    requires first <= |rounds| && forall b :: 0 <= b < |rounds| ==> (EndsClosed(rounds[b]) <==> first <= b)
    ensures |ClosedInAll(rounds)| == |rounds| - first
  {
    if rounds != [] {
      var n := |rounds| - 1;
      ClosedInMeaning(targets, rounds[n]);
      if first == |rounds| {
        assert !EndsClosed(rounds[n]);
        DropListRepeats(targets, rounds[..n], n);
      } else {
        DropListRepeats(targets, rounds[..n], first);
      }
    }
  }

  // ---------- counting ----------

  /** Packets of the batches whose try for `p` had the given outcome. */
  function Tally(rounds: seq<seq<Try>>, batches: seq<seq<ProtoPacket>>, p: Pubkey, o: Outcome): nat
    requires |rounds| <= |batches|
  {
    if rounds == [] then 0
    else
      var n := |rounds| - 1;
      Tally(rounds[..n], batches, p, o) + (if Try(p, o) in rounds[n] then |batches[n]| else 0)
  }

  function StatsOf(stats: map<Pubkey, Stats>, p: Pubkey): Stats {
    if p in stats then stats[p] else Stats(0, 0)
  }

  ghost predicate TriedOnce(tries: seq<Try>) {
    forall i, j :: 0 <= i < j < |tries| ==> tries[i].pubkey != tries[j].pubkey
  }

  lemma {:induction false} AccountOnce(stats: map<Pubkey, Stats>, tries: seq<Try>, n: nat, p: Pubkey)
    requires TriedOnce(tries) && n <= U64_MAX
    requires StatsOf(stats, p).forwarded <= U64_MAX && StatsOf(stats, p).dropped <= U64_MAX
    ensures StatsOf(Account(stats, tries, n), p) ==
              Stats(SaturatingAdd(StatsOf(stats, p).forwarded, if Try(p, Delivered) in tries then n else 0),
                    SaturatingAdd(StatsOf(stats, p).dropped, if Try(p, Full) in tries then n else 0))
  {
    if tries != [] {
      var k := |tries| - 1;
      var last := tries[k];
      AccountOnce(stats, tries[..k], n, p);
      assert tries == tries[..k] + [last];
      if last.pubkey == p {
        forall o ensures Try(p, o) !in tries[..k] {
          assert forall i :: 0 <= i < k ==> tries[i].pubkey != p;
        }
      } else {
        assert StatsOf(Account(stats, tries, n), p) == StatsOf(Account(stats, tries[..k], n), p);
      }
    }
  }

  /** The per-validator counters are the tallies, saturating. */
  lemma {:induction false} CountersAreTallies(stats: map<Pubkey, Stats>, rounds: seq<seq<Try>>, batches: seq<seq<ProtoPacket>>, p: Pubkey)
    requires |rounds| <= |batches|
    requires forall b :: 0 <= b < |rounds| ==> TriedOnce(rounds[b]) && |batches[b]| <= U64_MAX
    requires StatsOf(stats, p).forwarded <= U64_MAX && StatsOf(stats, p).dropped <= U64_MAX
    ensures StatsOf(AccountAll(stats, rounds, batches), p) ==
              Stats(SaturatingAdd(StatsOf(stats, p).forwarded, Tally(rounds, batches, p, Delivered)),
                    SaturatingAdd(StatsOf(stats, p).dropped, Tally(rounds, batches, p, Full)))
  {
    if rounds != [] {
      var n := |rounds| - 1;
      assert forall b :: 0 <= b < n ==> rounds[..n][b] == rounds[b];
      CountersAreTallies(stats, rounds[..n], batches, p);
      AccountOnce(AccountAll(stats, rounds[..n], batches), rounds[n], |batches[n]|, p);
    }
  }

  lemma TriesAreDistinct(targets: seq<Target>, tries: seq<Try>)
    requires DistinctTargets(targets) && StopsAtFirstClosed(targets, tries)
    ensures TriedOnce(tries)
  {
    forall i, j | 0 <= i < j < |tries| ensures tries[i].pubkey != tries[j].pubkey {
      assert targets[i].pubkey != targets[j].pubkey;
    }
  }

  function TotalSize(batches: seq<seq<ProtoPacket>>): nat {
    if batches == [] then 0 else TotalSize(batches[..|batches| - 1]) + |batches[|batches| - 1]|
  }

  lemma {:induction false} TotalSizeIsLength(batches: seq<seq<ProtoPacket>>)
    ensures TotalSize(batches) == |Flatten(batches)|
  {
    if batches != [] {
      var n := |batches| - 1;
      TotalSizeIsLength(batches[..n]);
      FlattenConcat(batches[..n], [batches[n]]);
      assert batches == batches[..n] + [batches[n]];
      assert Flatten([batches[n]]) == batches[n] + Flatten([]);
    }
  }

  lemma {:induction false} OpenTargetCountedInFull(targets: seq<Target>, rounds: seq<seq<Try>>, batches: seq<seq<ProtoPacket>>, t: Target)
    requires |rounds| <= |batches| && t in targets && DistinctTargets(targets)
    requires forall b :: 0 <= b < |rounds| ==> StopsAtFirstClosed(targets, rounds[b]) && !EndsClosed(rounds[b])
    ensures Tally(rounds, batches, t.pubkey, Delivered) + Tally(rounds, batches, t.pubkey, Full) == TotalSize(batches[..|rounds|])
  {
    if rounds == [] {
      assert batches[..0] == [];
    } else {
      var n := |rounds| - 1;
      assert forall b :: 0 <= b < n ==> rounds[..n][b] == rounds[b];
      OpenTargetCountedInFull(targets, rounds[..n], batches, t);
      assert batches[..n + 1][..n] == batches[..n];
      CountedInRound(targets, rounds[n], t);
    }
  }

  /** Without a closed channel a target is tried, and its one try either succeeds or
      finds the queue full. */
  lemma CountedInRound(targets: seq<Target>, tries: seq<Try>, t: Target)
    requires t in targets && DistinctTargets(targets) && StopsAtFirstClosed(targets, tries) && !EndsClosed(tries)
    ensures Try(t.pubkey, Delivered) in tries <==> !(Try(t.pubkey, Full) in tries)
  {
    var i :| 0 <= i < |targets| && targets[i] == t;
    assert |tries| == |targets| && tries[i].pubkey == t.pubkey && !tries[i].outcome.Closed?;
    TriesAreDistinct(targets, tries);
    assert tries[i] in tries;
    assert forall o :: Try(t.pubkey, o) in tries ==> o == tries[i].outcome;
  }

  /** With no closed channel met, every subscriber in the audience is counted once per
      packet: what was forwarded to it plus what was dropped for it are all packets. */
  lemma NoClosedChannelFullAccount(channels: seq<Channel>, targets: seq<Target>, batches: seq<seq<ProtoPacket>>, moves: seq<seq<EnvMove>>, t: Target)
    requires InRange(targets, |channels|) && DistinctTargets(targets) && t in targets
    requires forall b :: 0 <= b < |batches| ==> !EndsClosed(FanOutAll(channels, targets, batches, moves).rounds[b])
    ensures var rounds := FanOutAll(channels, targets, batches, moves).rounds;
            Tally(rounds, batches, t.pubkey, Delivered) + Tally(rounds, batches, t.pubkey, Full) == |Flatten(batches)|
  {
    TriedPrefixesShrink(channels, targets, batches, moves);
    var rounds := FanOutAll(channels, targets, batches, moves).rounds;
    assert forall b :: 0 <= b < |rounds| ==> StopsAtFirstClosed(targets, rounds[b]) && !EndsClosed(rounds[b]);
    OpenTargetCountedInFull(targets, rounds, batches, t);
    assert batches[..|batches|] == batches;
    TotalSizeIsLength(batches);
  }

  // ---------- what reaches a queue ----------

  lemma {:induction false} MovesKeepHistory(channels: seq<Channel>, moves: seq<EnvMove>, c: nat)
    requires c < |channels|
    ensures MoveAll(channels, moves)[c].history == channels[c].history
    decreases |moves|
  {
    if moves != [] {
      MovesKeepHistory(Move(channels, moves[0]), moves[1..], c);
    }
  }

  ghost predicate DeliveredTo(targets: seq<Target>, tries: seq<Try>, c: nat) {
    exists i :: 0 <= i < |targets| && i < |tries| && targets[i].chan == c && tries[i].outcome.Delivered?
  }

  /** A channel gets the message exactly when a try on it succeeds, and nothing else. */
  lemma {:induction false} FanOutHistory(channels: seq<Channel>, targets: seq<Target>, m: Message, moves: seq<seq<EnvMove>>, stop: bool, c: nat)
    requires InRange(targets, |channels|) && DistinctTargets(targets) && c < |channels|
    ensures var fan := FanOut(channels, targets, m, moves, stop);
            fan.channels[c].history == channels[c].history + if DeliveredTo(targets, fan.tries, c) then [m] else []
    decreases |targets|
  {
    if targets == [] {
      assert channels[c].history + [] == channels[c].history;
    } else {
      var moved := MoveAll(channels, Head(moves));
      var t := Try(targets[0].pubkey, OutcomeOf(moved[targets[0].chan]));
      var sent := Deliver(moved, targets[0].chan, m);
      MovesKeepHistory(channels, Head(moves), c);
      var fan := FanOut(channels, targets, m, moves, stop);
      if stop && t.outcome.Closed? {
        assert sent[c].history == channels[c].history;
        assert channels[c].history + [] == channels[c].history;
      } else {
        var rest := FanOut(sent, targets[1..], m, Tail(moves), stop);
        assert forall i :: 0 <= i < |targets[1..]| ==> targets[1..][i] == targets[i + 1];
        FanOutHistory(sent, targets[1..], m, Tail(moves), stop, c);
        assert fan.tries == [t] + rest.tries;
        DeliveredHeadOrRest(targets, t, rest.tries, c);
        if targets[0].chan == c {
          assert !DeliveredTo(targets[1..], rest.tries, c);
          assert sent[c].history + [] == sent[c].history;
        }
      }
    }
  }

  lemma DeliveredHeadOrRest(targets: seq<Target>, t: Try, rest: seq<Try>, c: nat)
    requires targets != []
    ensures DeliveredTo(targets, [t] + rest, c)
       <==> (targets[0].chan == c && t.outcome.Delivered?) || DeliveredTo(targets[1..], rest, c)
  {
    var all := [t] + rest;
    if DeliveredTo(targets[1..], rest, c) {
      var i :| 0 <= i < |targets[1..]| && i < |rest| && targets[1..][i].chan == c && rest[i].outcome.Delivered?;
      assert targets[i + 1].chan == c && all[i + 1].outcome.Delivered?;
    }
    if DeliveredTo(targets, all, c) {
      var i :| 0 <= i < |targets| && i < |all| && targets[i].chan == c && all[i].outcome.Delivered?;
      if i > 0 {
        assert targets[1..][i - 1].chan == c && rest[i - 1].outcome.Delivered?;
      }
    }
  }

  /** The batches delivered to channel `c`, in order. */
  ghost function Received(targets: seq<Target>, rounds: seq<seq<Try>>, batches: seq<seq<ProtoPacket>>, c: nat): seq<seq<ProtoPacket>>
    requires |rounds| == |batches|
    decreases |batches|
  {
    if batches == [] then []
    else (if DeliveredTo(targets, rounds[0], c) then [batches[0]] else []) + Received(targets, rounds[1..], batches[1..], c)
  }

  function AsMessages(batches: seq<seq<ProtoPacket>>): seq<Message> {
    if batches == [] then [] else [Batch(batches[0])] + AsMessages(batches[1..])
  }

  lemma {:induction false} ReceivedIsSubsequence(targets: seq<Target>, rounds: seq<seq<Try>>, batches: seq<seq<ProtoPacket>>, c: nat)
    requires |rounds| == |batches|
    ensures Subsequence(Received(targets, rounds, batches, c), batches)
    decreases |batches|
  {
    if batches != [] {
      ReceivedIsSubsequence(targets, rounds[1..], batches[1..], c);
      var rest := Received(targets, rounds[1..], batches[1..], c);
      if DeliveredTo(targets, rounds[0], c) {
        assert ([batches[0]] + rest)[1..] == rest;
      } else {
        assert [] + rest == rest;
      }
    }
  }

  /** Over one event a channel's history grows by the batches delivered to it. */
  lemma {:induction false} FanOutAllHistory(channels: seq<Channel>, targets: seq<Target>, batches: seq<seq<ProtoPacket>>, moves: seq<seq<EnvMove>>, c: nat)
    requires InRange(targets, |channels|) && DistinctTargets(targets) && c < |channels|
    ensures var r := FanOutAll(channels, targets, batches, moves);
            r.channels[c].history == channels[c].history + AsMessages(Received(targets, r.rounds, batches, c))
    decreases |batches|
  {
    if batches == [] {
      assert channels[c].history + [] == channels[c].history;
    } else {
      var fan := FanOut(channels, targets, Batch(batches[0]), moves, true);
      FanOutHistory(channels, targets, Batch(batches[0]), moves, true, c);
      FanOutAllHistory(fan.channels, targets, batches[1..], fan.rest, c);
      HistoryCons(channels, targets, batches, moves, c);
    }
  }

  lemma HistoryCons(channels: seq<Channel>, targets: seq<Target>, batches: seq<seq<ProtoPacket>>, moves: seq<seq<EnvMove>>, c: nat)
    requires InRange(targets, |channels|) && c < |channels| && batches != []
    requires var fan := FanOut(channels, targets, Batch(batches[0]), moves, true);
             var rest := FanOutAll(fan.channels, targets, batches[1..], fan.rest);
             && fan.channels[c].history == channels[c].history + (if DeliveredTo(targets, fan.tries, c) then [Batch(batches[0])] else [])
             && rest.channels[c].history == fan.channels[c].history + AsMessages(Received(targets, rest.rounds, batches[1..], c))
    ensures var r := FanOutAll(channels, targets, batches, moves);
            r.channels[c].history == channels[c].history + AsMessages(Received(targets, r.rounds, batches, c))
  {
    var fan := FanOut(channels, targets, Batch(batches[0]), moves, true);
    var rest := FanOutAll(fan.channels, targets, batches[1..], fan.rest);
    FanOutAllCons(channels, targets, batches, moves);
    ReceivedCons(targets, fan.tries, rest.rounds, batches, c);
    Chain(channels[c].history, fan.channels[c].history, rest.channels[c].history,
          if DeliveredTo(targets, fan.tries, c) then [Batch(batches[0])] else [],
          AsMessages(Received(targets, rest.rounds, batches[1..], c)));
  }

  lemma FanOutAllCons(channels: seq<Channel>, targets: seq<Target>, batches: seq<seq<ProtoPacket>>, moves: seq<seq<EnvMove>>)
    requires InRange(targets, |channels|) && batches != []
    ensures var fan := FanOut(channels, targets, Batch(batches[0]), moves, true);
            var rest := FanOutAll(fan.channels, targets, batches[1..], fan.rest);
            FanOutAll(channels, targets, batches, moves) == Rounds(rest.channels, [fan.tries] + rest.rounds)
  {
  }

  lemma Chain<T>(before: seq<T>, middle: seq<T>, after: seq<T>, a: seq<T>, b: seq<T>)
    requires middle == before + a && after == middle + b
    ensures after == before + (a + b)
  {
  }

  lemma ReceivedCons(targets: seq<Target>, tries: seq<Try>, rest: seq<seq<Try>>, batches: seq<seq<ProtoPacket>>, c: nat)
    requires |batches| == |rest| + 1
    ensures AsMessages(Received(targets, [tries] + rest, batches, c))
         == (if DeliveredTo(targets, tries, c) then [Batch(batches[0])] else []) + AsMessages(Received(targets, rest, batches[1..], c))
  {
    assert ([tries] + rest)[1..] == rest;
    var tail := Received(targets, rest, batches[1..], c);
    if DeliveredTo(targets, tries, c) {
      assert ([batches[0]] + tail)[1..] == tail;
    } else {
      assert [] + tail == tail;
    }
  }

  // ---------- counters and queues agree ----------

  lemma {:induction false} TallyCons(tries: seq<Try>, rest: seq<seq<Try>>, batches: seq<seq<ProtoPacket>>, p: Pubkey, o: Outcome)
    requires |rest| + 1 == |batches|
    ensures Tally([tries] + rest, batches, p, o) == (if Try(p, o) in tries then |batches[0]| else 0) + Tally(rest, batches[1..], p, o)
    decreases |rest|
  {
    var all := [tries] + rest;
    if rest == [] {
      assert all[..0] == [];
    } else {
      var n := |rest| - 1;
      TallyPrefix(rest[..n], batches[1..], p, o);
      TallyPrefix(all[..|rest|], batches, p, o);
      assert all[..|rest|] == [tries] + rest[..n];
      assert batches[..|rest|][1..] == batches[1..][..n];
      TallyCons(tries, rest[..n], batches[..|rest|], p, o);
    }
  }

  lemma {:induction false} TallyPrefix(rounds: seq<seq<Try>>, batches: seq<seq<ProtoPacket>>, p: Pubkey, o: Outcome)
    requires |rounds| <= |batches|
    ensures Tally(rounds, batches, p, o) == Tally(rounds, batches[..|rounds|], p, o)
  {
    if rounds != [] {
      var n := |rounds| - 1;
      TallyPrefix(rounds[..n], batches, p, o);
      TallyPrefix(rounds[..n], batches[..n + 1], p, o);
      assert batches[..n + 1][..n] == batches[..n];
    }
  }

  lemma DeliveredIsTried(targets: seq<Target>, tries: seq<Try>, t: Target)
    requires DistinctTargets(targets) && t in targets && StopsAtFirstClosed(targets, tries)
    ensures DeliveredTo(targets, tries, t.chan) <==> Try(t.pubkey, Delivered) in tries
  {
    var k :| 0 <= k < |targets| && targets[k] == t;
    forall i | 0 <= i < |tries| ensures (targets[i].chan == t.chan <==> i == k) && (tries[i].pubkey == t.pubkey <==> i == k) {
      assert i < k ==> targets[i].chan != targets[k].chan && targets[i].pubkey != targets[k].pubkey;
      assert i > k ==> targets[k].chan != targets[i].chan && targets[k].pubkey != targets[i].pubkey;
    }
  }

  /** The forwarded tally of a subscriber is the number of packets put on its queue. */
  lemma {:induction false} ForwardedIsEnqueued(targets: seq<Target>, rounds: seq<seq<Try>>, batches: seq<seq<ProtoPacket>>, t: Target)
    requires DistinctTargets(targets) && t in targets && |rounds| == |batches|
    requires forall b :: 0 <= b < |rounds| ==> StopsAtFirstClosed(targets, rounds[b])
    ensures Tally(rounds, batches, t.pubkey, Delivered) == |Flatten(Received(targets, rounds, batches, t.chan))|
    decreases |batches|
  {
    if batches != [] {
      DeliveredIsTried(targets, rounds[0], t);
      ForwardedIsEnqueued(targets, rounds[1..], batches[1..], t);
      assert rounds == [rounds[0]] + rounds[1..];
      TallyCons(rounds[0], rounds[1..], batches, t.pubkey, Delivered);
      var rest := Received(targets, rounds[1..], batches[1..], t.chan);
      if DeliveredTo(targets, rounds[0], t.chan) {
        assert ([batches[0]] + rest)[1..] == rest;
      } else {
        assert [] + rest == rest;
      }
    }
  }
}
