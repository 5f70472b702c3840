/** The delay forwarder thread (transaction-relayer/src/forwarder.rs): a timestamped FIFO
    with a lossy copy to the block engine. */
module Forwarder {
  import opened Common
  import opened Transactions

  const BLOCK_ENGINE_FORWARDER_QUEUE_CAPACITY: nat := 5_000

  /** What signature verification hands over: packet batches with their packets. */
  datatype PacketBatches = PacketBatches(batches: seq<seq<Packet>>)

  datatype Stamped = Stamped(stamp: Time, batch: PacketBatches)

  function SumLengths(b: seq<seq<Packet>>): nat {
    if b == [] then 0 else |b[0]| + SumLengths(b[1..])
  }

  function NumPackets(b: PacketBatches): nat {
    SumLengths(b.batches)
  }

  function TotalPackets(bs: seq<PacketBatches>): nat {
    if bs == [] then 0 else TotalPackets(bs[..|bs| - 1]) + NumPackets(bs[|bs| - 1])
  }

  /** The block engine's queue as `try_send` finds it. */
  datatype Queue = Open(queued: nat) | Hungup

  predicate IsFull(q: Queue) {
    q.Open? && q.queued >= BLOCK_ENGINE_FORWARDER_QUEUE_CAPACITY
  }

  function Batches(bs: seq<Stamped>): seq<PacketBatches> {
    seq(|bs|, i requires 0 <= i < |bs| => bs[i].batch)
  }

  /** `elapsed() >= packet_delay` at the given clock reading. */
  predicate Ripe(delay: Time, s: Stamped, now: Time) {
    s.stamp + delay <= now || delay == 0
  }

  /** How many batches the front-only loop releases; it reads the clock before each one. */
  function DrainCount(delay: Time, buffer: seq<Stamped>, clock: seq<Time>): (n: nat)
    requires |clock| >= |buffer|
    ensures n <= |buffer|
  {
    if buffer == [] || !Ripe(delay, buffer[0], clock[0]) then 0 else 1 + DrainCount(delay, buffer[1..], clock[1..])
  }

  datatype Metrics = Metrics(
    batchesReceived: nat, packetsReceived: nat, beForwarded: nat, beDropped: nat, beFull: nat, relayerForwarded: nat)

  const NO_METRICS := Metrics(0, 0, 0, 0, 0, 0)

  /** What happened since the last report: batches received, copied to the block engine,
      refused by its full queue, and released to the relayer. */
  datatype Window = Window(
    received: seq<PacketBatches>, copied: seq<PacketBatches>, refused: seq<PacketBatches>, released: seq<PacketBatches>)

  const NO_WINDOW := Window([], [], [], [])

  /** The counters that a window should give. */
  function CountsOf(w: Window): Metrics {
    Metrics(|w.received|, TotalPackets(w.received), TotalPackets(w.copied), TotalPackets(w.refused), |w.refused|,
            TotalPackets(w.released))
  }

  /** With the mempool enabled every received packet was either copied or refused. */
  ghost predicate Accounted(w: Window, noMempool: bool) {
    if noMempool then w.copied == w.refused == []
    else TotalPackets(w.copied) + TotalPackets(w.refused) == TotalPackets(w.received)
  }

  function Received(w: Window, batch: PacketBatches, noMempool: bool, full: bool): Window {
    var next := w.(received := w.received + [batch]);
    if noMempool then next
    else if full then next.(refused := w.refused + [batch])
    else next.(copied := w.copied + [batch])
  }

  lemma {:induction false} NumPacketsMeaning(b: seq<seq<Packet>>)
    ensures SumLengths(b) == |Flatten(b)|
  {
    if b != [] {
      NumPacketsMeaning(b[1..]);
    }
  }

  method CountPackets(b: PacketBatches) returns (n: nat)
    ensures n == NumPackets(b)
  {
    n := 0;
    for i := 0 to |b.batches|
      invariant n + SumLengths(b.batches[i..]) == NumPackets(b)
    {
      assert b.batches[i..][1..] == b.batches[i + 1..];
      n := n + |b.batches[i]|;
    }
  }

  function Released(w: Window, bs: seq<Stamped>): Window {
    w.(released := w.released + Batches(bs))
  }

  /** The counter updates for one received batch of `n` packets. */
  function Bumped(m: Metrics, n: nat, noMempool: bool, full: bool): Metrics {
    var next := m.(batchesReceived := m.batchesReceived + 1, packetsReceived := m.packetsReceived + n);
    if noMempool then next
    else if full then next.(beDropped := m.beDropped + n, beFull := m.beFull + 1)
    else next.(beForwarded := m.beForwarded + n)
  }

  class ForwardThread {
    const delay: Time
    const disableMempool: bool
    var buffer: seq<Stamped>
    var metrics: Metrics
    /** Everything received and sent on so far, and the current metrics window. */
    ghost var received: seq<Stamped>
    ghost var sent: seq<Stamped>
    ghost var window: Window

    ghost predicate Counted()
      reads this
    {
      metrics == CountsOf(window) && Accounted(window, disableMempool)
    }

    ghost predicate Valid()
      reads this
    {
      received == sent + buffer && StampsOrdered(received) && Counted()
    }

    constructor (packetDelay: Time, noMempool: bool)
      ensures Valid() && delay == packetDelay && disableMempool == noMempool
      ensures received == [] && sent == [] && window == NO_WINDOW
    {
      delay := packetDelay;
      disableMempool := noMempool;
      buffer := [];
      metrics := NO_METRICS;
      received, sent, window := [], [], NO_WINDOW;
    }

    method Report()
      requires Valid()
      modifies this`metrics, this`window
      ensures Valid() && window == NO_WINDOW
    {
      metrics := NO_METRICS;
      window := NO_WINDOW;
    }

    /** The receive arm. `copy` is what the block engine got; a closed block engine queue
        panics with the batch in hand, which ends the thread. */
    method Receive(batch: PacketBatches, now: Time, queue: Queue) returns (panicked: bool, copy: Option<PacketBatches>)
      requires Valid() && forall i :: 0 <= i < |received| ==> received[i].stamp <= now
      modifies this
      ensures panicked <==> !disableMempool && queue.Hungup?
      ensures sent == old(sent)
      ensures panicked ==> received == old(received) && copy.None?
      ensures !panicked ==>
                && Valid()
                && received == old(received) + [Stamped(now, batch)]
                && window == Received(old(window), batch, disableMempool, IsFull(queue))
                && copy == if disableMempool || IsFull(queue) then None else Some(batch)
      ensures !panicked ==> metrics == Bumped(old(metrics), |Flatten(batch.batches)|, disableMempool, IsFull(queue))
    {
      NumPacketsMeaning(batch.batches);
      if !disableMempool && queue.Hungup? {
        return true, None;
      }
      panicked := false;
      var n := CountPackets(batch);
      copy := CopyToBlockEngine(batch, n, IsFull(queue));
      ReceivedCounts(window, batch, disableMempool, IsFull(queue));
      window := Received(window, batch, disableMempool, IsFull(queue));
      Enqueue(Stamped(now, batch));
    }

    /** The counters of the receive arm and the `try_send` towards the block engine. */
    method CopyToBlockEngine(batch: PacketBatches, n: nat, full: bool) returns (copy: Option<PacketBatches>)
      modifies this`metrics
      ensures metrics == Bumped(old(metrics), n, disableMempool, full)
      ensures copy == if disableMempool || full then None else Some(batch)
    {
      copy := None;
      metrics := metrics.(batchesReceived := metrics.batchesReceived + 1, packetsReceived := metrics.packetsReceived + n);
      if !disableMempool {
        if !full {
          copy := Some(batch);
          metrics := metrics.(beForwarded := metrics.beForwarded + n);
        } else {
          metrics := metrics.(beDropped := metrics.beDropped + n, beFull := metrics.beFull + 1);
        }
      }
    }

    method Enqueue(s: Stamped)
      requires Valid() && forall i :: 0 <= i < |received| ==> received[i].stamp <= s.stamp
      modifies this`buffer, this`received
      ensures Valid() && received == old(received) + [s]
    {
      assert received + [s] == sent + (buffer + [s]);
      buffer := buffer + [s];
      received := received + [s];
    }

    /** Sends what is old enough; `clock` holds the readings made for the front batches. */
    method Drain(clock: seq<Time>)
      requires Valid() && |clock| >= |buffer|
      modifies this`buffer, this`sent, this`metrics, this`window
      ensures Valid() && received == old(received) && |buffer| <= |old(buffer)|
      ensures var n := |old(buffer)| - |buffer|;
              && DrainedExactly(delay, old(buffer), clock, n)
              && sent == old(sent) + old(buffer)[..n]
              && buffer == old(buffer)[n..]
              && window == Released(old(window), old(buffer)[..n])
    {
      DrainMeaning(delay, buffer, clock);
      ReleaseRipe(clock);
    }

    /** The release loop. */
    method ReleaseRipe(clock: seq<Time>)
      requires Valid() && |clock| >= |buffer|
      modifies this`buffer, this`sent, this`metrics, this`window
      ensures Valid() && received == old(received)
      ensures var n := DrainCount(delay, old(buffer), clock);
              && sent == old(sent) + old(buffer)[..n]
              && buffer == old(buffer)[n..]
              && window == Released(old(window), old(buffer)[..n])
    {
      var n := 0;
      ghost var start := buffer;
      while |buffer| > 0
        invariant 0 <= n <= |start| && buffer == start[n..]
        invariant n + DrainCount(delay, buffer, clock[n..]) == DrainCount(delay, start, clock)
        invariant sent == old(sent) + start[..n]
        invariant window == Released(old(window), start[..n])
        invariant Counted()
        decreases |buffer|
      {
        DrainNext(delay, start, clock, n);
        if !Ripe(delay, buffer[0], clock[n]) {
          break;
        }
        PopFront();
        ReleasedNext(old(window), start, n);
        n := n + 1;
      }
      assert n == DrainCount(delay, start, clock);
      TakeDrop(old(sent), start, n);
    }

    method PopFront()
      requires |buffer| > 0 && Counted()
      modifies this`buffer, this`sent, this`metrics, this`window
      ensures Counted() && buffer == old(buffer)[1..] && sent == old(sent) + [old(buffer)[0]]
      ensures window == old(window).(released := old(window).released + [old(buffer)[0].batch])
    {
      var batch := buffer[0];
      buffer := buffer[1..];
      CountRelease(batch.batch);
      sent := sent + [batch];
    }

    method CountRelease(batch: PacketBatches)
      requires Counted()
      modifies this`metrics, this`window
      ensures Counted() && window == old(window).(released := old(window).released + [batch])
    {
      var n := CountPackets(batch);
      metrics := metrics.(relayerForwarded := metrics.relayerForwarded + n);
      ReleasedCounts(window, batch);
      window := window.(released := window.released + [batch]);
    }
  }

  lemma DrainNext(delay: Time, buffer: seq<Stamped>, clock: seq<Time>, n: nat)
    requires n < |buffer| <= |clock|
    ensures DrainCount(delay, buffer[n..], clock[n..])
         == if Ripe(delay, buffer[n], clock[n]) then 1 + DrainCount(delay, buffer[n + 1..], clock[n + 1..]) else 0
  {
    assert buffer[n..][1..] == buffer[n + 1..] && clock[n..][1..] == clock[n + 1..];
  }

  lemma ReleasedNext(w: Window, buffer: seq<Stamped>, n: nat)
    requires n < |buffer|
    ensures buffer[..n + 1] == buffer[..n] + [buffer[n]]
    ensures Released(w, buffer[..n + 1]) == Released(w, buffer[..n]).(released := Released(w, buffer[..n]).released + [buffer[n].batch])
  {
    assert Batches(buffer[..n + 1]) == Batches(buffer[..n]) + [buffer[n].batch];
    assert w.released + Batches(buffer[..n + 1]) == w.released + Batches(buffer[..n]) + [buffer[n].batch];
  }

  lemma TakeDrop(sent: seq<Stamped>, buffer: seq<Stamped>, n: nat)
    requires n <= |buffer|
    ensures (sent + buffer[..n]) + buffer[n..] == sent + buffer
  {
  }

  lemma ReceivedCounts(w: Window, batch: PacketBatches, noMempool: bool, full: bool)
    requires Accounted(w, noMempool)
    ensures Accounted(Received(w, batch, noMempool, full), noMempool)
    ensures CountsOf(Received(w, batch, noMempool, full)) == Bumped(CountsOf(w), NumPackets(batch), noMempool, full)
  {
    TotalAppend(w.received, batch);
    if noMempool {
    } else if full {
      TotalAppend(w.refused, batch);
    } else {
      TotalAppend(w.copied, batch);
    }
  }

  /** What one received batch changes: with the mempool enabled it is copied as long as the
      queue has a free place, and counted as refused otherwise. */
  lemma ReceiptMeaning(w: Window, m: Metrics, batch: PacketBatches, n: nat, noMempool: bool, queue: Queue)
    ensures var copied := !noMempool && !(queue.Open? && queue.queued >= BLOCK_ENGINE_FORWARDER_QUEUE_CAPACITY);
            var refused := !noMempool && !copied;
            var w', m' := Received(w, batch, noMempool, IsFull(queue)), Bumped(m, n, noMempool, IsFull(queue));
            && w' == Window(w.received + [batch], w.copied + (if copied then [batch] else []),
                            w.refused + (if refused then [batch] else []), w.released)
            && m' == Metrics(m.batchesReceived + 1, m.packetsReceived + n, m.beForwarded + (if copied then n else 0),
                             m.beDropped + (if refused then n else 0), m.beFull + (if refused then 1 else 0), m.relayerForwarded)
  {
    assert w.copied + [] == w.copied && w.refused + [] == w.refused;
  }

  lemma ReleasedCounts(w: Window, batch: PacketBatches)
    ensures var m := CountsOf(w);
            CountsOf(w.(released := w.released + [batch]))
              == m.(relayerForwarded := m.relayerForwarded + NumPackets(batch))
  {
    TotalAppend(w.released, batch);
  }

  lemma TotalAppend(bs: seq<PacketBatches>, b: PacketBatches)
    ensures TotalPackets(bs + [b]) == TotalPackets(bs) + NumPackets(b)
  {
    assert (bs + [b])[..|bs|] == bs;
  }

  // ---------- the front-only scan ----------

  /** The first `n` batches had the age of the delay at the reading made for each, and the
      next one had not. */
  ghost predicate DrainedExactly(delay: Time, buffer: seq<Stamped>, clock: seq<Time>, n: nat)
    requires |clock| >= |buffer|
  {
    && n <= |buffer|
    && (forall i :: 0 <= i < n ==> delay == 0 || buffer[i].stamp + delay <= clock[i])
    && (n < |buffer| ==> delay > 0 && clock[n] < buffer[n].stamp + delay)
  }

  /** There is one such number: what leaves is decided by stamps, delay and readings. */
  lemma DrainIsDetermined(delay: Time, buffer: seq<Stamped>, clock: seq<Time>, n: nat, m: nat)
    requires |clock| >= |buffer| && DrainedExactly(delay, buffer, clock, n) && DrainedExactly(delay, buffer, clock, m)
    ensures n == m
  {
  }

  lemma {:induction false} DrainMeaning(delay: Time, buffer: seq<Stamped>, clock: seq<Time>)
    requires |clock| >= |buffer|
    ensures DrainedExactly(delay, buffer, clock, DrainCount(delay, buffer, clock))
  {
    if buffer != [] && Ripe(delay, buffer[0], clock[0]) {
      DrainMeaning(delay, buffer[1..], clock[1..]);
      var n := DrainCount(delay, buffer, clock);
      assert forall i :: 1 <= i < n ==> buffer[i] == buffer[1..][i - 1] && clock[i] == clock[1..][i - 1];
      assert n < |buffer| ==> buffer[n] == buffer[1..][n - 1] && clock[n] == clock[1..][n - 1];
    }
  }

  ghost predicate StampsOrdered(buffer: seq<Stamped>) {
    forall i, j :: 0 <= i < j < |buffer| ==> buffer[i].stamp <= buffer[j].stamp
  }

  ghost predicate ClockOrdered(clock: seq<Time>) {
    forall i, j :: 0 <= i < j < |clock| ==> clock[i] <= clock[j]
  }

  /** What a scan of the whole buffer would release at one instant. */
  function RipeOnes(delay: Time, buffer: seq<Stamped>, now: Time): seq<Stamped> {
    if buffer == [] then []
    else (if Ripe(delay, buffer[0], now) then [buffer[0]] else []) + RipeOnes(delay, buffer[1..], now)
  }

  /** The drain releases every batch that was ripe when it began, and each batch it
      releases was ripe at the clock reading made for it. */
  lemma {:induction false} DrainReleasesTheRipe(delay: Time, buffer: seq<Stamped>, clock: seq<Time>)
    requires |clock| >= |buffer| && StampsOrdered(buffer) && ClockOrdered(clock)
    ensures forall i :: 0 <= i < |buffer| && (delay == 0 || buffer[i].stamp + delay <= clock[0]) ==> i < DrainCount(delay, buffer, clock)
    ensures forall i :: 0 <= i < DrainCount(delay, buffer, clock) ==> delay == 0 || buffer[i].stamp + delay <= clock[i]
  {
    DrainMeaning(delay, buffer, clock);
    var n := DrainCount(delay, buffer, clock);
    assert n < |buffer| ==> clock[0] <= clock[n] && forall i :: n <= i < |buffer| ==> buffer[n].stamp <= buffer[i].stamp;
  }

  /** At one instant the front-only scan and the scan of the whole buffer release the same
      batches in the same order: no ripe batch hides behind an unripe one. */
  lemma {:induction false} FrontScanIsFullScan(delay: Time, buffer: seq<Stamped>, clock: seq<Time>, now: Time)
    requires |clock| >= |buffer| && StampsOrdered(buffer) && forall i :: 0 <= i < |clock| ==> clock[i] == now
    ensures buffer[..DrainCount(delay, buffer, clock)] == RipeOnes(delay, buffer, now)
  {
    if buffer == [] {
    } else if Ripe(delay, buffer[0], now) {
      var b, c := buffer[1..], clock[1..];
      assert StampsOrdered(b) by {
        assert forall i :: 0 <= i < |b| ==> b[i] == buffer[i + 1];
      }
      FrontScanIsFullScan(delay, b, c, now);
      TakeNext(buffer, DrainCount(delay, b, c));
    } else {
      assert forall i :: 0 <= i < |buffer| ==> buffer[0].stamp <= buffer[i].stamp;
      NothingRipe(delay, buffer, now);
    }
  }

  lemma TakeNext(buffer: seq<Stamped>, n: nat)
    requires n < |buffer|
    ensures buffer[..n + 1] == [buffer[0]] + buffer[1..][..n]
  {
  }

  lemma {:induction false} NothingRipe(delay: Time, buffer: seq<Stamped>, now: Time)
    requires forall i :: 0 <= i < |buffer| ==> !Ripe(delay, buffer[i], now)
    ensures RipeOnes(delay, buffer, now) == []
  {
    if buffer != [] {
      NothingRipe(delay, buffer[1..], now);
    }
  }
}
