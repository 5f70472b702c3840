/** Properties of whole runs of the event loop: streams, connections, leaders, heartbeats. */
module RelayerRuns {
  import opened Common
  import opened Transactions
  import opened Ofac
  import opened Relayer
  import opened FanOutProofs
  import ScheduleCache
  import HealthManager

  // ---------- subscriber streams ----------

  /** The packets in a channel's history, in order. */
  function Payload(history: seq<Message>): seq<ProtoPacket> {
    if history == [] then []
    else (match history[0] case Batch(ps) => ps case Heartbeat(_) => []) + Payload(history[1..])
  }

  lemma {:induction false} PayloadConcat(a: seq<Message>, b: seq<Message>)
    ensures Payload(a + b) == Payload(a) + Payload(b)
  {
    if a == [] {
      assert a + b == b;
    } else {
      PayloadConcat(a[1..], b);
      assert (a + b)[1..] == a[1..] + b && (a + b)[0] == a[0];
    }
  }

  lemma {:induction false} PayloadOfBatches(batches: seq<seq<ProtoPacket>>)
    ensures Payload(AsMessages(batches)) == Flatten(batches)
  {
    if batches != [] {
      PayloadOfBatches(batches[1..]);
      var rest := AsMessages(batches[1..]);
      assert ([Batch(batches[0])] + rest)[1..] == rest;
    }
  }

  /** A packet event whose audience has the subscriber that holds channel `c` in it. */
  ghost predicate Addresses(cfg: Config, s: State, e: Event, c: nat) {
    && e.PacketBatches? && Enumerates(e.order, Audience(cfg, s))
    && exists p :: p in s.subs && s.subs[p] == c && p in Audience(cfg, s)
  }

  /** The filtered packets an event offers channel `c`. */
  ghost function OfferedBy(cfg: Config, s: State, e: Event, c: nat): seq<ProtoPacket> {
    if Addresses(cfg, s, e, c) then Filtered(cfg.ofac, e.batches) else []
  }

  /** The filtered packet occurrences of the run since channel `c` was subscribed, of the
      events whose audience its subscriber was in. */
  ghost function Offered(cfg: Config, run: seq<Event>, c: nat): seq<ProtoPacket> {
    if run == [] then []
    else
      var before := run[..|run| - 1];
      if c >= |Exec(cfg, before).channels| then []
      else Offered(cfg, before, c) + OfferedBy(cfg, Exec(cfg, before), run[|run| - 1], c)
  }

  lemma StepTargetsDistinct(s: State, order: seq<Pubkey>, members: set<Pubkey>)
    requires Valid(s) && Enumerates(order, members)
    ensures InRange(Targets(s.subs, order), |s.channels|) && DistinctTargets(Targets(s.subs, order))
  {
    TargetsMeaning(s.subs, order);
  }

  /** What one step appends to an existing channel. */
  ghost function Appended(cfg: Config, s: State, e: Event, c: nat): seq<Message>
    requires Valid(s)
  {
    match e
    case PacketBatches(batches, order, moves) =>
      if !Enumerates(order, Audience(cfg, s)) then []
      else AsMessages(Received(Targets(s.subs, order), Forward(cfg, s, batches, order, moves).rounds,
                               Chunks(Filtered(cfg.ofac, batches), cfg.batchSize), c))
    case HeartbeatTick(health, order, moves) =>
      if !Enumerates(order, s.subs.Keys) || health.Unhealthy? then []
      else
        var targets := Targets(s.subs, order);
        var fan := FanOut(s.channels, targets, Heartbeat(s.metrics.heartbeats), moves, false);
        if DeliveredTo(targets, fan.tries, c) then [Heartbeat(s.metrics.heartbeats)] else []
    case _ => []
  }

  lemma StepHistory(cfg: Config, s: State, e: Event, c: nat)
    requires Valid(s) && c < |s.channels|
    ensures |s.channels| <= |Step(cfg, s, e).channels|
    ensures Step(cfg, s, e).channels[c].history == s.channels[c].history + Appended(cfg, s, e, c)
  {
    assert s.channels[c].history + [] == s.channels[c].history;
    match e {
      case PacketBatches(batches, order, moves) =>
        if Enumerates(order, Audience(cfg, s)) {
          StepTargetsDistinct(s, order, Audience(cfg, s));
          FanOutAllHistory(s.channels, Targets(s.subs, order), Chunks(Filtered(cfg.ofac, batches), cfg.batchSize), moves, c);
        }
      case HeartbeatTick(health, order, moves) =>
        if Enumerates(order, s.subs.Keys) && health.Healthy? {
          StepTargetsDistinct(s, order, s.subs.Keys);
          FanOutHistory(s.channels, Targets(s.subs, order), Heartbeat(s.metrics.heartbeats), moves, false, c);
        }
      case Environment(sent) => MovesKeepHistory(s.channels, sent, c);
      case _ =>
    }
  }

  lemma StepOffers(cfg: Config, s: State, e: Event, c: nat)
    requires Valid(s)
    ensures Subsequence(Payload(Appended(cfg, s, e, c)), OfferedBy(cfg, s, e, c))
    ensures forall m :: m in Appended(cfg, s, e, c) && m.Batch? ==> 0 < |m.packets| <= cfg.batchSize
  {
    if Addresses(cfg, s, e, c) {
      var packets := Filtered(cfg.ofac, e.batches);
      var chunks := Chunks(packets, cfg.batchSize);
      var got := Received(Targets(s.subs, e.order), Forward(cfg, s, e.batches, e.order, e.moves).rounds, chunks, c);
      ChunksMeaning(packets, cfg.batchSize);
      ReceivedIsSubsequence(Targets(s.subs, e.order), Forward(cfg, s, e.batches, e.order, e.moves).rounds, chunks, c);
      FlattenSubsequence(got, chunks);
      PayloadOfBatches(got);
      AsMessagesMember(got);
      forall b | b in got ensures 0 < |b| <= cfg.batchSize {
        SubsequenceMember(got, chunks, b);
      }
    } else {
      NothingUnaddressed(cfg, s, e, c);
    }
  }

  /** A channel whose subscriber is not in the audience gets no packets. */
  lemma NothingUnaddressed(cfg: Config, s: State, e: Event, c: nat)
    requires Valid(s) && !Addresses(cfg, s, e, c)
    ensures Payload(Appended(cfg, s, e, c)) == []
    ensures forall m :: m in Appended(cfg, s, e, c) ==> m.Heartbeat?
  {
    if e.PacketBatches? && Enumerates(e.order, Audience(cfg, s)) {
      var targets := Targets(s.subs, e.order);
      forall i | 0 <= i < |targets| ensures targets[i].chan != c {
        assert targets[i].pubkey in s.subs && targets[i].pubkey in Audience(cfg, s);
      }
      ReceivedNothing(targets, Forward(cfg, s, e.batches, e.order, e.moves).rounds, Chunks(Filtered(cfg.ofac, e.batches), cfg.batchSize), c);
    } else {
      var beat := [Heartbeat(s.metrics.heartbeats)];
      assert Payload(beat) == [] + Payload(beat[1..]);
    }
  }

  lemma {:induction false} AsMessagesMember(batches: seq<seq<ProtoPacket>>)
    ensures forall m :: m in AsMessages(batches) ==> m.Batch? && m.packets in batches
  {
    if batches != [] {
      AsMessagesMember(batches[1..]);
    }
  }

  /** Whatever subscribers, queues and iteration orders do: the packets enqueued for a
      subscriber, concatenated, are an in-order subsequence of the filtered packets
      offered since it subscribed while it was in the audience, in non-empty batches of at most the configured size. */
  lemma {:induction false} StreamIsSubsequence(cfg: Config, run: seq<Event>, c: nat)
    requires c < |Exec(cfg, run).channels|
    ensures Subsequence(Payload(Exec(cfg, run).channels[c].history), Offered(cfg, run, c))
    ensures forall m :: m in Exec(cfg, run).channels[c].history && m.Batch? ==> 0 < |m.packets| <= cfg.batchSize
  {
    if run != [] {
      var before, e := run[..|run| - 1], run[|run| - 1];
      var s := Exec(cfg, before);
      if c < |s.channels| {
        StreamIsSubsequence(cfg, before, c);
        StepHistory(cfg, s, e, c);
        StepOffers(cfg, s, e, c);
        PayloadConcat(s.channels[c].history, Appended(cfg, s, e, c));
        SubsequenceConcat(Payload(s.channels[c].history), Offered(cfg, before, c),
                          Payload(Appended(cfg, s, e, c)), OfferedBy(cfg, s, e, c));
      } else {
        NewChannelIsEmpty(cfg, s, e, c);
      }
    }
  }

  lemma NewChannelIsEmpty(cfg: Config, s: State, e: Event, c: nat)
    requires Valid(s) && |s.channels| <= c < |Step(cfg, s, e).channels|
    ensures e.Subscribe? && c == |s.channels| && Step(cfg, s, e).channels[c] == Channel([], 0, e.hungUp)
  {
  }

  /** An arrival a subscriber may get: not discarded, with a wire form, and, with sanctions
      in force, decoded and without a sanctioned account under the cache as each of its
      tables was read. */
  ghost predicate Clean(cfg: Config, a: Arrival) {
    && !a.packet.discard && a.packet.proto.Some?
    && (cfg.ofac != {} ==>
          a.packet.tx.Some? && !Sanctioned(a.packet.tx.value, a.views, cfg.ofac))
  }

  ghost function CleanTest(cfg: Config): Arrival -> bool {
    a => Clean(cfg, a)
  }

  ghost function CleanOnly(cfg: Config, arrivals: seq<Arrival>): seq<Arrival> {
    Filter(CleanTest(cfg), arrivals)
  }

  function WireForms(arrivals: seq<Arrival>): seq<ProtoPacket> {
    if arrivals == [] then []
    else
      (match arrivals[0].packet.proto case Some(p) => [p] case None => [ProtoPacket([])]) + WireForms(arrivals[1..])
  }

  lemma {:induction false} WireFormsConcat(a: seq<Arrival>, b: seq<Arrival>)
    ensures WireForms(a + b) == WireForms(a) + WireForms(b)
  {
    if a == [] {
      assert a + b == b;
    } else {
      WireFormsConcat(a[1..], b);
      assert (a + b)[1..] == a[1..] + b && (a + b)[0] == a[0];
    }
  }

  lemma FilterArrivalIsClean(cfg: Config, a: Arrival)
    ensures FilterArrival(cfg.ofac, a) == if Clean(cfg, a) then a.packet.proto else None
  {
    if cfg.ofac != {} && a.packet.tx.Some? {
      SanctionedExactly(a.packet.tx.value, cfg.ofac, a.views);
    }
  }

  lemma {:induction false} FilterBatchIsClean(cfg: Config, batch: seq<Arrival>)
    ensures FilterBatch(cfg.ofac, batch) == WireForms(CleanOnly(cfg, batch))
  {
    if batch != [] {
      FilterArrivalIsClean(cfg, batch[0]);
      FilterBatchIsClean(cfg, batch[1..]);
      WireFormsConcat(if Clean(cfg, batch[0]) then [batch[0]] else [], CleanOnly(cfg, batch[1..]));
    }
  }

  /** The filter passes the wire forms of the clean arrivals, in order. */
  lemma {:induction false} FilteredIsClean(cfg: Config, batches: seq<seq<Arrival>>)
    ensures Filtered(cfg.ofac, batches) == WireForms(CleanOnly(cfg, Flatten(batches)))
  {
    if batches != [] {
      FilterBatchIsClean(cfg, batches[0]);
      FilteredIsClean(cfg, batches[1..]);
      FilterConcat(CleanTest(cfg), batches[0], Flatten(batches[1..]));
      WireFormsConcat(CleanOnly(cfg, batches[0]), CleanOnly(cfg, Flatten(batches[1..])));
    }
  }

  /** Everything that arrived in packet events since channel `c` was subscribed, with its
      subscriber in the audience. */
  ghost function ArrivedSince(cfg: Config, run: seq<Event>, c: nat): seq<Arrival> {
    if run == [] then []
    else
      var before, e := run[..|run| - 1], run[|run| - 1];
      if c >= |Exec(cfg, before).channels| then []
      else
        ArrivedSince(cfg, before, c)
        + if Addresses(cfg, Exec(cfg, before), e, c) then Flatten(e.batches) else []
  }

  lemma {:induction false} OfferedIsClean(cfg: Config, run: seq<Event>, c: nat)
    ensures Offered(cfg, run, c) == WireForms(CleanOnly(cfg, ArrivedSince(cfg, run, c)))
  {
    if run != [] {
      var before, e := run[..|run| - 1], run[|run| - 1];
      if c < |Exec(cfg, before).channels| {
        OfferedIsClean(cfg, before, c);
        OfferedStep(cfg, ArrivedSince(cfg, before, c), Exec(cfg, before), e, c);
      }
    }
  }

  lemma OfferedStep(cfg: Config, arrived: seq<Arrival>, s: State, e: Event, c: nat)
    ensures var more := if Addresses(cfg, s, e, c) then Flatten(e.batches) else [];
            WireForms(CleanOnly(cfg, arrived)) + OfferedBy(cfg, s, e, c) == WireForms(CleanOnly(cfg, arrived + more))
  {
    var more := if Addresses(cfg, s, e, c) then Flatten(e.batches) else [];
    if e.PacketBatches? {
      FilteredIsClean(cfg, e.batches);
    }
    FilterConcat(CleanTest(cfg), arrived, more);
    WireFormsConcat(CleanOnly(cfg, arrived), CleanOnly(cfg, more));
  }

  /** A subsequence of the wire forms comes from a subsequence of the arrivals. */
  lemma {:induction false} WireSubsequence(packets: seq<ProtoPacket>, arrivals: seq<Arrival>) returns (sources: seq<Arrival>)
    requires Subsequence(packets, WireForms(arrivals))
    ensures Subsequence(sources, arrivals) && WireForms(sources) == packets
    decreases |arrivals|
  {
    if packets == [] {
      sources := [];
    } else {
      var wires, rest := WireForms(arrivals), arrivals[1..];
      assert wires[1..] == WireForms(rest);
      if packets[0] == wires[0] && Subsequence(packets[1..], wires[1..]) {
        var tail := WireSubsequence(packets[1..], rest);
        sources := [arrivals[0]] + tail;
        assert sources[1..] == tail;
      } else {
        sources := WireSubsequence(packets, rest);
      }
    }
  }

  /** Every packet on a subscriber's stream can be traced: the stream is the wire forms of
      an in-order selection of the clean arrivals since the subscription, from events with
      the subscriber in the audience, one arrival for each packet delivered. */
  lemma {:induction false} DeliveredPacketsAreClean(cfg: Config, run: seq<Event>, c: nat) returns (sources: seq<Arrival>)
    requires c < |Exec(cfg, run).channels|
    ensures Payload(Exec(cfg, run).channels[c].history) == WireForms(sources)
    ensures Subsequence(sources, CleanOnly(cfg, ArrivedSince(cfg, run, c)))
  {
    StreamIsSubsequence(cfg, run, c);
    OfferedIsClean(cfg, run, c);
    sources := WireSubsequence(Payload(Exec(cfg, run).channels[c].history), CleanOnly(cfg, ArrivedSince(cfg, run, c)));
  }

  lemma {:induction false} ReceivedNothing(targets: seq<Target>, rounds: seq<seq<Try>>, batches: seq<seq<ProtoPacket>>, c: nat)
    requires |rounds| == |batches| && forall i :: 0 <= i < |targets| ==> targets[i].chan != c
    ensures Received(targets, rounds, batches, c) == []
    decreases |batches|
  {
    if batches != [] {
      ReceivedNothing(targets, rounds[1..], batches[1..], c);
    }
  }

  /** A step puts something on a queue only for a key that holds it in the map, and a
      packet batch only for a key in the audience: with `forwardAll` off, a current
      slot leader. A replaced or dropped channel gets nothing any more. */
  lemma OnlyAudienceReceives(cfg: Config, s: State, e: Event, c: nat)
    requires Valid(s) && c < |s.channels| && Step(cfg, s, e).channels[c].history != s.channels[c].history
    ensures exists p :: p in s.subs && s.subs[p] == c && (e.PacketBatches? ==> p in Audience(cfg, s))
    ensures e.PacketBatches? || e.HeartbeatTick?
  {
    StepHistory(cfg, s, e, c);
    var targets := Targets(s.subs, if e.PacketBatches? || e.HeartbeatTick? then e.order else []);
    if forall i :: 0 <= i < |targets| ==> targets[i].chan != c {
      if e.PacketBatches? && Enumerates(e.order, Audience(cfg, s)) {
        ReceivedNothing(targets, Forward(cfg, s, e.batches, e.order, e.moves).rounds,
                        Chunks(Filtered(cfg.ofac, e.batches), cfg.batchSize), c);
      }
    } else {
      var i :| 0 <= i < |targets| && targets[i].chan == c;
      assert targets[i].pubkey in s.subs;
    }
  }

  // ---------- accounting ----------

  /** The packets of one event whose try for `p` had the given outcome. */
  ghost function EventTally(cfg: Config, s: State, e: Event, p: Pubkey, o: Outcome): nat
    requires Valid(s) && e.PacketBatches?
  {
    Tally(Forward(cfg, s, e.batches, e.order, e.moves).rounds, Chunks(Filtered(cfg.ofac, e.batches), cfg.batchSize), p, o)
  }

  /** A packet event that walks its audience. */
  ghost predicate WalksAudience(cfg: Config, s: State, e: Event) {
    Valid(s) && e.PacketBatches? && Enumerates(e.order, Audience(cfg, s))
  }

  /** ... with the subscriber `p` in it. */
  ghost predicate Walks(cfg: Config, s: State, e: Event, p: Pubkey) {
    WalksAudience(cfg, s, e) && p in e.order && p in s.subs
  }

  lemma WalksMeaning(cfg: Config, s: State, e: Event)
    requires WalksAudience(cfg, s, e)
    ensures InRange(Targets(s.subs, e.order), |s.channels|) && DistinctTargets(Targets(s.subs, e.order))
    ensures forall p :: p in s.subs ==> (p in e.order <==> Target(p, s.subs[p]) in Targets(s.subs, e.order))
    ensures PrefixesShrink(Targets(s.subs, e.order), Forward(cfg, s, e.batches, e.order, e.moves).rounds)
  {
    TargetsMeaning(s.subs, e.order);
    TriedPrefixesShrink(s.channels, Targets(s.subs, e.order), Chunks(Filtered(cfg.ofac, e.batches), cfg.batchSize), e.moves);
  }

  /** Counters that have not overflowed in a way the code cannot produce. */
  ghost predicate InRange64(s: State, p: Pubkey) {
    StatsOf(s.metrics.perValidator, p).forwarded <= U64_MAX && StatsOf(s.metrics.perValidator, p).dropped <= U64_MAX
  }

  lemma CountersGrow(cfg: Config, s: State, e: Event, p: Pubkey)
    requires WalksAudience(cfg, s, e) && cfg.batchSize <= U64_MAX && InRange64(s, p)
    ensures var was := StatsOf(s.metrics.perValidator, p);
            StatsOf(Step(cfg, s, e).metrics.perValidator, p)
              == Stats(SaturatingAdd(was.forwarded, EventTally(cfg, s, e, p, Delivered)),
                       SaturatingAdd(was.dropped, EventTally(cfg, s, e, p, Full)))
  {
    var targets := Targets(s.subs, e.order);
    var chunks := Chunks(Filtered(cfg.ofac, e.batches), cfg.batchSize);
    var rounds := Forward(cfg, s, e.batches, e.order, e.moves).rounds;
    WalksMeaning(cfg, s, e);
    ChunksMeaning(Filtered(cfg.ofac, e.batches), cfg.batchSize);
    forall b | 0 <= b < |rounds| ensures TriedOnce(rounds[b]) && |chunks[b]| <= U64_MAX {
      TriesAreDistinct(targets, rounds[b]);
      assert chunks[b] in chunks;
    }
    CountersAreTallies(s.metrics.perValidator, rounds, chunks, p);
  }

  lemma QueueGrows(cfg: Config, s: State, e: Event, p: Pubkey)
    requires Walks(cfg, s, e, p)
    ensures |Payload(Step(cfg, s, e).channels[s.subs[p]].history)|
         == |Payload(s.channels[s.subs[p]].history)| + EventTally(cfg, s, e, p, Delivered)
  {
    var targets := Targets(s.subs, e.order);
    var chunks := Chunks(Filtered(cfg.ofac, e.batches), cfg.batchSize);
    WalksMeaning(cfg, s, e);
    ForwardedIsEnqueued(targets, Forward(cfg, s, e.batches, e.order, e.moves).rounds, chunks, Target(p, s.subs[p]));
    EnqueuedPayload(cfg, s, e, s.subs[p]);
  }

  /** Counters, queues and the filter agree over one packet event, for every key in the
      audience: the forwarded counter grows by exactly the packets enqueued for it, and
      if no closed channel was met, forwarded plus dropped grow by the number of
      filtered packets. */
  lemma PacketAccounting(cfg: Config, s: State, e: Event, p: Pubkey)
    requires Walks(cfg, s, e, p) && cfg.batchSize <= U64_MAX && InRange64(s, p)
    ensures var s' := Step(cfg, s, e);
            var forwarded := EventTally(cfg, s, e, p, Delivered);
            var dropped := EventTally(cfg, s, e, p, Full);
            var was := StatsOf(s.metrics.perValidator, p);
            && StatsOf(s'.metrics.perValidator, p) == Stats(SaturatingAdd(was.forwarded, forwarded), SaturatingAdd(was.dropped, dropped))
            && |Payload(s'.channels[s.subs[p]].history)| == |Payload(s.channels[s.subs[p]].history)| + forwarded
    ensures var rounds := Forward(cfg, s, e.batches, e.order, e.moves).rounds;
            (forall b :: 0 <= b < |rounds| ==> !EndsClosed(rounds[b]))
              ==> EventTally(cfg, s, e, p, Delivered) + EventTally(cfg, s, e, p, Full) == |Filtered(cfg.ofac, e.batches)|
  {
    CountersGrow(cfg, s, e, p);
    QueueGrows(cfg, s, e, p);
    if forall b :: 0 <= b < |Forward(cfg, s, e.batches, e.order, e.moves).rounds|
         ==> !EndsClosed(Forward(cfg, s, e.batches, e.order, e.moves).rounds[b]) {
      WalksMeaning(cfg, s, e);
      var packets := Filtered(cfg.ofac, e.batches);
      ChunksMeaning(packets, cfg.batchSize);
      NoClosedChannelFullAccount(s.channels, Targets(s.subs, e.order), Chunks(packets, cfg.batchSize), e.moves, Target(p, s.subs[p]));
    }
  }

  lemma EnqueuedPayload(cfg: Config, s: State, e: Event, c: nat)
    requires Valid(s) && e.PacketBatches? && Enumerates(e.order, Audience(cfg, s)) && c < |s.channels|
    ensures var got := Received(Targets(s.subs, e.order), Forward(cfg, s, e.batches, e.order, e.moves).rounds,
                                Chunks(Filtered(cfg.ofac, e.batches), cfg.batchSize), c);
            Payload(Step(cfg, s, e).channels[c].history) == Payload(s.channels[c].history) + Flatten(got)
  {
    var got := Received(Targets(s.subs, e.order), Forward(cfg, s, e.batches, e.order, e.moves).rounds,
                        Chunks(Filtered(cfg.ofac, e.batches), cfg.batchSize), c);
    StepHistory(cfg, s, e, c);
    PayloadConcat(s.channels[c].history, AsMessages(got));
    PayloadOfBatches(got);
  }

  // ---------- accounting over runs ----------

  lemma {:induction false} NoTryNoTally(targets: seq<Target>, rounds: seq<seq<Try>>, batches: seq<seq<ProtoPacket>>, p: Pubkey, o: Outcome)
    requires |rounds| <= |batches| && forall i :: 0 <= i < |targets| ==> targets[i].pubkey != p
    requires forall b :: 0 <= b < |rounds| ==> StopsAtFirstClosed(targets, rounds[b])
    ensures Tally(rounds, batches, p, o) == 0
  {
    if rounds != [] {
      var n := |rounds| - 1;
      assert forall b :: 0 <= b < n ==> rounds[..n][b] == rounds[b];
      NoTryNoTally(targets, rounds[..n], batches, p, o);
      assert forall i :: 0 <= i < |rounds[n]| ==> rounds[n][i].pubkey == targets[i].pubkey;
    }
  }

  /** What the event counts for `p` under an outcome; only walking packet events count. */
  ghost function Counted(cfg: Config, s: State, e: Event, p: Pubkey, o: Outcome): nat
    requires Valid(s)
  {
    if WalksAudience(cfg, s, e) then EventTally(cfg, s, e, p, o) else 0
  }

  /** The packets the event puts on the queue that `p` holds. */
  ghost function Enqueued(cfg: Config, s: State, e: Event, p: Pubkey): nat
    requires Valid(s)
  {
    if p in s.subs then |Payload(Appended(cfg, s, e, s.subs[p]))| else 0
  }

  lemma CountedIsEnqueued(cfg: Config, s: State, e: Event, p: Pubkey)
    requires Valid(s)
    ensures Counted(cfg, s, e, p, Delivered) == Enqueued(cfg, s, e, p)
  {
    if WalksAudience(cfg, s, e) {
      var targets := Targets(s.subs, e.order);
      var chunks := Chunks(Filtered(cfg.ofac, e.batches), cfg.batchSize);
      var rounds := Forward(cfg, s, e.batches, e.order, e.moves).rounds;
      WalksMeaning(cfg, s, e);
      if p in s.subs && p in e.order {
        ForwardedIsEnqueued(targets, rounds, chunks, Target(p, s.subs[p]));
        PayloadOfBatches(Received(targets, rounds, chunks, s.subs[p]));
      } else {
        NoTryNoTally(targets, rounds, chunks, p, Delivered);
        if p in s.subs {
          ReceivedNothing(targets, rounds, chunks, s.subs[p]);
        }
      }
    } else {
      var beat := [Heartbeat(s.metrics.heartbeats)];
      assert Payload(beat) == [] + Payload(beat[1..]);
    }
  }

  lemma OtherStepsKeepStats(cfg: Config, s: State, e: Event)
    requires Valid(s) && !WalksAudience(cfg, s, e) && !e.MetricsTick?
    ensures Step(cfg, s, e).metrics.perValidator == s.metrics.perValidator
  {
  }

  /** Packets put on the queues that `p` held, since the last metrics report. */
  ghost function EnqueuedSince(cfg: Config, run: seq<Event>, p: Pubkey): nat {
    if run == [] || run[|run| - 1].MetricsTick? then 0
    else EnqueuedSince(cfg, run[..|run| - 1], p) + Enqueued(cfg, Exec(cfg, run[..|run| - 1]), run[|run| - 1], p)
  }

  /** Packets refused by full queues of `p` since the last metrics report. */
  ghost function RefusedSince(cfg: Config, run: seq<Event>, p: Pubkey): nat {
    if run == [] || run[|run| - 1].MetricsTick? then 0
    else RefusedSince(cfg, run[..|run| - 1], p) + Counted(cfg, Exec(cfg, run[..|run| - 1]), run[|run| - 1], p, Full)
  }

  lemma StepStats(cfg: Config, s: State, e: Event, p: Pubkey, enqueued: nat, refused: nat)
    requires Valid(s) && cfg.batchSize <= U64_MAX && !e.MetricsTick?
    requires StatsOf(s.metrics.perValidator, p) == Stats(Min(U64_MAX, enqueued), Min(U64_MAX, refused))
    ensures StatsOf(Step(cfg, s, e).metrics.perValidator, p)
         == Stats(Min(U64_MAX, enqueued + Enqueued(cfg, s, e, p)), Min(U64_MAX, refused + Counted(cfg, s, e, p, Full)))
  {
    CountedIsEnqueued(cfg, s, e, p);
    if WalksAudience(cfg, s, e) {
      CountersGrow(cfg, s, e, p);
    } else {
      OtherStepsKeepStats(cfg, s, e);
    }
  }

  /** In every reachable state the counters of a key are the packets put on its queues and
      the packets its full queues refused since the last metrics report, saturating. */
  lemma {:induction false} CountersOfRun(cfg: Config, run: seq<Event>, p: Pubkey)
    requires cfg.batchSize <= U64_MAX
    ensures StatsOf(Exec(cfg, run).metrics.perValidator, p)
         == Stats(Min(U64_MAX, EnqueuedSince(cfg, run, p)), Min(U64_MAX, RefusedSince(cfg, run, p)))
  {
    if run != [] && !run[|run| - 1].MetricsTick? {
      var before := run[..|run| - 1];
      CountersOfRun(cfg, before, p);
      StepStats(cfg, Exec(cfg, before), run[|run| - 1], p, EnqueuedSince(cfg, before, p), RefusedSince(cfg, before, p));
    }
  }

  // ---------- connections ----------

  function CountSubscriptions(run: seq<Event>): nat {
    if run == [] then 0
    else CountSubscriptions(run[..|run| - 1]) + (if run[|run| - 1].Subscribe? then 1 else 0)
  }

  /** Position of the last subscription of `p`. */
  function LatestSubscription(run: seq<Event>, p: Pubkey): (r: Option<nat>)
    ensures r.Some? ==> r.value < |run| && run[r.value].Subscribe? && run[r.value].pubkey == p
  {
    if run == [] then None
    else
      var n := |run| - 1;
      if run[n].Subscribe? && run[n].pubkey == p then Some(n) else LatestSubscription(run[..n], p)
  }

  lemma {:induction false} ChannelsAreSubscriptions(cfg: Config, run: seq<Event>)
    ensures |Exec(cfg, run).channels| == CountSubscriptions(run)
  {
    if run != [] {
      ChannelsAreSubscriptions(cfg, run[..|run| - 1]);
    }
  }

  lemma {:induction false} CountSubscriptionsMonotone(run: seq<Event>, i: nat)
    requires i < |run| && run[i].Subscribe?
    ensures CountSubscriptions(run[..i]) < CountSubscriptions(run)
  {
    var n := |run| - 1;
    if i < n {
      CountSubscriptionsMonotone(run[..n], i);
      assert run[..n][..i] == run[..i];
    }
  }

  lemma StepKeepsClosed(cfg: Config, s: State, e: Event, c: nat)
    requires Valid(s) && c < |s.channels| && s.channels[c].closed
    ensures c < |Step(cfg, s, e).channels| && Step(cfg, s, e).channels[c].closed
  {
    match e {
      case PacketBatches(batches, order, moves) =>
        if Enumerates(order, Audience(cfg, s)) {
          FanOutAllKeepsClosed(s.channels, Targets(s.subs, order), Chunks(Filtered(cfg.ofac, batches), cfg.batchSize), moves, c);
        }
      case HeartbeatTick(health, order, moves) =>
        if Enumerates(order, s.subs.Keys) && health.Healthy? {
          FanOutKeepsClosed(s.channels, Targets(s.subs, order), Heartbeat(s.metrics.heartbeats), moves, false, c);
        }
      case Environment(sent) => MovesKeepClosed(s.channels, sent, c);
      case _ =>
    }
  }

  /** A key leaves the map only when its channel is closed or at an unhealthy heartbeat. */
  lemma StepDrops(cfg: Config, s: State, e: Event, p: Pubkey)
    requires Valid(s) && p in s.subs && p !in Step(cfg, s, e).subs
    ensures s.subs[p] < |Step(cfg, s, e).channels|
    ensures Step(cfg, s, e).channels[s.subs[p]].closed || (e.HeartbeatTick? && e.health.Unhealthy?)
  {
    if e.PacketBatches? && Enumerates(e.order, Audience(cfg, s)) {
      PacketsDropClosed(cfg, s, e, p);
    } else if e.HeartbeatTick? && Enumerates(e.order, s.subs.Keys) && e.health.Healthy? {
      HeartbeatDropsClosed(cfg, s, e, p);
    }
  }

  lemma PacketsDropClosed(cfg: Config, s: State, e: Event, p: Pubkey)
    requires Valid(s) && e.PacketBatches? && Enumerates(e.order, Audience(cfg, s))
    requires p in s.subs && p in ClosedInAll(Forward(cfg, s, e.batches, e.order, e.moves).rounds)
    ensures Forward(cfg, s, e.batches, e.order, e.moves).channels[s.subs[p]].closed
  {
    var targets := Targets(s.subs, e.order);
    var chunks := Chunks(Filtered(cfg.ofac, e.batches), cfg.batchSize);
    var r := Forward(cfg, s, e.batches, e.order, e.moves);
    ClosedInAllMember(r.rounds, p);
    var b :| 0 <= b < |r.rounds| && Try(p, Closed) in r.rounds[b];
    DroppedWereClosed(s.channels, targets, chunks, e.moves, b, p);
  }

  lemma {:induction false} HeartbeatTries(channels: seq<Channel>, targets: seq<Target>, m: Message, moves: seq<seq<EnvMove>>)
    requires InRange(targets, |channels|)
    ensures var tries := FanOut(channels, targets, m, moves, false).tries;
            |tries| == |targets| && forall i :: 0 <= i < |tries| ==> tries[i].pubkey == targets[i].pubkey
    decreases |targets|
  {
    if targets != [] {
      var sent := Deliver(MoveAll(channels, Head(moves)), targets[0].chan, m);
      HeartbeatTries(sent, targets[1..], m, Tail(moves));
    }
  }

  lemma HeartbeatDropsClosed(cfg: Config, s: State, e: Event, p: Pubkey)
    requires Valid(s) && e.HeartbeatTick? && Enumerates(e.order, s.subs.Keys) && p in s.subs
    requires p in ClosedIn(FanOut(s.channels, Targets(s.subs, e.order), Heartbeat(s.metrics.heartbeats), e.moves, false).tries)
    ensures FanOut(s.channels, Targets(s.subs, e.order), Heartbeat(s.metrics.heartbeats), e.moves, false).channels[s.subs[p]].closed
  {
    var targets := Targets(s.subs, e.order);
    var m := Heartbeat(s.metrics.heartbeats);
    var fan := FanOut(s.channels, targets, m, e.moves, false);
    ClosedInMember(fan.tries, p);
    var i :| 0 <= i < |fan.tries| && fan.tries[i] == Try(p, Closed);
    HeartbeatTries(s.channels, targets, m, e.moves);
    ClosedTryIsClosed(s.channels, targets, m, e.moves, false, i);
  }

  /** The run has an unhealthy heartbeat after position `i`. */
  ghost predicate UnhealthySince(run: seq<Event>, i: nat) {
    exists j :: i < j < |run| && run[j].HeartbeatTick? && run[j].health.Unhealthy?
  }

  /** Subscriptions are the only way in, and open the next channel. */
  lemma StepSubs(cfg: Config, s: State, e: Event, p: Pubkey)
    requires Valid(s)
    ensures var s' := Step(cfg, s, e);
            if e.Subscribe? && e.pubkey == p then p in s'.subs && s'.subs[p] == |s.channels|
            else p in s'.subs ==> p in s.subs && s'.subs[p] == s.subs[p]
    ensures |Step(cfg, s, e).channels| == |s.channels| + (if e.Subscribe? then 1 else 0)
  {
  }

  /** Where `p` stands after a run: mapped to its latest channel, or disconnected for a reason. */
  ghost predicate Accounted(run: seq<Event>, s: State, p: Pubkey) {
    match LatestSubscription(run, p)
    case None => p !in s.subs
    case Some(i) =>
      var c := CountSubscriptions(run[..i]);
      && c < |s.channels|
      && (p in s.subs ==> s.subs[p] == c)
      && (p !in s.subs ==> s.channels[c].closed || UnhealthySince(run, i))
  }

  lemma AccountedStep(cfg: Config, run: seq<Event>, s: State, e: Event, p: Pubkey)
    requires Valid(s) && Accounted(run, s, p) && |s.channels| == CountSubscriptions(run)
    ensures Accounted(run + [e], Step(cfg, s, e), p)
  {
    var all := run + [e];
    assert all[..|run|] == run;
    StepSubs(cfg, s, e, p);
    if !(e.Subscribe? && e.pubkey == p) && LatestSubscription(run, p).Some? {
      var i := LatestSubscription(run, p).value;
      assert all[..i] == run[..i];
      var c := CountSubscriptions(run[..i]);
      if UnhealthySince(run, i) {
        var j :| i < j < |run| && run[j].HeartbeatTick? && run[j].health.Unhealthy?;
        assert all[j].HeartbeatTick? && all[j].health.Unhealthy?;
      }
      if s.channels[c].closed {
        StepKeepsClosed(cfg, s, e, c);
      }
      if p in s.subs && p !in Step(cfg, s, e).subs {
        StepDrops(cfg, s, e, p);
        assert all[|run|] == e;
      }
    }
  }

  /** In every reachable state a key is mapped, if at all, to the channel of its latest
      subscription (channels are numbered in subscription order). A subscribed key is
      missing only after that channel was closed or an unhealthy heartbeat came later. */
  lemma {:induction false} ConnectionHistory(cfg: Config, run: seq<Event>, p: Pubkey)
    ensures Accounted(run, Exec(cfg, run), p)
  {
    if run != [] {
      var n := |run| - 1;
      ConnectionHistory(cfg, run[..n], p);
      ChannelsAreSubscriptions(cfg, run[..n]);
      AccountedStep(cfg, run[..n], Exec(cfg, run[..n]), run[n], p);
      assert run[..n] + [run[n]] == run;
    }
  }

  /** Right after an unhealthy heartbeat nobody is connected. */
  lemma UnhealthyHeartbeatClears(cfg: Config, s: State, order: seq<Pubkey>, moves: seq<seq<EnvMove>>)
    requires Valid(s) && Enumerates(order, s.subs.Keys)
    ensures Step(cfg, s, HeartbeatTick(HealthManager.Unhealthy, order, moves)).subs == map[]
  {
    assert forall p :: p in s.subs ==> p in s.subs.Keys && p in order;
  }

  function Keys(list: seq<Pubkey>): set<Pubkey> {
    set p | p in list
  }

  /** After a packet event exactly the keys not seen closed remain; how often a key is
      on the drop list makes no difference to the map. */
  lemma DropListEffect(cfg: Config, s: State, e: Event, p: Pubkey)
    requires Valid(s) && e.PacketBatches? && Enumerates(e.order, Audience(cfg, s))
    ensures var rounds := Forward(cfg, s, e.batches, e.order, e.moves).rounds;
            p in Step(cfg, s, e).subs <==> p in s.subs && forall b :: 0 <= b < |rounds| ==> Try(p, Closed) !in rounds[b]
  {
    ClosedInAllMember(Forward(cfg, s, e.batches, e.order, e.moves).rounds, p);
  }

  ghost predicate FirstClosedRound(rounds: seq<seq<Try>>, first: nat) {
    first <= |rounds| && forall b :: 0 <= b < |rounds| ==> (EndsClosed(rounds[b]) <==> first <= b)
  }

  lemma {:induction false} FirstClosedExists(targets: seq<Target>, rounds: seq<seq<Try>>) returns (first: nat)
    requires PrefixesShrink(targets, rounds)
    ensures FirstClosedRound(rounds, first)
  {
    if rounds == [] {
      first := 0;
    } else {
      var n := |rounds| - 1;
      assert forall b :: 0 <= b < n ==> rounds[..n][b] == rounds[b];
      first := FirstClosedExists(targets, rounds[..n]);
      if first < n {
        assert EndsClosed(rounds[..n][first]) && EndsClosed(rounds[first]);
      }
      if first == n && !EndsClosed(rounds[n]) {
        first := n + 1;
      }
    }
  }

  /** The removal counter grows by one for every batch from the first that met a closed
      channel on, although those batches may all have failed on the same key. */
  lemma RemovalCounterRepeats(cfg: Config, s: State, e: Event) returns (first: nat)
    requires Valid(s) && e.PacketBatches? && Enumerates(e.order, Audience(cfg, s))
    ensures FirstClosedRound(Forward(cfg, s, e.batches, e.order, e.moves).rounds, first)
    ensures Step(cfg, s, e).metrics.removed
         == s.metrics.removed + |Chunks(Filtered(cfg.ofac, e.batches), cfg.batchSize)| - first
  {
    var targets := Targets(s.subs, e.order);
    var rounds := Forward(cfg, s, e.batches, e.order, e.moves).rounds;
    TriedPrefixesShrink(s.channels, targets, Chunks(Filtered(cfg.ofac, e.batches), cfg.batchSize), e.moves);
    first := FirstClosedExists(targets, rounds);
    DropListRepeats(targets, rounds, first);
  }

  // ---------- leaders and heartbeats ----------

  function LastSlotUpdate(run: seq<Event>): (r: Option<nat>)
    ensures r.Some? ==> r.value < |run| && run[r.value].SlotUpdate?
  {
    if run == [] then None
    else if run[|run| - 1].SlotUpdate? then Some(|run| - 1)
    else LastSlotUpdate(run[..|run| - 1])
  }

  /** The part of the state a slot update sets. */
  ghost predicate LeadersOf(cfg: Config, run: seq<Event>, s: State, p: Pubkey) {
    match LastSlotUpdate(run)
    case None => s.highestSlot == 0 && s.slotLeaders == {}
    case Some(i) =>
      && s.highestSlot == run[i].slot
      && (p in s.slotLeaders <==>
            exists x :: s.highestSlot <= x < s.highestSlot + cfg.slotLookahead
                        && x in run[i].schedule && run[i].schedule[x] == p)
  }

  lemma LeadersStep(cfg: Config, run: seq<Event>, s: State, e: Event, p: Pubkey)
    requires Valid(s) && LeadersOf(cfg, run, s, p)
    ensures LeadersOf(cfg, run + [e], Step(cfg, s, e), p)
  {
    assert (run + [e])[..|run|] == run;
    if e.SlotUpdate? {
      ScheduleCache.LeadersOfWindow(e.schedule, e.slot, cfg.slotLookahead, p);
    } else {
      StepKeepsLeaders(cfg, s, e);
    }
  }

  lemma StepKeepsLeaders(cfg: Config, s: State, e: Event)
    requires Valid(s) && !e.SlotUpdate?
    ensures Step(cfg, s, e).highestSlot == s.highestSlot && Step(cfg, s, e).slotLeaders == s.slotLeaders
  {
  }

  /** `highestSlot` is the latest slot taken, not the largest, and the current leaders
      are exactly the leaders of the lookahead window from it, in the schedule held then. */
  lemma {:induction false} LeadersMatchLatestSlot(cfg: Config, run: seq<Event>, p: Pubkey)
    ensures LeadersOf(cfg, run, Exec(cfg, run), p)
  {
    if run != [] {
      var n := |run| - 1;
      LeadersMatchLatestSlot(cfg, run[..n], p);
      LeadersStep(cfg, run[..n], Exec(cfg, run[..n]), run[n], p);
      assert run[..n] + [run[n]] == run;
    }
  }

  /** Whether a step sends out heartbeats. */
  ghost predicate Beats(s: State, e: Event) {
    e.HeartbeatTick? && e.health.Healthy? && Enumerates(e.order, s.subs.Keys)
  }

  /** Healthy heartbeats since the last metrics report. */
  ghost function HeartbeatsSinceReport(cfg: Config, run: seq<Event>): nat {
    if run == [] then 0
    else
      var before, e := run[..|run| - 1], run[|run| - 1];
      if e.MetricsTick? then 0
      else HeartbeatsSinceReport(cfg, before) + (if Beats(Exec(cfg, before), e) then 1 else 0)
  }

  lemma StepBeats(cfg: Config, s: State, e: Event)
    requires Valid(s)
    ensures Step(cfg, s, e).metrics.heartbeats ==
              if e.MetricsTick? then 0 else s.metrics.heartbeats + (if Beats(s, e) then 1 else 0)
  {
  }

  lemma {:induction false} HeartbeatCounter(cfg: Config, run: seq<Event>)
    ensures Exec(cfg, run).metrics.heartbeats == HeartbeatsSinceReport(cfg, run)
  {
    if run != [] {
      var n := |run| - 1;
      HeartbeatCounter(cfg, run[..n]);
      StepBeats(cfg, Exec(cfg, run[..n]), run[n]);
    }
  }

  /** A heartbeat carries the number of heartbeats since the last metrics report: the
      count restarts at every report. */
  lemma {:induction false} HeartbeatCountRestarts(cfg: Config, run: seq<Event>, e: Event, c: nat, m: Message)
    ensures m in Appended(cfg, Exec(cfg, run), e, c) && m.Heartbeat? ==> m.count == HeartbeatsSinceReport(cfg, run)
  {
    HeartbeatCounter(cfg, run);
    var s := Exec(cfg, run);
    if e.PacketBatches? && Enumerates(e.order, Audience(cfg, s)) {
      AsMessagesMember(Received(Targets(s.subs, e.order), Forward(cfg, s, e.batches, e.order, e.moves).rounds,
                                Chunks(Filtered(cfg.ofac, e.batches), cfg.batchSize), c));
    }
  }
}
