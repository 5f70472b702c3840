/** The relayer's event loop (relayer/src/relayer.rs): subscriptions, bounded subscriber
    queues, packet fan-out, heartbeats and dropped connections.

    Subscribers act concurrently with a fan-out: before each `try_send` the environment
    may read from their queues and hang up. What it does there is the input `moves`, one list of
    moves per attempted send. Hash-map iteration orders are inputs as well. */
module Relayer {
  import opened Common
  import opened Transactions
  import opened Ofac
  import ScheduleCache
  import HealthManager

  const SUBSCRIBER_QUEUE_CAPACITY: nat := 50_000

  const U64_MAX: nat := 0xFFFF_FFFF_FFFF_FFFF

  datatype Message = Heartbeat(count: nat) | Batch(packets: seq<ProtoPacket>)

  /** A subscriber channel: everything ever enqueued, how much of it has been read, and
      whether the receiving side is gone. */
  datatype Channel = Channel(history: seq<Message>, read: nat, closed: bool) {
    function Unread(): int {
      |history| - read
    }
  }

  /** A subscriber reads one message, or goes away. */
  datatype EnvMove = Read(chan: nat) | HangUp(chan: nat)

  datatype Outcome = Delivered | Full | Closed

  datatype Target = Target(pubkey: Pubkey, chan: nat)

  datatype Try = Try(pubkey: Pubkey, outcome: Outcome)

  datatype Stats = Stats(forwarded: nat, dropped: nat)

  datatype Metrics = Metrics(
    highestSlot: nat, added: nat, removed: nat, heartbeats: nat, trySendFull: nat,
    perValidator: map<Pubkey, Stats>)

  const NO_METRICS := Metrics(0, 0, 0, 0, 0, map[])

  datatype RawConfig = Config(ofac: set<Pubkey>, batchSize: nat, forwardAll: bool, slotLookahead: nat)

  /** `chunks` panics on a batch size of zero. */
  type Config = c: RawConfig | c.batchSize > 0 witness Config({}, 1, false, 0)

  // ---------- filtering and chunking ----------

  function FilterArrival(ofac: set<Pubkey>, a: Arrival): Option<ProtoPacket> {
    if a.packet.discard then None
    else if ofac == {} then a.packet.proto
    else if a.packet.tx.None? || IsTxOfacRelated(a.packet.tx.value, ofac, a.views) then None
    else a.packet.proto
  }

  function FilterBatch(ofac: set<Pubkey>, batch: seq<Arrival>): seq<ProtoPacket> {
    if batch == [] then []
    else (match FilterArrival(ofac, batch[0]) case Some(p) => [p] case None => []) + FilterBatch(ofac, batch[1..])
  }

  function Filtered(ofac: set<Pubkey>, batches: seq<seq<Arrival>>): seq<ProtoPacket> {
    if batches == [] then [] else FilterBatch(ofac, batches[0]) + Filtered(ofac, batches[1..])
  }

  function Chunks(packets: seq<ProtoPacket>, size: nat): seq<seq<ProtoPacket>>
    requires size > 0
  {
    if packets == [] then []
    else if |packets| <= size then [packets]
    else [packets[..size]] + Chunks(packets[size..], size)
  }

  // ---------- channels ----------

  predicate QueuesBounded(channels: seq<Channel>) {
    forall i :: 0 <= i < |channels| ==> channels[i].read <= |channels[i].history| <= channels[i].read + SUBSCRIBER_QUEUE_CAPACITY
  }

  function Move(channels: seq<Channel>, m: EnvMove): (r: seq<Channel>)
    ensures |r| == |channels|
  {
    if m.chan >= |channels| then channels
    else
      var ch := channels[m.chan];
      match m
      case Read(c) => channels[c := ch.(read := if ch.read < |ch.history| then ch.read + 1 else ch.read)]
      case HangUp(c) => channels[c := ch.(closed := true)]
  }

  function MoveAll(channels: seq<Channel>, moves: seq<EnvMove>): (r: seq<Channel>)
    ensures |r| == |channels|
    decreases |moves|
  {
    if moves == [] then channels else MoveAll(Move(channels, moves[0]), moves[1..])
  }

  function Head(moves: seq<seq<EnvMove>>): seq<EnvMove> {
    if moves == [] then [] else moves[0]
  }

  function Tail(moves: seq<seq<EnvMove>>): seq<seq<EnvMove>> {
    if moves == [] then [] else moves[1..]
  }

  /** What `try_send` answers; a closed channel is reported before a full one. */
  function OutcomeOf(ch: Channel): Outcome {
    if ch.closed then Closed else if ch.Unread() >= SUBSCRIBER_QUEUE_CAPACITY then Full else Delivered
  }

  function Deliver(channels: seq<Channel>, c: nat, m: Message): (r: seq<Channel>)
    requires c < |channels|
    ensures |r| == |channels|
  {
    if OutcomeOf(channels[c]).Delivered?
    then channels[c := channels[c].(history := channels[c].history + [m])]
    else channels
  }

  // ---------- fan-out ----------

  datatype Fan = Fan(channels: seq<Channel>, tries: seq<Try>, rest: seq<seq<EnvMove>>)

  predicate InRange(targets: seq<Target>, n: nat) {
    forall i :: 0 <= i < |targets| ==> targets[i].chan < n
  }

  /** One message to the targets in order. Packet batches stop at the first closed
      channel (`stop`), heartbeats do not. */
  function FanOut(channels: seq<Channel>, targets: seq<Target>, m: Message, moves: seq<seq<EnvMove>>, stop: bool): (r: Fan)
    requires InRange(targets, |channels|)
    ensures |r.channels| == |channels|
    decreases |targets|
  {
    if |targets| == 0 then Fan(channels, [], moves)
    else
      var moved := MoveAll(channels, Head(moves));
      var t := Try(targets[0].pubkey, OutcomeOf(moved[targets[0].chan]));
      var sent := Deliver(moved, targets[0].chan, m);
      if stop && t.outcome.Closed? then Fan(sent, [t], Tail(moves))
      else
        var rest := FanOut(sent, targets[1..], m, Tail(moves), stop);
        Fan(rest.channels, [t] + rest.tries, rest.rest)
  }

  /** `all` consists of the tries in `done` followed by what is left. */
  ghost predicate Continues(all: Fan, done: seq<Try>, left: Fan) {
    all == Fan(left.channels, done + left.tries, left.rest)
  }

  /** Unfolding a fan-out at its `i`-th target. */
  lemma FanOutAt(channels: seq<Channel>, targets: seq<Target>, i: nat, m: Message, moves: seq<seq<EnvMove>>, stop: bool,
                 sent: seq<Channel>, t: Try)
    requires InRange(targets, |channels|) && i < |targets|
    requires t == Try(targets[i].pubkey, OutcomeOf(MoveAll(channels, Head(moves))[targets[i].chan]))
    requires sent == Deliver(MoveAll(channels, Head(moves)), targets[i].chan, m)
    ensures |sent| == |channels|
    ensures FanOut(channels, targets[i..], m, moves, stop) ==
              if stop && t.outcome.Closed? then Fan(sent, [t], Tail(moves))
              else
                var left := FanOut(sent, targets[i + 1..], m, Tail(moves), stop);
                Fan(left.channels, [t] + left.tries, left.rest)
  {
    assert targets[i..][0] == targets[i] && targets[i..][1..] == targets[i + 1..];
  }

  /** Taking one target off what is left of a fan-out. */
  lemma ContinueFanOut(all: Fan, done: seq<Try>, t: Try, left: Fan)
    requires Continues(all, done, Fan(left.channels, [t] + left.tries, left.rest))
    ensures Continues(all, done + [t], left)
  {
    assert done + ([t] + left.tries) == (done + [t]) + left.tries;
  }

  lemma FanOutEnd(all: Fan, done: seq<Try>, channels: seq<Channel>, targets: seq<Target>, m: Message, moves: seq<seq<EnvMove>>, stop: bool)
    requires InRange(targets, |channels|)
    requires Continues(all, done, FanOut(channels, targets[|targets|..], m, moves, stop))
    ensures all == Fan(channels, done, moves)
  {
    assert done + [] == done;
  }

  /** One turn of a sending loop: target `i` has been tried, with the moves before it. */
  lemma FanOutTurn(all: Fan, done: seq<Try>, channels: seq<Channel>, targets: seq<Target>, i: nat, m: Message,
                   moves: seq<seq<EnvMove>>, stop: bool, sent: seq<Channel>, t: Try)
    requires InRange(targets, |channels|) && i < |targets|
    requires Continues(all, done, FanOut(channels, targets[i..], m, moves, stop))
    requires t == Try(targets[i].pubkey, OutcomeOf(MoveAll(channels, Head(moves))[targets[i].chan]))
    requires sent == Deliver(MoveAll(channels, Head(moves)), targets[i].chan, m)
    ensures |sent| == |channels|
    ensures if stop && t.outcome.Closed? then all == Fan(sent, done + [t], Tail(moves))
            else Continues(all, done + [t], FanOut(sent, targets[i + 1..], m, Tail(moves), stop))
    ensures ClosedIn(done + [t]) == ClosedIn(done) + (if t.outcome.Closed? then [t.pubkey] else [])
    ensures CountFull(done + [t]) == CountFull(done) + (if t.outcome.Full? then 1 else 0)
  {
    FanOutAt(channels, targets, i, m, moves, stop, sent, t);
    AppendTry(done, t);
    if !(stop && t.outcome.Closed?) {
      ContinueFanOut(all, done, t, FanOut(sent, targets[i + 1..], m, Tail(moves), stop));
    }
  }

  datatype Rounds = Rounds(channels: seq<Channel>, rounds: seq<seq<Try>>)

  /** All batches of one event, each a fan-out of its own over the same targets. */
  function FanOutAll(channels: seq<Channel>, targets: seq<Target>, batches: seq<seq<ProtoPacket>>, moves: seq<seq<EnvMove>>): (r: Rounds)
    requires InRange(targets, |channels|)
    ensures |r.channels| == |channels| && |r.rounds| == |batches|
    decreases |batches|
  {
    if batches == [] then Rounds(channels, [])
    else
      var fan := FanOut(channels, targets, Batch(batches[0]), moves, true);
      var rest := FanOutAll(fan.channels, targets, batches[1..], fan.rest);
      Rounds(rest.channels, [fan.tries] + rest.rounds)
  }

  ghost predicate ContinuesAll(all: Rounds, done: seq<seq<Try>>, left: Rounds) {
    all == Rounds(left.channels, done + left.rounds)
  }

  /** Taking one batch off what is left of an event. */
  lemma ContinueFanOutAll(all: Rounds, done: seq<seq<Try>>, channels: seq<Channel>, targets: seq<Target>,
                          batches: seq<seq<ProtoPacket>>, i: nat, moves: seq<seq<EnvMove>>)
    requires InRange(targets, |channels|) && i < |batches|
    requires ContinuesAll(all, done, FanOutAll(channels, targets, batches[i..], moves))
    ensures var fan := FanOut(channels, targets, Batch(batches[i]), moves, true);
            ContinuesAll(all, done + [fan.tries], FanOutAll(fan.channels, targets, batches[i + 1..], fan.rest))
  {
    assert batches[i..][0] == batches[i] && batches[i..][1..] == batches[i + 1..];
    var fan := FanOut(channels, targets, Batch(batches[i]), moves, true);
    var left := FanOutAll(fan.channels, targets, batches[i + 1..], fan.rest);
    assert done + ([fan.tries] + left.rounds) == (done + [fan.tries]) + left.rounds;
  }

  /** The subscribers among `order`, with their channels. */
  function Targets(subs: map<Pubkey, nat>, order: seq<Pubkey>): (r: seq<Target>)
    ensures forall i :: 0 <= i < |r| ==> r[i].pubkey in order && r[i].pubkey in subs && r[i].chan == subs[r[i].pubkey]
  {
    if order == [] then []
    else (if order[0] in subs then [Target(order[0], subs[order[0]])] else []) + Targets(subs, order[1..])
  }

  // ---------- counters ----------

  function SaturatingAdd(a: nat, b: nat): nat {
    Min(U64_MAX, a + b)
  }

  function Bump(stats: map<Pubkey, Stats>, t: Try, n: nat): map<Pubkey, Stats> {
    match t.outcome
    case Delivered =>
      stats[t.pubkey := if t.pubkey in stats
                        then stats[t.pubkey].(forwarded := SaturatingAdd(stats[t.pubkey].forwarded, n))
                        else Stats(n, 0)]
    case Full =>
      stats[t.pubkey := if t.pubkey in stats
                        then stats[t.pubkey].(dropped := SaturatingAdd(stats[t.pubkey].dropped, n))
                        else Stats(0, n)]
    case Closed => stats
  }

  function Account(stats: map<Pubkey, Stats>, tries: seq<Try>, n: nat): map<Pubkey, Stats> {
    if tries == [] then stats else Bump(Account(stats, tries[..|tries| - 1], n), tries[|tries| - 1], n)
  }

  function AccountAll(stats: map<Pubkey, Stats>, rounds: seq<seq<Try>>, batches: seq<seq<ProtoPacket>>): map<Pubkey, Stats>
    requires |rounds| <= |batches|
  {
    if rounds == [] then stats
    else
      var n := |rounds| - 1;
      Account(AccountAll(stats, rounds[..n], batches), rounds[n], |batches[n]|)
  }

  /** Pubkeys whose channel was found closed, in order. */
  function ClosedIn(tries: seq<Try>): seq<Pubkey> {
    if tries == [] then []
    else
      var last := tries[|tries| - 1];
      ClosedIn(tries[..|tries| - 1]) + (if last.outcome.Closed? then [last.pubkey] else [])
  }

  function ClosedInAll(rounds: seq<seq<Try>>): seq<Pubkey> {
    if rounds == [] then [] else ClosedInAll(rounds[..|rounds| - 1]) + ClosedIn(rounds[|rounds| - 1])
  }

  function CountFull(tries: seq<Try>): nat {
    if tries == [] then 0
    else CountFull(tries[..|tries| - 1]) + (if tries[|tries| - 1].outcome.Full? then 1 else 0)
  }

  lemma AppendTry(tries: seq<Try>, t: Try)
    ensures ClosedIn(tries + [t]) == ClosedIn(tries) + (if t.outcome.Closed? then [t.pubkey] else [])
    ensures CountFull(tries + [t]) == CountFull(tries) + (if t.outcome.Full? then 1 else 0)
  {
    assert (tries + [t])[..|tries|] == tries;
  }

  lemma AccountAppend(stats: map<Pubkey, Stats>, tries: seq<Try>, t: Try, n: nat)
    ensures Account(stats, tries + [t], n) == Bump(Account(stats, tries, n), t, n)
  {
    assert (tries + [t])[..|tries|] == tries;
  }

  /** The loop over subscribers for one batch, with `done` behind it and no closed channel so far. */
  ghost predicate SendingBatch(all: Fan, done: seq<Try>, channels: seq<Channel>, targets: seq<Target>, i: nat,
                               packets: seq<ProtoPacket>, moves: seq<seq<EnvMove>>,
                               before: map<Pubkey, Stats>, stats: map<Pubkey, Stats>)
  {
    && InRange(targets, |channels|) && i <= |targets|
    && Continues(all, done, FanOut(channels, targets[i..], Batch(packets), moves, true))
    && ClosedIn(done) == [] && stats == Account(before, done, |packets|)
  }

  lemma SendingBatchStart(channels: seq<Channel>, targets: seq<Target>, packets: seq<ProtoPacket>, moves: seq<seq<EnvMove>>,
                          stats: map<Pubkey, Stats>)
    requires InRange(targets, |channels|)
    ensures SendingBatch(FanOut(channels, targets, Batch(packets), moves, true), [], channels, targets, 0, packets, moves, stats, stats)
  {
    var all := FanOut(channels, targets, Batch(packets), moves, true);
    assert targets[0..] == targets && [] + all.tries == all.tries;
  }

  lemma SendingBatchTurn(all: Fan, done: seq<Try>, channels: seq<Channel>, targets: seq<Target>, i: nat,
                         packets: seq<ProtoPacket>, moves: seq<seq<EnvMove>>,
                         before: map<Pubkey, Stats>, stats: map<Pubkey, Stats>, sent: seq<Channel>, t: Try)
    requires i < |targets| && SendingBatch(all, done, channels, targets, i, packets, moves, before, stats)
    requires t == Try(targets[i].pubkey, OutcomeOf(MoveAll(channels, Head(moves))[targets[i].chan]))
    requires sent == Deliver(MoveAll(channels, Head(moves)), targets[i].chan, Batch(packets))
    ensures |sent| == |channels|
    ensures t.outcome.Closed? ==>
              && all == Fan(sent, all.tries, Tail(moves)) && ClosedIn(all.tries) == [t.pubkey]
              && Bump(stats, t, |packets|) == Account(before, all.tries, |packets|)
    ensures !t.outcome.Closed? ==>
              SendingBatch(all, done + [t], sent, targets, i + 1, packets, Tail(moves), before, Bump(stats, t, |packets|))
  {
    FanOutTurn(all, done, channels, targets, i, Batch(packets), moves, true, sent, t);
    AccountAppend(before, done, t, |packets|);
  }

  lemma SendingBatchEnd(all: Fan, done: seq<Try>, channels: seq<Channel>, targets: seq<Target>,
                        packets: seq<ProtoPacket>, moves: seq<seq<EnvMove>>,
                        before: map<Pubkey, Stats>, stats: map<Pubkey, Stats>)
    requires SendingBatch(all, done, channels, targets, |targets|, packets, moves, before, stats)
    ensures all == Fan(channels, all.tries, moves) && ClosedIn(all.tries) == []
    ensures stats == Account(before, all.tries, |packets|)
  {
    FanOutEnd(all, done, channels, targets, Batch(packets), moves, true);
  }

  /** What a heartbeat loop has gathered from the tries in `done`. */
  ghost predicate Gathered(done: seq<Try>, failed: seq<Pubkey>, full: nat) {
    failed == ClosedIn(done) && full == CountFull(done)
  }

  /** The heartbeat loop, with `done` behind it. */
  ghost predicate SendingBeats(all: Fan, done: seq<Try>, channels: seq<Channel>, targets: seq<Target>, i: nat,
                               beat: Message, moves: seq<seq<EnvMove>>)
  {
    && InRange(targets, |channels|) && i <= |targets|
    && Continues(all, done, FanOut(channels, targets[i..], beat, moves, false))
  }

  lemma SendingBeatsStart(channels: seq<Channel>, targets: seq<Target>, beat: Message, moves: seq<seq<EnvMove>>)
    requires InRange(targets, |channels|)
    ensures SendingBeats(FanOut(channels, targets, beat, moves, false), [], channels, targets, 0, beat, moves)
  {
    var all := FanOut(channels, targets, beat, moves, false);
    assert targets[0..] == targets && [] + all.tries == all.tries;
  }

  lemma SendingBeatsTurn(all: Fan, done: seq<Try>, channels: seq<Channel>, targets: seq<Target>, i: nat,
                         beat: Message, moves: seq<seq<EnvMove>>, sent: seq<Channel>, t: Try)
    requires i < |targets| && SendingBeats(all, done, channels, targets, i, beat, moves)
    requires t == Try(targets[i].pubkey, OutcomeOf(MoveAll(channels, Head(moves))[targets[i].chan]))
    requires sent == Deliver(MoveAll(channels, Head(moves)), targets[i].chan, beat)
    ensures |sent| == |channels| && SendingBeats(all, done + [t], sent, targets, i + 1, beat, Tail(moves))
  {
    FanOutTurn(all, done, channels, targets, i, beat, moves, false, sent, t);
  }

  lemma GatheredTurn(done: seq<Try>, t: Try, failed: seq<Pubkey>, full: nat)
    requires Gathered(done, failed, full)
    ensures Gathered(done + [t], if t.outcome.Closed? then failed + [t.pubkey] else failed,
                     if t.outcome.Full? then full + 1 else full)
  {
    AppendTry(done, t);
  }

  lemma SendingBeatsEnd(all: Fan, done: seq<Try>, channels: seq<Channel>, targets: seq<Target>,
                        beat: Message, moves: seq<seq<EnvMove>>, failed: seq<Pubkey>, full: nat)
    requires SendingBeats(all, done, channels, targets, |targets|, beat, moves) && Gathered(done, failed, full)
    ensures all.channels == channels && failed == ClosedIn(all.tries) && full == CountFull(all.tries)
  {
    FanOutEnd(all, done, channels, targets, beat, moves, false);
  }

  lemma AppendRound(stats: map<Pubkey, Stats>, rounds: seq<seq<Try>>, tries: seq<Try>, batches: seq<seq<ProtoPacket>>)
    requires |rounds| < |batches|
    ensures ClosedInAll(rounds + [tries]) == ClosedInAll(rounds) + ClosedIn(tries)
    ensures AccountAll(stats, rounds + [tries], batches)
         == Account(AccountAll(stats, rounds, batches), tries, |batches[|rounds|]|)
  {
    assert (rounds + [tries])[..|rounds|] == rounds;
  }

  // ---------- the event loop ----------

  lemma {:induction false} MovesKeepBounds(channels: seq<Channel>, moves: seq<EnvMove>)
    requires QueuesBounded(channels)
    ensures QueuesBounded(MoveAll(channels, moves))
    decreases |moves|
  {
    if moves != [] {
      MovesKeepBounds(Move(channels, moves[0]), moves[1..]);
    }
  }

  lemma {:induction false} FanOutKeepsBounds(channels: seq<Channel>, targets: seq<Target>, m: Message, moves: seq<seq<EnvMove>>, stop: bool)
    requires InRange(targets, |channels|) && QueuesBounded(channels)
    ensures QueuesBounded(FanOut(channels, targets, m, moves, stop).channels)
    decreases |targets|
  {
    if targets != [] {
      MovesKeepBounds(channels, Head(moves));
      var sent := Deliver(MoveAll(channels, Head(moves)), targets[0].chan, m);
      FanOutKeepsBounds(sent, targets[1..], m, Tail(moves), stop);
    }
  }

  lemma {:induction false} FanOutAllKeepsBounds(channels: seq<Channel>, targets: seq<Target>, batches: seq<seq<ProtoPacket>>, moves: seq<seq<EnvMove>>)
    requires InRange(targets, |channels|) && QueuesBounded(channels)
    ensures QueuesBounded(FanOutAll(channels, targets, batches, moves).channels)
    decreases |batches|
  {
    if batches != [] {
      FanOutKeepsBounds(channels, targets, Batch(batches[0]), moves, true);
      var fan := FanOut(channels, targets, Batch(batches[0]), moves, true);
      FanOutAllKeepsBounds(fan.channels, targets, batches[1..], fan.rest);
    }
  }

  datatype State = State(
    subs: map<Pubkey, nat>,
    channels: seq<Channel>,
    highestSlot: nat,
    slotLeaders: set<Pubkey>,
    metrics: Metrics)

  /** Arms of the loop. `schedule` is the leader schedule held when the slot is handled;
      a subscriber may have hung up before its subscription is handled. `Environment`
      is whatever subscribers do between two turns of the loop. */
  datatype Event =
    | SlotUpdate(slot: nat, schedule: ScheduleCache.Schedule)
    | PacketBatches(batches: seq<seq<Arrival>>, order: seq<Pubkey>, moves: seq<seq<EnvMove>>)
    | Subscribe(pubkey: Pubkey, hungUp: bool)
    | HeartbeatTick(health: HealthManager.HealthState, order: seq<Pubkey>, moves: seq<seq<EnvMove>>)
    | MetricsTick
    | Environment(sent: seq<EnvMove>)

  /** Every subscriber has a channel of its own. */
  ghost predicate Valid(s: State) {
    && (forall p :: p in s.subs ==> s.subs[p] < |s.channels|)
    && (forall p, q :: p in s.subs && q in s.subs && s.subs[p] == s.subs[q] ==> p == q)
    && QueuesBounded(s.channels)
  }

  const INIT := State(map[], [], 0, {}, NO_METRICS)

  /** The keys offered a packet batch. */
  function Audience(cfg: Config, s: State): set<Pubkey> {
    if cfg.forwardAll then s.subs.Keys else s.slotLeaders
  }

  function DropConnections(s: State, pubkeys: seq<Pubkey>): State {
    s.(subs := map p | p in s.subs && p !in pubkeys :: s.subs[p],
       metrics := s.metrics.(removed := s.metrics.removed + |pubkeys|))
  }

  ghost function Forward(cfg: Config, s: State, batches: seq<seq<Arrival>>, order: seq<Pubkey>, moves: seq<seq<EnvMove>>): Rounds
    requires Valid(s)
  {
    FanOutAll(s.channels, Targets(s.subs, order), Chunks(Filtered(cfg.ofac, batches), cfg.batchSize), moves)
  }

  ghost function Step(cfg: Config, s: State, e: Event): (s': State)
    requires Valid(s)
    ensures Valid(s')
  {
    match e
    case SlotUpdate(slot, schedule) =>
      s.(highestSlot := slot,
         slotLeaders := ScheduleCache.LeadersForSlots(schedule, ScheduleCache.Window(slot, cfg.slotLookahead)),
         metrics := s.metrics.(highestSlot := slot))
    case PacketBatches(batches, order, moves) =>
      if !Enumerates(order, Audience(cfg, s)) then s
      else
        var r := Forward(cfg, s, batches, order, moves);
        var chunks := Chunks(Filtered(cfg.ofac, batches), cfg.batchSize);
        FanOutAllKeepsBounds(s.channels, Targets(s.subs, order), chunks, moves);
        DropConnections(
          s.(channels := r.channels,
             metrics := s.metrics.(perValidator := AccountAll(s.metrics.perValidator, r.rounds, chunks))),
          ClosedInAll(r.rounds))
    case Subscribe(pubkey, hungUp) =>
      s.(subs := s.subs[pubkey := |s.channels|],
         channels := s.channels + [Channel([], 0, hungUp)],
         metrics := if pubkey in s.subs then s.metrics else s.metrics.(added := s.metrics.added + 1))
    case HeartbeatTick(health, order, moves) =>
      if !Enumerates(order, s.subs.Keys) then s
      else if health.Unhealthy? then DropConnections(s, order)
      else
        var fan := FanOut(s.channels, Targets(s.subs, order), Heartbeat(s.metrics.heartbeats), moves, false);
        FanOutKeepsBounds(s.channels, Targets(s.subs, order), Heartbeat(s.metrics.heartbeats), moves, false);
        DropConnections(
          s.(channels := fan.channels,
             metrics := s.metrics.(heartbeats := s.metrics.heartbeats + 1,
                                   trySendFull := s.metrics.trySendFull + CountFull(fan.tries))),
          ClosedIn(fan.tries))
    case MetricsTick => s.(metrics := NO_METRICS)
    case Environment(sent) => MovesKeepBounds(s.channels, sent); s.(channels := MoveAll(s.channels, sent))
  }

  ghost function Exec(cfg: Config, run: seq<Event>): (s: State)
    ensures Valid(s)
  {
    if run == [] then INIT else Step(cfg, Exec(cfg, run[..|run| - 1]), run[|run| - 1])
  }

  // ---------- the loop's methods ----------

  class RelayerImpl {
    const cfg: Config
    var subs: map<Pubkey, nat>
    var channels: seq<Channel>
    var highestSlot: nat
    var slotLeaders: set<Pubkey>
    var metrics: Metrics

    function Abs(): State
      reads this
    {
      State(subs, channels, highestSlot, slotLeaders, metrics)
    }

    constructor (config: Config)
      ensures cfg == config && Abs() == INIT
    {
      cfg := config;
      subs := map[];
      channels := [];
      highestSlot := 0;
      slotLeaders := {};
      metrics := NO_METRICS;
    }

    method UpdateHighestSlot(slot: nat, schedule: ScheduleCache.Schedule)
      requires Valid(Abs())
      modifies this
      ensures Abs() == Step(cfg, old(Abs()), SlotUpdate(slot, schedule))
    {
      highestSlot := slot;
      metrics := metrics.(highestSlot := slot);
      slotLeaders := ScheduleCache.LeadersForSlots(schedule, ScheduleCache.Window(highestSlot, cfg.slotLookahead));
    }

    method HandlePackets(batches: seq<seq<Arrival>>, order: seq<Pubkey>, moves: seq<seq<EnvMove>>)
      requires Valid(Abs()) && Enumerates(order, Audience(cfg, Abs()))
      modifies this
      ensures Abs() == Step(cfg, old(Abs()), PacketBatches(batches, order, moves))
    {
      var failed := ForwardPackets(batches, order, moves);
      DropSubscriptions(failed);
    }

    method ForwardPackets(batches: seq<seq<Arrival>>, order: seq<Pubkey>, moves: seq<seq<EnvMove>>) returns (failed: seq<Pubkey>)
      requires Valid(Abs())
      modifies this`channels, this`metrics
      ensures var chunks := Chunks(Filtered(cfg.ofac, batches), cfg.batchSize);
              var r := Forward(cfg, old(Abs()), batches, order, moves);
              && channels == r.channels && failed == ClosedInAll(r.rounds)
              && metrics == old(metrics).(perValidator := AccountAll(old(metrics).perValidator, r.rounds, chunks))
    {
      var packets := Filtered(cfg.ofac, batches);
      var chunks := SplitIntoChunks(packets, cfg.batchSize);
      var targets := Targets(subs, order);
      ghost var all := FanOutAll(channels, targets, chunks, moves);
      ghost var done: seq<seq<Try>> := [];
      var rest := moves;
      failed := [];
      for i := 0 to |chunks|
        invariant |done| == i && |channels| == |old(channels)|
        invariant ContinuesAll(all, done, FanOutAll(channels, targets, chunks[i..], rest))
        invariant failed == ClosedInAll(done)
        invariant metrics == old(metrics).(perValidator := AccountAll(old(metrics).perValidator, done, chunks))
      {
        ghost var fan := FanOut(channels, targets, Batch(chunks[i]), rest, true);
        ContinueFanOutAll(all, done, channels, targets, chunks, i, rest);
        AppendRound(old(metrics).perValidator, done, fan.tries, chunks);
        var closed;
        closed, rest := SendBatch(targets, chunks[i], rest);
        failed := failed + closed;
        done := done + [fan.tries];
      }
      assert done + [] == done && all.rounds == done;
    }

    /** One `try_send`, after whatever subscribers did since the last one. */
    method TrySend(chan: nat, m: Message, moves: seq<seq<EnvMove>>) returns (outcome: Outcome, rest: seq<seq<EnvMove>>)
      requires chan < |channels|
      modifies this`channels
      ensures var moved := MoveAll(old(channels), Head(moves));
              outcome == OutcomeOf(moved[chan]) && channels == Deliver(moved, chan, m) && rest == Tail(moves)
      ensures var ch := MoveAll(old(channels), Head(moves))[chan];
              && (outcome.Closed? <==> ch.closed)
              && (outcome.Full? <==> !ch.closed && |ch.history| - ch.read >= SUBSCRIBER_QUEUE_CAPACITY)
              && channels[chan] == ch.(history := ch.history + if outcome.Delivered? then [m] else [])
    {
      channels := MoveAll(channels, Head(moves));
      rest := Tail(moves);
      if channels[chan].closed {
        outcome := Closed;
      } else if channels[chan].Unread() >= SUBSCRIBER_QUEUE_CAPACITY {
        outcome := Full;
      } else {
        outcome := Delivered;
        channels := channels[chan := channels[chan].(history := channels[chan].history + [m])];
      }
    }

    /** The inner loop over subscribers, left at the first closed channel. */
    method SendBatch(targets: seq<Target>, packets: seq<ProtoPacket>, moves: seq<seq<EnvMove>>)
      returns (failed: seq<Pubkey>, rest: seq<seq<EnvMove>>)
      requires InRange(targets, |channels|)
      modifies this`channels, this`metrics
      ensures var fan := FanOut(old(channels), targets, Batch(packets), moves, true);
              && channels == fan.channels && rest == fan.rest && failed == ClosedIn(fan.tries)
              && metrics == old(metrics).(perValidator := Account(old(metrics).perValidator, fan.tries, |packets|))
    {
      ghost var all, before := FanOut(channels, targets, Batch(packets), moves, true), metrics.perValidator;
      ghost var done: seq<Try> := [];
      rest := moves;
      SendingBatchStart(channels, targets, packets, moves, before);
      for i := 0 to |targets|
        invariant |channels| == |old(channels)|
        invariant metrics == old(metrics).(perValidator := metrics.perValidator)
        invariant SendingBatch(all, done, channels, targets, i, packets, rest, before, metrics.perValidator)
      {
        var outcome;
        outcome, rest := BatchTarget(targets, i, packets, rest, all, done, before);
        done := done + [Try(targets[i].pubkey, outcome)];
        if outcome.Closed? {
          return [targets[i].pubkey], rest;
        }
      }
      SendingBatchEnd(all, done, channels, targets, packets, rest, before, metrics.perValidator);
      failed := [];
    }

    /** One turn of that loop: a send and the count of its outcome. */
    method BatchTarget(targets: seq<Target>, i: nat, packets: seq<ProtoPacket>, moves: seq<seq<EnvMove>>,
                       ghost all: Fan, ghost done: seq<Try>, ghost before: map<Pubkey, Stats>)
      returns (outcome: Outcome, rest: seq<seq<EnvMove>>)
      requires i < |targets| && SendingBatch(all, done, channels, targets, i, packets, moves, before, metrics.perValidator)
      modifies this`channels, this`metrics
      ensures |channels| == |old(channels)| && metrics == old(metrics).(perValidator := metrics.perValidator)
      ensures outcome.Closed? ==>
                && all == Fan(channels, all.tries, rest) && ClosedIn(all.tries) == [targets[i].pubkey]
                && metrics.perValidator == Account(before, all.tries, |packets|)
      ensures !outcome.Closed? ==>
                SendingBatch(all, done + [Try(targets[i].pubkey, outcome)], channels, targets, i + 1, packets, rest, before,
                             metrics.perValidator)
    {
      ghost var was := channels;
      outcome, rest := TrySend(targets[i].chan, Batch(packets), moves);
      SendingBatchTurn(all, done, was, targets, i, packets, moves, before, metrics.perValidator, channels, Try(targets[i].pubkey, outcome));
      CountOutcome(targets[i].pubkey, outcome, |packets|);
    }

    /** The match on the result of a send. */
    method CountOutcome(pubkey: Pubkey, outcome: Outcome, n: nat)
      modifies this`metrics
      ensures metrics == old(metrics).(perValidator := Bump(old(metrics).perValidator, Try(pubkey, outcome), n))
    {
      match outcome {
        case Delivered => IncrementForwarded(pubkey, n);
        case Full => IncrementDropped(pubkey, n);
        case Closed =>
      }
    }

    method IncrementForwarded(pubkey: Pubkey, n: nat)
      modifies this`metrics
      ensures metrics == old(metrics).(perValidator := Bump(old(metrics).perValidator, Try(pubkey, Delivered), n))
    {
      var stats := metrics.perValidator;
      if pubkey in stats {
        stats := stats[pubkey := stats[pubkey].(forwarded := SaturatingAdd(stats[pubkey].forwarded, n))];
      } else {
        stats := stats[pubkey := Stats(n, 0)];
      }
      metrics := metrics.(perValidator := stats);
    }

    method IncrementDropped(pubkey: Pubkey, n: nat)
      modifies this`metrics
      ensures metrics == old(metrics).(perValidator := Bump(old(metrics).perValidator, Try(pubkey, Full), n))
    {
      var stats := metrics.perValidator;
      if pubkey in stats {
        stats := stats[pubkey := stats[pubkey].(dropped := SaturatingAdd(stats[pubkey].dropped, n))];
      } else {
        stats := stats[pubkey := Stats(0, n)];
      }
      metrics := metrics.(perValidator := stats);
    }

    method DropSubscriptions(pubkeys: seq<Pubkey>)
      modifies this`subs, this`metrics
      ensures Abs() == DropConnections(old(Abs()), pubkeys)
    {
      metrics := metrics.(removed := metrics.removed + |pubkeys|);
      var i := 0;
      while i < |pubkeys|
        invariant 0 <= i <= |pubkeys|
        invariant metrics == old(metrics).(removed := old(metrics).removed + |pubkeys|)
        invariant subs == map p | p in old(subs) && p !in pubkeys[..i] :: old(subs)[p]
      {
        assert pubkeys[..i + 1] == pubkeys[..i] + [pubkeys[i]];
        if pubkeys[i] in subs {
          subs := subs - {pubkeys[i]};
        }
        i := i + 1;
      }
      assert pubkeys[..i] == pubkeys;
    }

    method HandleSubscription(pubkey: Pubkey, hungUp: bool)
      requires Valid(Abs())
      modifies this
      ensures Abs() == Step(cfg, old(Abs()), Subscribe(pubkey, hungUp))
    {
      channels := channels + [Channel([], 0, hungUp)];
      if pubkey !in subs {
        metrics := metrics.(added := metrics.added + 1);
      }
      subs := subs[pubkey := |channels| - 1];
    }

    method HandleHeartbeatTick(health: HealthManager.HealthState, order: seq<Pubkey>, moves: seq<seq<EnvMove>>)
      requires Valid(Abs()) && Enumerates(order, subs.Keys)
      modifies this
      ensures Abs() == Step(cfg, old(Abs()), HeartbeatTick(health, order, moves))
    {
      var toDrop := order;
      if health.Healthy? {
        toDrop := SendHeartbeats(Targets(subs, order), moves);
      }
      DropSubscriptions(toDrop);
    }

    method SendHeartbeats(targets: seq<Target>, moves: seq<seq<EnvMove>>) returns (failed: seq<Pubkey>)
      requires InRange(targets, |channels|)
      modifies this`channels, this`metrics
      ensures var fan := FanOut(old(channels), targets, Heartbeat(old(metrics).heartbeats), moves, false);
              && channels == fan.channels && failed == ClosedIn(fan.tries)
              && metrics == old(metrics).(heartbeats := old(metrics).heartbeats + 1,
                                          trySendFull := old(metrics).trySendFull + CountFull(fan.tries))
    {
      var full;
      failed, full := BeatAll(targets, Heartbeat(metrics.heartbeats), moves);
      metrics := metrics.(heartbeats := metrics.heartbeats + 1, trySendFull := metrics.trySendFull + full);
    }

    /** The pass over the subscribers: the keys found closed, and the number of full queues. */
    method BeatAll(targets: seq<Target>, beat: Message, moves: seq<seq<EnvMove>>) returns (failed: seq<Pubkey>, full: nat)
      requires InRange(targets, |channels|)
      modifies this`channels
      ensures var fan := FanOut(old(channels), targets, beat, moves, false);
              channels == fan.channels && failed == ClosedIn(fan.tries) && full == CountFull(fan.tries)
    {
      ghost var all := FanOut(channels, targets, beat, moves, false);
      ghost var done: seq<Try> := [];
      var rest := moves;
      failed, full := [], 0;
      SendingBeatsStart(channels, targets, beat, moves);
      for i := 0 to |targets|
        invariant |channels| == |old(channels)|
        invariant SendingBeats(all, done, channels, targets, i, beat, rest)
        invariant Gathered(done, failed, full)
      {
        var outcome;
        outcome, rest := BeatTarget(targets, i, beat, rest, all, done);
        GatheredTurn(done, Try(targets[i].pubkey, outcome), failed, full);
        done := done + [Try(targets[i].pubkey, outcome)];
        match outcome {
          case Delivered =>
          case Closed => failed := failed + [targets[i].pubkey];
          case Full => full := full + 1;
        }
      }
      SendingBeatsEnd(all, done, channels, targets, beat, rest, failed, full);
    }

    /** One turn of the heartbeat loop. */
    method BeatTarget(targets: seq<Target>, i: nat, beat: Message, moves: seq<seq<EnvMove>>, ghost all: Fan, ghost done: seq<Try>)
      returns (outcome: Outcome, rest: seq<seq<EnvMove>>)
      requires i < |targets| && SendingBeats(all, done, channels, targets, i, beat, moves)
      modifies this`channels
      ensures |channels| == |old(channels)|
      ensures SendingBeats(all, done + [Try(targets[i].pubkey, outcome)], channels, targets, i + 1, beat, rest)
    {
      ghost var before := channels;
      outcome, rest := TrySend(targets[i].chan, beat, moves);
      SendingBeatsTurn(all, done, before, targets, i, beat, moves, channels, Try(targets[i].pubkey, outcome));
    }

    method ReportMetrics()
      requires Valid(Abs())
      modifies this`metrics
      ensures Abs() == Step(cfg, old(Abs()), MetricsTick)
    {
      metrics := NO_METRICS;
    }
  }

  /** `slice::chunks`. */
  method SplitIntoChunks(packets: seq<ProtoPacket>, size: nat) returns (chunks: seq<seq<ProtoPacket>>)
    requires size > 0
    ensures chunks == Chunks(packets, size)
  {
    chunks := [];
    var at := 0;
    while at < |packets|
      invariant 0 <= at <= |packets|
      invariant chunks + Chunks(packets[at..], size) == Chunks(packets, size)
    {
      var end := if at + size <= |packets| then at + size else |packets|;
      var left := packets[at..];
      assert |left| <= size ==> left == packets[at..end] && packets[end..] == [];
      assert |left| > size ==> left[..size] == packets[at..end] && left[size..] == packets[end..];
      assert Chunks(left, size) == [packets[at..end]] + Chunks(packets[end..], size);
      chunks := chunks + [packets[at..end]];
      at := end;
    }
  }
}
