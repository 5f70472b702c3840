/** Any number of forwarder threads on one receiver (transaction-relayer/src/forwarder.rs).

    Receiving, stamping, popping and sending are separate steps, so threads interleave
    between them. A batch is known by its position in the input. A send that blocks on a
    full channel is a run in which the send has not happened yet. */
module ForwarderThreads {
  import opened Common

  datatype Item = Item(id: nat, stamp: Time)

  /** A thread's hands: a batch received but not yet stamped, the buffer, and a batch
      popped but not yet sent. */
  datatype Thread = Thread(taking: Option<nat>, buffer: seq<Item>, sending: Option<Item>)

  /** A batch on the output: who sent it, and the clock reading that released it. */
  datatype Output = Output(thread: nat, item: Item, releasedAt: Time)

  /** `takers[i]` is the thread that received batch `i`; `poppedAt[t]` the clock reading
      that released what thread `t` is sending. */
  datatype State = State(
    arrived: nat, takers: seq<nat>, threads: seq<Thread>, poppedAt: seq<Time>, output: seq<Output>, clock: Time)

  datatype Event = Arrive | Take(thread: nat) | Stamp(thread: nat, at: Time) | Pop(thread: nat, at: Time) | Send(thread: nat)

  const IDLE := Thread(None, [], None)

  function Init(n: nat): State {
    State(0, [], seq(n, _ => IDLE), seq(n, _ => 0), [], 0)
  }

  ghost predicate Shaped(n: nat, s: State) {
    |s.threads| == |s.poppedAt| == n
  }

  predicate TakeEnabled(s: State, t: nat) {
    t < |s.threads| && s.threads[t].taking.None? && s.threads[t].sending.None? && |s.takers| < s.arrived
  }

  predicate StampEnabled(s: State, t: nat, at: Time) {
    t < |s.threads| && s.threads[t].taking.Some? && s.clock <= at
  }

  /** The front of the buffer, and only the front, is compared with the delay. */
  predicate PopEnabled(delay: Time, s: State, t: nat, at: Time) {
    && t < |s.threads| && t < |s.poppedAt| && s.clock <= at
    && s.threads[t].taking.None? && s.threads[t].sending.None? && |s.threads[t].buffer| > 0
    && s.threads[t].buffer[0].stamp + delay <= at
  }

  predicate SendEnabled(s: State, t: nat) {
    t < |s.threads| && t < |s.poppedAt| && s.threads[t].sending.Some?
  }

  /** One step; a step that is not enabled leaves the state alone. */
  function Step(delay: Time, s: State, e: Event): State {
    match e
    case Arrive => s.(arrived := s.arrived + 1)
    case Take(t) => if TakeEnabled(s, t) then TakeStep(s, t) else s
    case Stamp(t, at) => if StampEnabled(s, t, at) then StampStep(s, t, at) else s
    case Pop(t, at) => if PopEnabled(delay, s, t, at) then PopStep(s, t, at) else s
    case Send(t) => if SendEnabled(s, t) then SendStep(s, t) else s
  }

  function TakeStep(s: State, t: nat): State
    requires t < |s.threads|
  {
    s.(takers := s.takers + [t], threads := s.threads[t := s.threads[t].(taking := Some(|s.takers|))])
  }

  function StampStep(s: State, t: nat, at: Time): State
    requires t < |s.threads| && s.threads[t].taking.Some?
  {
    var me := s.threads[t];
    s.(threads := s.threads[t := me.(taking := None, buffer := me.buffer + [Item(me.taking.value, at)])], clock := at)
  }

  function PopStep(s: State, t: nat, at: Time): State
    requires t < |s.threads| && t < |s.poppedAt| && |s.threads[t].buffer| > 0
  {
    var me := s.threads[t];
    s.(threads := s.threads[t := me.(buffer := me.buffer[1..], sending := Some(me.buffer[0]))],
       poppedAt := s.poppedAt[t := at],
       clock := at)
  }

  function SendStep(s: State, t: nat): State
    requires t < |s.threads| && t < |s.poppedAt| && s.threads[t].sending.Some?
  {
    var me := s.threads[t];
    s.(threads := s.threads[t := me.(sending := None)], output := s.output + [Output(t, me.sending.value, s.poppedAt[t])])
  }

  function Exec(delay: Time, n: nat, run: seq<Event>): State {
    if run == [] then Init(n) else Step(delay, Exec(delay, n, run[..|run| - 1]), run[|run| - 1])
  }

  // ---------- views of a state ----------

  function Ids(items: seq<Item>): seq<nat> {
    seq(|items|, i requires 0 <= i < |items| => items[i].id)
  }

  /** Everything a thread has received and not sent, oldest first. */
  function Held(t: Thread): seq<nat> {
    (if t.sending.Some? then [t.sending.value.id] else [])
    + Ids(t.buffer)
    + (if t.taking.Some? then [t.taking.value] else [])
  }

  /** The batches thread `t` received, in the order received. */
  function ReceivedBy(takers: seq<nat>, t: nat): seq<nat> {
    if takers == [] then []
    else
      var n := |takers| - 1;
      ReceivedBy(takers[..n], t) + if takers[n] == t then [n] else []
  }

  /** The batches thread `t` sent, in the order sent. */
  function SentBy(output: seq<Output>, t: nat): seq<nat> {
    if output == [] then []
    else
      var n := |output| - 1;
      SentBy(output[..n], t) + if output[n].thread == t then [output[n].item.id] else []
  }

  function Sum(counts: seq<nat>): nat {
    if counts == [] then 0 else Sum(counts[..|counts| - 1]) + counts[|counts| - 1]
  }

  function Count(ids: seq<nat>, id: nat): nat {
    if ids == [] then 0 else Count(ids[..|ids| - 1], id) + if ids[|ids| - 1] == id then 1 else 0
  }

  /** How often a thread holds batch `id`. */
  function InHand(t: Thread, id: nat): nat {
    Count(Held(t), id)
  }

  function InHands(threads: seq<Thread>, id: nat): seq<nat> {
    seq(|threads|, i requires 0 <= i < |threads| => InHand(threads[i], id))
  }

  function HeldByAll(threads: seq<Thread>, id: nat): nat {
    Sum(InHands(threads, id))
  }

  function Sent(output: seq<Output>, id: nat): nat {
    Count(OutputIds(output), id)
  }

  /** How often batch `id` is on the output or in the hands of any thread. */
  function Copies(s: State, id: nat): nat {
    Sent(s.output, id) + HeldByAll(s.threads, id)
  }

  function OutputIds(output: seq<Output>): seq<nat> {
    seq(|output|, i requires 0 <= i < |output| => output[i].item.id)
  }

  /** The first `n` batches, in input order. */
  function Upto(n: nat): seq<nat> {
    seq(n, i => i)
  }

  // ---------- order of each thread ----------

  ghost predicate ThreadInOrder(s: State, t: nat)
    requires t < |s.threads|
  {
    ReceivedBy(s.takers, t) == SentBy(s.output, t) + Held(s.threads[t])
  }

  lemma TakeKeepsOrder(s: State, u: nat, t: nat)
    requires TakeEnabled(s, u) && t < |s.threads| && ThreadInOrder(s, t)
    ensures ThreadInOrder(TakeStep(s, u), t)
  {
    assert (s.takers + [u])[..|s.takers|] == s.takers;
    if t == u {
      assert Held(TakeStep(s, u).threads[t]) == Held(s.threads[t]) + [|s.takers|];
    }
  }

  lemma StampKeepsOrder(s: State, u: nat, at: Time, t: nat)
    requires StampEnabled(s, u, at) && t < |s.threads| && ThreadInOrder(s, t)
    ensures ThreadInOrder(StampStep(s, u, at), t)
  {
    if t == u {
      StampKeepsHeld(s.threads[t], at);
    }
  }

  lemma StampKeepsHeld(me: Thread, at: Time)
    requires me.taking.Some?
    ensures Held(me.(taking := None, buffer := me.buffer + [Item(me.taking.value, at)])) == Held(me)
  {
    assert Ids(me.buffer + [Item(me.taking.value, at)]) == Ids(me.buffer) + [me.taking.value];
  }

  lemma PopKeepsHeld(me: Thread)
    requires me.sending.None? && |me.buffer| > 0
    ensures Held(me.(buffer := me.buffer[1..], sending := Some(me.buffer[0]))) == Held(me)
  {
    assert Ids(me.buffer) == [me.buffer[0].id] + Ids(me.buffer[1..]);
  }

  lemma SendKeepsOrder(s: State, u: nat, t: nat)
    requires SendEnabled(s, u) && t < |s.threads| && ThreadInOrder(s, t)
    ensures ThreadInOrder(SendStep(s, u), t)
  {
    var me := s.threads[u];
    SentAppend(s.output, Output(u, me.sending.value, s.poppedAt[u]), t);
    if t == u {
      SendKeepsHeld(me);
      Regroup(SentBy(s.output, t), [me.sending.value.id], Held(me.(sending := None)));
    }
  }

  lemma SendKeepsHeld(me: Thread)
    requires me.sending.Some?
    ensures Held(me) == [me.sending.value.id] + Held(me.(sending := None))
  {
  }

  lemma Regroup(a: seq<nat>, b: seq<nat>, c: seq<nat>)
    ensures a + (b + c) == a + b + c
  {
  }

  lemma SentAppend(output: seq<Output>, o: Output, t: nat)
    ensures SentBy(output + [o], t) == SentBy(output, t) + if o.thread == t then [o.item.id] else []
  {
    assert (output + [o])[..|output|] == output;
  }

  lemma StepKeepsOrder(delay: Time, s: State, e: Event, t: nat)
    requires t < |s.threads| && ThreadInOrder(s, t)
    ensures t < |Step(delay, s, e).threads| && ThreadInOrder(Step(delay, s, e), t)
  {
    match e {
      case Arrive =>
      case Take(u) => if TakeEnabled(s, u) { TakeKeepsOrder(s, u, t); }
      case Stamp(u, at) => if StampEnabled(s, u, at) { StampKeepsOrder(s, u, at, t); }
      case Pop(u, at) => if PopEnabled(delay, s, u, at) && t == u { PopKeepsHeld(s.threads[t]); }
      case Send(u) => if SendEnabled(s, u) { SendKeepsOrder(s, u, t); }
    }
  }

  /** Each thread's output, then what it holds, is exactly what it received, in order:
      nothing is lost, repeated or overtaken within a thread. */
  lemma {:induction false} EachThreadKeepsOrder(delay: Time, n: nat, run: seq<Event>, t: nat)
    requires t < n
    ensures |Exec(delay, n, run).threads| == n && ThreadInOrder(Exec(delay, n, run), t)
  {
    if run != [] {
      EachThreadKeepsOrder(delay, n, run[..|run| - 1], t);
      StepKeepsOrder(delay, Exec(delay, n, run[..|run| - 1]), run[|run| - 1], t);
    }
  }

  // ---------- conservation over all threads ----------

  lemma {:induction false} SumAfterUpdate(counts: seq<nat>, t: nat, c: nat)
    requires t < |counts|
    ensures Sum(counts[t := c]) == Sum(counts) - counts[t] + c
  {
    var n := |counts| - 1;
    if t == n {
      assert counts[t := c][..n] == counts[..n];
    } else {
      SumAfterUpdate(counts[..n], t, c);
      assert counts[t := c][..n] == counts[..n][t := c];
    }
  }

  lemma HeldAfterUpdate(threads: seq<Thread>, t: nat, me: Thread, id: nat)
    requires t < |threads|
    ensures HeldByAll(threads[t := me], id) == HeldByAll(threads, id) - InHand(threads[t], id) + InHand(me, id)
  {
    assert InHands(threads[t := me], id) == InHands(threads, id)[t := InHand(me, id)];
    SumAfterUpdate(InHands(threads, id), t, InHand(me, id));
  }

  lemma CountAppend(ids: seq<nat>, x: nat, id: nat)
    ensures Count(ids + [x], id) == Count(ids, id) + if x == id then 1 else 0
  {
    assert (ids + [x])[..|ids|] == ids;
  }

  lemma {:induction false} CountPrepend(x: nat, ids: seq<nat>, id: nat)
    ensures Count([x] + ids, id) == Count(ids, id) + if x == id then 1 else 0
  {
    if ids == [] {
      CountAppend([], x, id);
      assert [x] + ids == [] + [x];
    } else {
      var n := |ids| - 1;
      CountPrepend(x, ids[..n], id);
      CountAppend([x] + ids[..n], ids[n], id);
      assert [x] + ids == [x] + ids[..n] + [ids[n]];
    }
  }

  lemma TakeCopies(s: State, t: nat, id: nat)
    requires TakeEnabled(s, t)
    ensures Copies(TakeStep(s, t), id) == Copies(s, id) + if id == |s.takers| then 1 else 0
  {
    var me := s.threads[t].(taking := Some(|s.takers|));
    HeldAfterUpdate(s.threads, t, me, id);
    assert Held(me) == Held(s.threads[t]) + [|s.takers|];
    CountAppend(Held(s.threads[t]), |s.takers|, id);
  }

  lemma SendCopies(s: State, t: nat, id: nat)
    requires SendEnabled(s, t)
    ensures Copies(SendStep(s, t), id) == Copies(s, id)
  {
    var me := s.threads[t];
    var next := me.(sending := None);
    HeldAfterUpdate(s.threads, t, next, id);
    SendKeepsHeld(me);
    CountPrepend(me.sending.value.id, Held(next), id);
    assert OutputIds(SendStep(s, t).output) == OutputIds(s.output) + [me.sending.value.id];
    CountAppend(OutputIds(s.output), me.sending.value.id, id);
  }

  lemma StepCopies(delay: Time, s: State, e: Event, id: nat)
    requires Copies(s, id) == if id < |s.takers| then 1 else 0
    ensures Copies(Step(delay, s, e), id) == if id < |Step(delay, s, e).takers| then 1 else 0
  {
    match e {
      case Arrive =>
      case Take(t) => if TakeEnabled(s, t) { TakeCopies(s, t, id); }
      case Stamp(t, at) =>
        if StampEnabled(s, t, at) {
          StampKeepsHeld(s.threads[t], at);
          HeldAfterUpdate(s.threads, t, StampStep(s, t, at).threads[t], id);
        }
      case Pop(t, at) =>
        if PopEnabled(delay, s, t, at) {
          PopKeepsHeld(s.threads[t]);
          HeldAfterUpdate(s.threads, t, PopStep(s, t, at).threads[t], id);
        }
      case Send(t) => if SendEnabled(s, t) { SendCopies(s, t, id); }
    }
  }

  lemma {:induction false} SumOfZeros(counts: seq<nat>)
    requires forall i :: 0 <= i < |counts| ==> counts[i] == 0
    ensures Sum(counts) == 0
  {
    if counts != [] {
      SumOfZeros(counts[..|counts| - 1]);
    }
  }

  /** Outputs and what the threads hold are together a permutation of the batches
      received so far, whatever the number of threads: every received batch is in
      exactly one place, once. */
  lemma {:induction false} EveryBatchInOnePlace(delay: Time, n: nat, run: seq<Event>, id: nat)
    ensures Copies(Exec(delay, n, run), id) == if id < |Exec(delay, n, run).takers| then 1 else 0
  {
    if run == [] {
      NothingInHand(Init(n), id);
    } else {
      EveryBatchInOnePlace(delay, n, run[..|run| - 1], id);
      StepCopies(delay, Exec(delay, n, run[..|run| - 1]), run[|run| - 1], id);
    }
  }

  lemma {:induction false} CountIsMultiplicity(ids: seq<nat>, id: nat)
    ensures Count(ids, id) == multiset(ids)[id]
  {
    if ids != [] {
      var n := |ids| - 1;
      CountIsMultiplicity(ids[..n], id);
      assert ids == ids[..n] + [ids[n]];
    }
  }

  lemma {:induction false} UptoCounts(n: nat, id: nat)
    ensures Count(Upto(n), id) == if id < n then 1 else 0
  {
    if n > 0 {
      UptoCounts(n - 1, id);
      assert Upto(n)[..n - 1] == Upto(n - 1);
    }
  }

  ghost predicate EmptyHanded(s: State) {
    forall t :: 0 <= t < |s.threads| ==> Held(s.threads[t]) == []
  }

  /** Once the threads hold nothing, the output is a permutation of the received batches. */
  lemma EmptyHandedOutputIsAPermutation(delay: Time, n: nat, run: seq<Event>)
    requires EmptyHanded(Exec(delay, n, run))
    ensures multiset(OutputIds(Exec(delay, n, run).output)) == multiset(Upto(|Exec(delay, n, run).takers|))
  {
    var s := Exec(delay, n, run);
    var out: seq<nat>, all: seq<nat> := OutputIds(s.output), Upto(|s.takers|);
    var sent: multiset<nat>, received: multiset<nat> := multiset(out), multiset(all);
    forall id: nat ensures sent[id] == received[id] {
      EveryBatchInOnePlace(delay, n, run, id);
      NothingInHand(s, id);
      UptoCounts(|s.takers|, id);
      CountIsMultiplicity(out, id);
      CountIsMultiplicity(all, id);
    }
  }

  lemma NothingInHand(s: State, id: nat)
    requires EmptyHanded(s)
    ensures HeldByAll(s.threads, id) == 0
  {
    forall i | 0 <= i < |s.threads| ensures InHands(s.threads, id)[i] == 0 {
      assert Held(s.threads[i]) == [];
    }
    SumOfZeros(InHands(s.threads, id));
  }

  // ---------- one thread keeps the full order ----------

  lemma {:induction false} OnlyTaker(takers: seq<nat>)
    requires forall i :: 0 <= i < |takers| ==> takers[i] == 0
    ensures ReceivedBy(takers, 0) == Upto(|takers|)
  {
    if takers != [] {
      OnlyTaker(takers[..|takers| - 1]);
    }
  }

  lemma {:induction false} OnlySender(output: seq<Output>)
    requires forall i :: 0 <= i < |output| ==> output[i].thread == 0
    ensures SentBy(output, 0) == OutputIds(output)
  {
    if output != [] {
      OnlySender(output[..|output| - 1]);
    }
  }

  ghost predicate ThreadsExist(n: nat, s: State) {
    && |s.threads| == n
    && (forall i :: 0 <= i < |s.takers| ==> s.takers[i] < n)
    && (forall i :: 0 <= i < |s.output| ==> s.output[i].thread < n)
  }

  lemma {:induction false} OnlyExistingThreads(delay: Time, n: nat, run: seq<Event>)
    ensures ThreadsExist(n, Exec(delay, n, run))
  {
    if run != [] {
      OnlyExistingThreads(delay, n, run[..|run| - 1]);
    }
  }

  ghost predicate InInputOrder(s: State) {
    forall i, j :: 0 <= i < j < |s.output| ==> s.output[i].item.id < s.output[j].item.id
  }

  /** The deployed configuration runs one thread: its output is exactly the start of the
      input, in order, and the rest is in its hands. */
  lemma OneThreadKeepsInputOrder(delay: Time, run: seq<Event>)
    ensures var s := Exec(delay, 1, run);
            |s.threads| == 1 && OutputIds(s.output) + Held(s.threads[0]) == Upto(|s.takers|) && InInputOrder(s)
  {
    EachThreadKeepsOrder(delay, 1, run, 0);
    OnlyExistingThreads(delay, 1, run);
    var s := Exec(delay, 1, run);
    OnlyTaker(s.takers);
    OnlySender(s.output);
    assert OutputIds(s.output) + Held(s.threads[0]) == Upto(|s.takers|);
    forall i, j | 0 <= i < j < |s.output| ensures s.output[i].item.id < s.output[j].item.id {
      assert (OutputIds(s.output) + Held(s.threads[0]))[i] == s.output[i].item.id;
      assert (OutputIds(s.output) + Held(s.threads[0]))[j] == s.output[j].item.id;
      assert Upto(|s.takers|)[i] == i && Upto(|s.takers|)[j] == j;
    }
  }

  ghost predicate Reachable(delay: Time, n: nat, s: State) {
    exists run :: Exec(delay, n, run) == s
  }

  lemma After(delay: Time, n: nat, s: State, e: Event) returns (next: State)
    requires Reachable(delay, n, s)
    ensures next == Step(delay, s, e) && Reachable(delay, n, next)
  {
    var run :| Exec(delay, n, run) == s;
    assert (run + [e])[..|run|] == run;
    assert Exec(delay, n, run + [e]) == Step(delay, s, e);
    next := Step(delay, s, e);
  }

  /** Two batches are received, one by each of two threads. */
  lemma TwoTakers(delay: Time, n: nat) returns (s: State)
    requires n >= 2
    ensures Reachable(delay, n, s) && |s.threads| == |s.poppedAt| == n && s.output == [] && s.clock == 0
    ensures s.threads[0] == Thread(Some(0), [], None) && s.threads[1] == Thread(Some(1), [], None)
  {
    s := Init(n);
    assert Exec(delay, n, []) == s;
    s := After(delay, n, s, Arrive);
    s := After(delay, n, s, Arrive);
    s := After(delay, n, s, Take(0));
    s := After(delay, n, s, Take(1));
  }

  /** A thread with a batch in hand stamps, releases and sends it while the other waits. */
  lemma PassOn(delay: Time, n: nat, s: State, t: nat, id: nat) returns (next: State)
    requires Reachable(delay, n, s) && t < |s.threads| == |s.poppedAt|
    requires s.threads[t] == Thread(Some(id), [], None)
    ensures Reachable(delay, n, next) && |next.threads| == |next.poppedAt| == |s.threads|
    ensures OutputIds(next.output) == OutputIds(s.output) + [id]
    ensures forall u :: 0 <= u < |s.threads| && u != t ==> next.threads[u] == s.threads[u]
  {
    var stamped := After(delay, n, s, Stamp(t, s.clock));
    assert stamped.threads[t] == Thread(None, [Item(id, s.clock)], None);
    var popped := After(delay, n, stamped, Pop(t, s.clock + delay));
    assert popped.threads[t].sending == Some(Item(id, s.clock));
    next := After(delay, n, popped, Send(t));
  }

  /** With a second thread the output can leave the input order. */
  lemma TwoThreadsCanReorder(delay: Time, n: nat) returns (s: State)
    requires n >= 2
    ensures Reachable(delay, n, s) && !InInputOrder(s)
  {
    var first := TwoTakers(delay, n);
    var second := PassOn(delay, n, first, 1, 1);
    s := PassOn(delay, n, second, 0, 0);
    assert OutputIds(s.output) == [1, 0];
    assert s.output[0].item.id == OutputIds(s.output)[0] && s.output[1].item.id == OutputIds(s.output)[1];
  }

  /** So the input order is kept in every run exactly when there is at most one thread. */
  lemma InputOrderKeptExactly(delay: Time, n: nat)
    ensures (forall s :: Reachable(delay, n, s) ==> InInputOrder(s)) <==> n <= 1
  {
    if n >= 2 {
      var s := TwoThreadsCanReorder(delay, n);
    } else {
      forall s | Reachable(delay, n, s) ensures InInputOrder(s) {
        var run :| Exec(delay, n, run) == s;
        if n == 1 {
          OneThreadKeepsInputOrder(delay, run);
        } else {
          OnlyExistingThreads(delay, n, run);
        }
      }
    }
  }

  // ---------- the delay ----------

  ghost predicate BufferTimed(buffer: seq<Item>, clock: Time) {
    && (forall i :: 0 <= i < |buffer| ==> buffer[i].stamp <= clock)
    && (forall i, j :: 0 <= i < j < |buffer| ==> buffer[i].stamp <= buffer[j].stamp)
  }

  ghost predicate OutputTimed(delay: Time, o: Output, clock: Time) {
    o.item.stamp + delay <= o.releasedAt <= clock
  }

  ghost predicate Timed(delay: Time, n: nat, s: State) {
    && Shaped(n, s)
    && (forall t :: 0 <= t < n ==> BufferTimed(s.threads[t].buffer, s.clock))
    && (forall t :: 0 <= t < n && s.threads[t].sending.Some? ==>
          OutputTimed(delay, Output(t, s.threads[t].sending.value, s.poppedAt[t]), s.clock))
    && (forall i :: 0 <= i < |s.output| ==> OutputTimed(delay, s.output[i], s.clock))
  }

  lemma StampTimed(delay: Time, n: nat, s: State, t: nat, at: Time)
    requires Timed(delay, n, s) && StampEnabled(s, t, at)
    ensures Timed(delay, n, StampStep(s, t, at))
  {
  }

  lemma PopTimed(delay: Time, n: nat, s: State, t: nat, at: Time)
    requires Timed(delay, n, s) && PopEnabled(delay, s, t, at)
    ensures Timed(delay, n, PopStep(s, t, at))
  {
  }

  lemma SendTimed(delay: Time, n: nat, s: State, t: nat)
    requires Timed(delay, n, s) && SendEnabled(s, t)
    ensures Timed(delay, n, SendStep(s, t))
  {
  }

  lemma StepTimed(delay: Time, n: nat, s: State, e: Event)
    requires Timed(delay, n, s)
    ensures Timed(delay, n, Step(delay, s, e))
  {
    match e {
      case Arrive =>
      case Take(t) =>
      case Stamp(t, at) => if StampEnabled(s, t, at) { StampTimed(delay, n, s, t, at); }
      case Pop(t, at) => if PopEnabled(delay, s, t, at) { PopTimed(delay, n, s, t, at); }
      case Send(t) => if SendEnabled(s, t) { SendTimed(delay, n, s, t); }
    }
  }

  /** Every thread's stamps are non-decreasing, and nothing is released before its age
      reaches the delay. */
  lemma {:induction false} NothingReleasedEarly(delay: Time, n: nat, run: seq<Event>)
    ensures Timed(delay, n, Exec(delay, n, run))
  {
    if run != [] {
      NothingReleasedEarly(delay, n, run[..|run| - 1]);
      StepTimed(delay, n, Exec(delay, n, run[..|run| - 1]), run[|run| - 1]);
    }
  }
}
