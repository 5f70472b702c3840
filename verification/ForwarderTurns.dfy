/** The loop of one forwarder thread as steps of the machine of all threads
    (transaction-relayer/src/forwarder.rs). */
module ForwarderTurns {
  import opened Common
  import opened ForwarderThreads
  import F = Forwarder

  /** Between two turns of the loop the thread holds what is in its buffer, and stamps lie
      in the past. */
  ghost predicate Matches(s: State, t: nat, buffer: seq<F.Stamped>) {
    && t < |s.threads| && t < |s.poppedAt|
    && s.threads[t].taking.None? && s.threads[t].sending.None? && |s.threads[t].buffer| == |buffer|
    && forall i :: 0 <= i < |buffer| ==> s.threads[t].buffer[i].stamp == buffer[i].stamp <= s.clock
  }

  /** Steps taken from a state on. */
  function After(delay: Time, s: State, steps: seq<Event>): State {
    if steps == [] then s else Step(delay, After(delay, s, steps[..|steps| - 1]), steps[|steps| - 1])
  }

  lemma AfterTwo(delay: Time, s: State, steps: seq<Event>, e: Event, f: Event)
    ensures After(delay, s, steps + [e, f]) == Step(delay, Step(delay, After(delay, s, steps), e), f)
  {
    var all := steps + [e, f];
    assert all[..|all| - 1] == steps + [e];
    assert (steps + [e])[..|steps|] == steps;
  }

  lemma {:induction false} ReachedAfter(delay: Time, n: nat, run: seq<Event>, steps: seq<Event>)
    ensures After(delay, Exec(delay, n, run), steps) == Exec(delay, n, run + steps)
  {
    if steps == [] {
      assert run + steps == run;
    } else {
      var k := |steps| - 1;
      ReachedAfter(delay, n, run, steps[..k]);
      assert (run + steps)[..|run + steps| - 1] == run + steps[..k];
    }
  }

  /** Receiving a batch: taken from the receiver, then stamped. */
  lemma ReceiveIsTakeAndStamp(delay: Time, s: State, t: nat, buffer: seq<F.Stamped>, next: F.Stamped)
    requires Matches(s, t, buffer) && |s.takers| < s.arrived && s.clock <= next.stamp
    ensures var s' := After(delay, s, [Take(t), Stamp(t, next.stamp)]);
            && Matches(s', t, buffer + [next]) && s'.output == s.output && s'.takers == s.takers + [t]
            && s'.threads[t].buffer == s.threads[t].buffer + [Item(|s.takers|, next.stamp)]
  {
    AfterTwo(delay, s, [], Take(t), Stamp(t, next.stamp));
    assert [] + [Take(t), Stamp(t, next.stamp)] == [Take(t), Stamp(t, next.stamp)];
  }

  /** The front batch is popped at the reading made for it and sent, `n` times. */
  function Turns(t: nat, clock: seq<Time>, n: nat): seq<Event>
    requires n <= |clock|
  {
    if n == 0 then [] else Turns(t, clock, n - 1) + [Pop(t, clock[n - 1]), Send(t)]
  }

  function Released(t: nat, items: seq<Item>, clock: seq<Time>, n: nat): seq<Output>
    requires n <= |items| && n <= |clock|
  {
    seq(n, i requires 0 <= i < n => Output(t, items[i], clock[i]))
  }

  /** After `k` turns of a drain that began in `s`. */
  ghost predicate Drained(delay: Time, s: State, t: nat, buffer: seq<F.Stamped>, clock: seq<Time>, k: nat) {
    && k <= |buffer| <= |clock| && Matches(s, t, buffer)
    && var s' := After(delay, s, Turns(t, clock, k));
       && Matches(s', t, buffer[k..]) && s'.threads[t].buffer == s.threads[t].buffer[k..]
       && s'.output == s.output + Released(t, s.threads[t].buffer, clock, k)
       && s'.clock == if k == 0 then s.clock else clock[k - 1]
  }

  lemma PopAndSend(delay: Time, s: State, t: nat, buffer: seq<F.Stamped>, at: Time)
    requires Matches(s, t, buffer) && buffer != [] && PopEnabled(delay, s, t, at)
    ensures var s' := Step(delay, Step(delay, s, Pop(t, at)), Send(t));
            && Matches(s', t, buffer[1..]) && s'.threads[t].buffer == s.threads[t].buffer[1..]
            && s'.output == s.output + [Output(t, s.threads[t].buffer[0], at)] && s'.clock == at
  {
  }

  lemma OneTurn(delay: Time, s: State, t: nat, buffer: seq<F.Stamped>, clock: seq<Time>, k: nat)
    requires Drained(delay, s, t, buffer, clock, k) && k < |buffer| && F.ClockOrdered(clock) && s.clock <= clock[0]
    requires PopEnabled(delay, After(delay, s, Turns(t, clock, k)), t, clock[k])
    ensures Drained(delay, s, t, buffer, clock, k + 1)
  {
    var now, items := After(delay, s, Turns(t, clock, k)), s.threads[t].buffer;
    PopAndSend(delay, now, t, buffer[k..], clock[k]);
    AfterTwo(delay, s, Turns(t, clock, k), Pop(t, clock[k]), Send(t));
    assert items[k..][1..] == items[k + 1..] && buffer[k..][1..] == buffer[k + 1..];
    assert Released(t, items, clock, k + 1) == Released(t, items, clock, k) + [Output(t, items[k], clock[k])];
  }

  /** A drain is one enabled pop after the other, each followed by its send; the pop it
      leaves out is not enabled. */
  lemma {:induction false} DrainIsPops(delay: Time, s: State, t: nat, buffer: seq<F.Stamped>, clock: seq<Time>, k: nat)
    requires Matches(s, t, buffer) && |clock| >= |buffer| && F.ClockOrdered(clock) && (clock != [] ==> s.clock <= clock[0])
    requires k <= F.DrainCount(delay, buffer, clock)
    ensures Drained(delay, s, t, buffer, clock, k)
    ensures k < |buffer| ==> (PopEnabled(delay, After(delay, s, Turns(t, clock, k)), t, clock[k]) <==> k < F.DrainCount(delay, buffer, clock))
  {
    F.DrainMeaning(delay, buffer, clock);
    if k == 0 {
      assert buffer[0..] == buffer && s.threads[t].buffer[0..] == s.threads[t].buffer && s.output + [] == s.output;
    } else {
      DrainIsPops(delay, s, t, buffer, clock, k - 1);
      NextPop(delay, s, t, buffer, clock, k - 1);
      OneTurn(delay, s, t, buffer, clock, k - 1);
    }
    if k < |buffer| {
      NextPop(delay, s, t, buffer, clock, k);
    }
  }

  lemma NextPop(delay: Time, s: State, t: nat, buffer: seq<F.Stamped>, clock: seq<Time>, k: nat)
    requires Drained(delay, s, t, buffer, clock, k) && k < |buffer| && F.ClockOrdered(clock) && s.clock <= clock[0]
    requires k <= F.DrainCount(delay, buffer, clock)
    ensures PopEnabled(delay, After(delay, s, Turns(t, clock, k)), t, clock[k]) <==> k < F.DrainCount(delay, buffer, clock)
  {
    F.DrainMeaning(delay, buffer, clock);
    var now := After(delay, s, Turns(t, clock, k));
    assert now.threads[t].buffer[0] == s.threads[t].buffer[k];
    assert k > 0 ==> clock[k - 1] <= clock[k];
    assert s.clock <= clock[0] <= clock[k];
  }
}
