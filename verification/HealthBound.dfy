/** How fast missing slots disconnect everyone: the health monitor's checks and the
    relayer's heartbeat ticks on one clock. */
module HealthBound {
  import opened Common
  import HM = HealthManager
  import RL = Relayer
  import RelayerRuns

  const HEARTBEAT_PERIOD: Time := 500 * MILLISECOND

  datatype Setup = Setup(threshold: Time, start: Time, relayerStart: Time, relayer: RL.Config)

  datatype State = State(hm: HM.State, relayer: RL.State)

  /** A heartbeat tick reads the health state of the moment. */
  datatype Event =
    | Monitor(e: HM.Event)
    | Beat(at: Time, order: seq<nat>, moves: seq<seq<RL.EnvMove>>)
    | Turn(at: Time, turn: RL.Event)

  function TimeOf(e: Event): Time {
    match e case Monitor(m) => m.at case Beat(at, _, _) => at case Turn(at, _) => at
  }

  ghost function Step(c: Setup, s: State, e: Event): (s': State)
    requires RL.Valid(s.relayer)
    ensures RL.Valid(s'.relayer)
  {
    match e
    case Monitor(m) => s.(hm := HM.Step(c.threshold, s.hm, m))
    case Beat(_, order, moves) => s.(relayer := RL.Step(c.relayer, s.relayer, RL.HeartbeatTick(s.hm.health, order, moves)))
    case Turn(_, t) => if t.HeartbeatTick? then s else s.(relayer := RL.Step(c.relayer, s.relayer, t))
  }

  ghost function Exec(c: Setup, run: seq<Event>): (s: State)
    ensures RL.Valid(s.relayer)
  {
    if run == [] then State(HM.Init(c.start), RL.INIT) else Step(c, Exec(c, run[..|run| - 1]), run[|run| - 1])
  }

  ghost predicate Ordered(c: Setup, run: seq<Event>) {
    && (forall i :: 0 <= i < |run| ==> c.start <= TimeOf(run[i]))
    && (forall i, j :: 0 <= i < j < |run| ==> TimeOf(run[i]) <= TimeOf(run[j]))
  }

  /** The monitor's part of a run. */
  function Monitored(run: seq<Event>): seq<HM.Event> {
    if run == [] then []
    else
      var last := run[|run| - 1];
      Monitored(run[..|run| - 1]) + (if last.Monitor? then [last.e] else [])
  }

  lemma {:induction false} MonitoredMember(run: seq<Event>, m: HM.Event)
    ensures m in Monitored(run) <==> Monitor(m) in run
  {
    if run != [] {
      MonitoredMember(run[..|run| - 1], m);
      assert run == run[..|run| - 1] + [run[|run| - 1]];
    }
  }

  lemma {:induction false} MonitoredOrdered(c: Setup, run: seq<Event>)
    requires Ordered(c, run)
    ensures HM.Ordered(c.start, Monitored(run))
  {
    if run != [] {
      var n := |run| - 1;
      MonitoredOrdered(c, run[..n]);
      var before := Monitored(run[..n]);
      forall i | 0 <= i < |before| ensures before[i].at <= TimeOf(run[n]) {
        assert before[i] in before;
        MonitoredMember(run[..n], before[i]);
        var j :| 0 <= j < n && run[..n][j] == Monitor(before[i]);
        assert TimeOf(run[j]) <= TimeOf(run[n]);
      }
    }
  }

  lemma {:induction false} HealthIsMonitored(c: Setup, run: seq<Event>)
    ensures Exec(c, run).hm == HM.Exec(c.threshold, c.start, Monitored(run))
  {
    if run != [] {
      var n := |run| - 1;
      HealthIsMonitored(c, run[..n]);
      if run[n].Monitor? {
        var all := Monitored(run);
        assert all[..|all| - 1] == Monitored(run[..n]);
      } else {
        assert Monitored(run) == Monitored(run[..n]);
      }
    }
  }

  /** No slot is handled by the monitor after `t0`. */
  ghost predicate QuietAfter(run: seq<Event>, t0: Time) {
    forall i :: 0 <= i < |run| && run[i].Monitor? && run[i].e.SlotArrives? ==> run[i].e.at <= t0
  }

  ghost predicate ChecksOnTime(c: Setup, run: seq<Event>, horizon: Time) {
    forall k :: k >= 1 && HM.TickTime(c.start, c.threshold / 2, k) <= horizon
                ==> Monitor(HM.Check(HM.TickTime(c.start, c.threshold / 2, k))) in run
  }

  /** The heartbeat arm runs at position `i`, walking the map as it is then. */
  ghost predicate BeatsAt(c: Setup, run: seq<Event>, i: nat, at: Time) {
    && i < |run| && run[i].Beat? && run[i].at == at
    && Enumerates(run[i].order, Exec(c, run[..i]).relayer.subs.Keys)
  }

  ghost predicate BeatsOnTime(c: Setup, run: seq<Event>, horizon: Time) {
    forall k :: k >= 1 && HM.TickTime(c.relayerStart, HEARTBEAT_PERIOD, k) <= horizon
                ==> exists i: nat :: BeatsAt(c, run, i, HM.TickTime(c.relayerStart, HEARTBEAT_PERIOD, k))
  }

  lemma UnhealthyBefore(c: Setup, run: seq<Event>, t0: Time, u: Time, i: nat)
    requires c.threshold >= 2 && Ordered(c, run) && c.start <= t0 && QuietAfter(run, t0)
    requires u == t0 + c.threshold + c.threshold / 2 && ChecksOnTime(c, run, u)
    requires i < |run| && u < TimeOf(run[i])
    ensures Exec(c, run[..i]).hm.health == HM.Unhealthy
  {
    var prefix := run[..i];
    var seen := Monitored(prefix);
    MonitoredOrdered(c, prefix);
    HealthIsMonitored(c, prefix);
    forall k | k >= 1 && HM.TickTime(c.start, c.threshold / 2, k) <= u
      ensures HM.Check(HM.TickTime(c.start, c.threshold / 2, k)) in seen
    {
      var check := HM.Check(HM.TickTime(c.start, c.threshold / 2, k));
      assert Monitor(check) in run;
      var j :| 0 <= j < |run| && run[j] == Monitor(check);
      assert TimeOf(run[j]) <= u;
      assert prefix[j] == Monitor(check);
      MonitoredMember(prefix, check);
    }
    forall j | 0 <= j < |seen| && seen[j].SlotArrives? ensures seen[j].at <= t0 {
      assert seen[j] in seen;
      MonitoredMember(prefix, seen[j]);
      var k :| 0 <= k < |prefix| && prefix[k] == Monitor(seen[j]);
      assert run[k] == Monitor(seen[j]);
    }
    HM.UnhealthyInTime(c.threshold, c.start, seen, t0, u);
  }

  /** Whoever is connected is on a channel opened at or after the `n`-th. */
  ghost predicate OnlyNewer(s: RL.State, n: nat) {
    |s.channels| >= n && forall p :: p in s.subs ==> s.subs[p] >= n
  }

  lemma StepKeepsNewer(c: Setup, s: State, e: Event, n: nat)
    requires RL.Valid(s.relayer) && OnlyNewer(s.relayer, n)
    ensures OnlyNewer(Step(c, s, e).relayer, n)
  {
    var s' := Step(c, s, e);
    if s'.relayer != s.relayer {
      var turn := if e.Beat? then RL.HeartbeatTick(s.hm.health, e.order, e.moves) else e.turn;
      forall p ensures p in s'.relayer.subs ==> s'.relayer.subs[p] >= n {
        RelayerRuns.StepSubs(c.relayer, s.relayer, turn, p);
      }
      RelayerRuns.StepSubs(c.relayer, s.relayer, turn, 0);
    }
  }

  lemma {:induction false} NewerFromThere(c: Setup, run: seq<Event>, i: nat, n: nat)
    requires i <= |run| && OnlyNewer(Exec(c, run[..i]).relayer, n)
    ensures OnlyNewer(Exec(c, run).relayer, n)
  {
    if i == |run| {
      assert run[..i] == run;
    } else {
      var before := run[..|run| - 1];
      assert before[..i] == run[..i];
      NewerFromThere(c, before, i, n);
      StepKeepsNewer(c, Exec(c, before), run[|run| - 1], n);
    }
  }

  /** Once everybody has been dropped, no earlier connection comes back. */
  lemma {:induction false} OldConnectionsStayGone(c: Setup, run: seq<Event>, i: nat, j: nat)
    requires i <= j <= |run| && Exec(c, run[..i]).relayer.subs == map[]
    ensures OnlyNewer(Exec(c, run[..j]).relayer, |Exec(c, run[..i]).relayer.channels|)
  {
    assert run[..j][..i] == run[..i];
    NewerFromThere(c, run[..j], i, |Exec(c, run[..i]).relayer.channels|);
  }

  ghost predicate HasChannels(s: RL.State, n: nat) {
    n <= |s.channels|
  }

  lemma StepKeepsChannels(c: Setup, s: State, e: Event, n: nat)
    requires RL.Valid(s.relayer) && HasChannels(s.relayer, n)
    ensures HasChannels(Step(c, s, e).relayer, n)
  {
    if Step(c, s, e).relayer != s.relayer {
      RelayerRuns.StepSubs(c.relayer, s.relayer, if e.Beat? then RL.HeartbeatTick(s.hm.health, e.order, e.moves) else e.turn, 0);
    }
  }

  lemma {:induction false} ChannelsGrow(c: Setup, run: seq<Event>, m: nat, n: nat)
    requires m <= |run| && HasChannels(Exec(c, run[..m]).relayer, n)
    ensures HasChannels(Exec(c, run).relayer, n)
  {
    if m == |run| {
      assert run[..m] == run;
    } else {
      var before := run[..|run| - 1];
      assert before[..m] == run[..m];
      ChannelsGrow(c, before, m, n);
      StepKeepsChannels(c, Exec(c, before), run[|run| - 1], n);
    }
  }

  /** `p`'s channel after `m` events is not the one `q` has after `j` events. */
  ghost predicate OtherChannel(c: Setup, run: seq<Event>, m: nat, p: nat, j: nat, q: nat)
    requires m <= |run| && j <= |run|
  {
    var before, after := Exec(c, run[..m]).relayer.subs, Exec(c, run[..j]).relayer.subs;
    p in before && q in after ==> before[p] != after[q]
  }

  /** Nobody connected at any moment up to `i` is still, or again, on the same channel at
      any moment after it. */
  ghost predicate ConnectionsEnd(c: Setup, run: seq<Event>, i: nat) {
    forall m: nat, j: nat, p, q :: m <= i < j <= |run| ==> OtherChannel(c, run, m, p, j, q)
  }

  lemma EarlierChannels(c: Setup, run: seq<Event>, m: nat, i: nat, n: nat)
    requires m <= i <= |run| && HasChannels(Exec(c, run[..m]).relayer, n)
    ensures HasChannels(Exec(c, run[..i]).relayer, n)
  {
    assert run[..i][..m] == run[..m];
    ChannelsGrow(c, run[..i], m, n);
  }

  lemma OnOtherChannel(before: RL.State, cleared: RL.State, after: RL.State, p: nat, q: nat)
    requires RL.Valid(before) && p in before.subs && q in after.subs
    requires HasChannels(cleared, |before.channels|) && OnlyNewer(after, |cleared.channels|)
    ensures before.subs[p] != after.subs[q]
  {
  }

  lemma ConnectionEnds(c: Setup, run: seq<Event>, i: nat, m: nat, p: nat, j: nat, q: nat)
    requires m <= i < j <= |run| && Exec(c, run[..i + 1]).relayer.subs == map[]
    ensures OtherChannel(c, run, m, p, j, q)
  {
    var before, cleared, after := Exec(c, run[..m]).relayer, Exec(c, run[..i + 1]).relayer, Exec(c, run[..j]).relayer;
    if p in before.subs && q in after.subs {
      EarlierChannels(c, run, m, i + 1, |before.channels|);
      OldConnectionsStayGone(c, run, i + 1, j);
      OnOtherChannel(before, cleared, after, p, q);
    }
  }

  lemma ClearingEndsConnections(c: Setup, run: seq<Event>, i: nat)
    requires i < |run| && Exec(c, run[..i + 1]).relayer.subs == map[]
    ensures ConnectionsEnd(c, run, i)
  {
    forall m: nat, j: nat, p, q | m <= i < j <= |run| ensures OtherChannel(c, run, m, p, j, q) {
      ConnectionEnds(c, run, i, m, p, j, q);
    }
  }

  /** A heartbeat after the state turned unhealthy, and no later than one period after that. */
  ghost predicate LateBeat(c: Setup, run: seq<Event>, t0: Time, i: nat) {
    && i < |run| && run[i].Beat?
    && t0 + c.threshold + c.threshold / 2 < run[i].at <= t0 + c.threshold + c.threshold / 2 + HEARTBEAT_PERIOD
  }

  /** If no slot is handled after `t0` and ticks are on time, then a heartbeat that comes
      after threshold + half a threshold from `t0`, and at most 500 ms later, leaves nobody
      connected; and every connection there was at any moment until then, at `t0` for one,
      has ended for good: whoever is connected later has subscribed anew. */
  lemma ConnectionsClearedInTime(c: Setup, run: seq<Event>, t0: Time, horizon: Time)
    requires c.threshold >= 2 && Ordered(c, run) && c.start <= t0 && QuietAfter(run, t0)
    requires c.relayerStart <= t0 + c.threshold + c.threshold / 2
    requires horizon == t0 + c.threshold + c.threshold / 2 + HEARTBEAT_PERIOD
    requires ChecksOnTime(c, run, horizon) && BeatsOnTime(c, run, horizon)
    ensures exists i: nat :: LateBeat(c, run, t0, i) && Exec(c, run[..i + 1]).relayer.subs == map[] && ConnectionsEnd(c, run, i)
  {
    var u := t0 + c.threshold + c.threshold / 2;
    var k := HM.TickInInterval(c.relayerStart, HEARTBEAT_PERIOD, u);
    var at := HM.TickTime(c.relayerStart, HEARTBEAT_PERIOD, k);
    assert at <= horizon;
    var i: nat :| BeatsAt(c, run, i, at);
    UnhealthyBefore(c, run, t0, u, i);
    var s := Exec(c, run[..i]);
    RelayerRuns.UnhealthyHeartbeatClears(c.relayer, s.relayer, run[i].order, run[i].moves);
    assert run[..i + 1][..i] == run[..i];
    assert Exec(c, run[..i + 1]) == Step(c, s, run[i]);
    ClearingEndsConnections(c, run, i);
    assert LateBeat(c, run, t0, i);
  }
}
