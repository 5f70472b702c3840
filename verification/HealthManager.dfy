/** The health monitor (relayer/src/health_manager.rs): relays slots and judges health
    from the time of the last one. */
module HealthManager {
  import opened Common

  type Slot = nat

  datatype HealthState = Unhealthy | Healthy

  /** Arms of the monitor's loop, with the time at which each one finishes. */
  datatype Event = Check(at: Time) | SlotArrives(at: Time, slot: Slot) | ReportChannels(at: Time)

  datatype State = State(health: HealthState, lastUpdate: Time, forwarded: seq<Slot>)

  /** A monotonic clock's `elapsed`, zero when the stamp is not in the past. */
  function Elapsed(since: Time, now: Time): Time {
    if since <= now then now - since else 0
  }

  /** Start-up counts as a slot update. */
  function Init(start: Time): State {
    State(Unhealthy, start, [])
  }

  function Step(threshold: Time, s: State, e: Event): State {
    match e
    case Check(at) => s.(health := if Elapsed(s.lastUpdate, at) <= threshold then Healthy else Unhealthy)
    case SlotArrives(at, slot) => s.(forwarded := s.forwarded + [slot], lastUpdate := at)
    case ReportChannels(_) => s
  }

  function Exec(threshold: Time, start: Time, run: seq<Event>): State {
    if run == [] then Init(start) else Step(threshold, Exec(threshold, start, run[..|run| - 1]), run[|run| - 1])
  }

  class HealthManager {
    const threshold: Time
    var health: HealthState
    var lastUpdate: Time
    var forwarded: seq<Slot>
    var maxQueueLength: nat

    function Abs(): State
      reads this
    {
      State(health, lastUpdate, forwarded)
    }

    constructor (missingSlotUnhealthyThreshold: Time, now: Time)
      ensures threshold == missingSlotUnhealthyThreshold && Abs() == Init(now)
    {
      threshold := missingSlotUnhealthyThreshold;
      health := Unhealthy;
      lastUpdate := now;
      forwarded := [];
      maxQueueLength := 0;
    }

    /** One turn of the loop; `queueLength` is the length of the outgoing queue afterwards. */
    method Turn(e: Event, queueLength: nat)
      modifies this
      ensures Abs() == Step(threshold, old(Abs()), e)
    {
      match e {
        case Check(at) =>
          if Elapsed(lastUpdate, at) <= threshold {
            health := Healthy;
          } else {
            health := Unhealthy;
          }
        case SlotArrives(at, slot) =>
          forwarded := forwarded + [slot];
          lastUpdate := at;
        case ReportChannels(_) =>
          maxQueueLength := 0;
      }
      maxQueueLength := Max(maxQueueLength, queueLength);
    }
  }

  // ---------- what a run means ----------

  /** The clock never runs backwards. */
  ghost predicate Ordered(start: Time, run: seq<Event>) {
    && (forall i :: 0 <= i < |run| ==> start <= run[i].at)
    && (forall i, j :: 0 <= i < j < |run| ==> run[i].at <= run[j].at)
  }

  /** `u` is the start or the time of a slot handled in the run. */
  ghost predicate Handled(start: Time, run: seq<Event>, u: Time) {
    u == start || exists i :: 0 <= i < |run| && run[i].SlotArrives? && run[i].at == u
  }

  lemma {:induction false} LastUpdateIsLatest(threshold: Time, start: Time, run: seq<Event>)
    requires Ordered(start, run)
    ensures Handled(start, run, Exec(threshold, start, run).lastUpdate)
    ensures forall u: Time :: Handled(start, run, u) ==> u <= Exec(threshold, start, run).lastUpdate
  {
    if run != [] {
      var n := |run| - 1;
      LastUpdateIsLatest(threshold, start, run[..n]);
      var before := Exec(threshold, start, run[..n]);
      assert forall u: Time :: Handled(start, run[..n], u) ==> Handled(start, run, u) by {
        forall u: Time | Handled(start, run[..n], u) ensures Handled(start, run, u) {
          if u != start {
            var i :| 0 <= i < n && run[..n][i].SlotArrives? && run[..n][i].at == u;
            assert run[i].SlotArrives? && run[i].at == u;
          }
        }
      }
      forall u: Time | Handled(start, run, u) ensures u <= Exec(threshold, start, run).lastUpdate {
        if u == start || !(run[n].SlotArrives? && run[n].at == u) {
          if u != start {
            var i :| 0 <= i < |run| && run[i].SlotArrives? && run[i].at == u;
            assert run[..n][i].SlotArrives? && run[..n][i].at == u;
          }
          assert Handled(start, run[..n], u) && u <= before.lastUpdate;
        }
        if before.lastUpdate != start {
          var j :| 0 <= j < n && run[..n][j].SlotArrives? && run[..n][j].at == before.lastUpdate;
          assert run[j].at <= run[n].at;
        }
      }
    }
  }

  /** A check declares the relayer healthy exactly when some slot was handled, or the
      monitor started, at most the threshold ago. */
  lemma CheckVerdict(threshold: Time, start: Time, run: seq<Event>, at: Time)
    requires Ordered(start, run + [Check(at)])
    ensures Exec(threshold, start, run + [Check(at)]).health == Healthy
       <==> exists u: Time :: Handled(start, run, u) && at <= u + threshold
  {
    var all := run + [Check(at)];
    assert all[..|run|] == run;
    assert forall i :: 0 <= i < |run| ==> all[i] == run[i] && all[i].at <= all[|run|].at;
    LastUpdateIsLatest(threshold, start, run);
    var last := Exec(threshold, start, run).lastUpdate;
    assert last <= at;
  }

  /** While no gap between handled slots (counting the start) exceeds the threshold,
      no check ever sets the state to unhealthy; at the first check that finds a
      larger gap it does. */
  lemma UnhealthyExactlyAtGaps(threshold: Time, start: Time, run: seq<Event>, i: nat)
    requires Ordered(start, run) && i < |run| && run[i].Check?
    ensures Exec(threshold, start, run[..i + 1]).health == Unhealthy
       <==> forall u: Time :: Handled(start, run[..i], u) ==> u + threshold < run[i].at
  {
    assert run[..i + 1] == run[..i] + [Check(run[i].at)];
    CheckVerdict(threshold, start, run[..i], run[i].at);
  }

  /** Between checks the state is what the last one found, and unhealthy before the first. */
  lemma {:induction false} HealthIsLastVerdict(threshold: Time, start: Time, run: seq<Event>, i: nat)
    requires i <= |run| && forall j :: i <= j < |run| ==> !run[j].Check?
    ensures Exec(threshold, start, run).health == Exec(threshold, start, run[..i]).health
    ensures i == 0 ==> Exec(threshold, start, run).health == Unhealthy
  {
    if i == |run| {
      assert run[..i] == run;
    } else {
      var n := |run| - 1;
      HealthIsLastVerdict(threshold, start, run[..n], i);
      assert run[..n][..i] == run[..i];
    }
  }

  /** Documented as "healthy once slot updates are being received", but a relayer that
      has received no slot at all is declared healthy by every check up to one
      threshold after the start. */
  lemma HealthyWithoutAnySlot(threshold: Time, start: Time, at: Time)
    requires start <= at <= start + threshold
    ensures Exec(threshold, start, [Check(at)]).health == Healthy
    ensures Exec(threshold, start, [Check(at)]).forwarded == []
  {
    var run := [Check(at)];
    assert run[..|run| - 1] == [] && run[|run| - 1] == Check(at);
    assert Exec(threshold, start, run) == Step(threshold, Exec(threshold, start, []), Check(at));
  }

  // ---------- timed bound ----------

  /** Firing times of a periodic ticker. */
  function TickTime(start: Time, period: Time, k: nat): Time {
    start + k * period
  }

  /** Every tick due by `horizon` is in the run, at its due time. */
  ghost predicate ChecksOnTime(start: Time, period: Time, run: seq<Event>, horizon: Time) {
    forall k :: k >= 1 && TickTime(start, period, k) <= horizon ==> Check(TickTime(start, period, k)) in run
  }

  /** Some tick falls into every half-open interval of one period. */
  lemma TickInInterval(start: Time, period: Time, t: Time) returns (k: nat)
    requires period > 0 && start <= t
    ensures k >= 1 && t < TickTime(start, period, k) <= t + period
  {
    k := (t - start) / period + 1;
    assert k * period == (t - start) / period * period + period;
  }

  /** Once a check has run later than threshold after the last slot, the state is and stays unhealthy. */
  lemma {:induction false} UnhealthyAfterLateCheck(threshold: Time, start: Time, run: seq<Event>, t0: Time, i: nat)
    requires Ordered(start, run) && start <= t0
    requires forall j :: 0 <= j < |run| && run[j].SlotArrives? ==> run[j].at <= t0
    requires i < |run| && run[i].Check? && t0 + threshold < run[i].at
    ensures Exec(threshold, start, run).health == Unhealthy
  {
    var n := |run| - 1;
    assert run[..n + 1] == run;
    if run[n].Check? {
      assert run[i].at <= run[n].at;
      forall u: Time | Handled(start, run[..n], u) ensures u + threshold < run[n].at {
        if u != start {
          var j :| 0 <= j < n && run[..n][j].SlotArrives? && run[..n][j].at == u;
          assert run[j].at <= t0;
        }
      }
      UnhealthyExactlyAtGaps(threshold, start, run, n);
    } else {
      UnhealthyAfterLateCheck(threshold, start, run[..n], t0, i);
    }
  }

  /** With on-time checks every half threshold and no slot handled after `t0`, the state
      is unhealthy from `t0 + threshold + threshold / 2` on. */
  lemma UnhealthyInTime(threshold: Time, start: Time, run: seq<Event>, t0: Time, horizon: Time)
    requires threshold >= 2 && Ordered(start, run) && start <= t0
    requires ChecksOnTime(start, threshold / 2, run, horizon)
    requires t0 + threshold + threshold / 2 <= horizon
    requires forall j :: 0 <= j < |run| && run[j].SlotArrives? ==> run[j].at <= t0
    ensures Exec(threshold, start, run).health == Unhealthy
  {
    var k := TickInInterval(start, threshold / 2, t0 + threshold);
    assert Check(TickTime(start, threshold / 2, k)) in run;
    var i :| 0 <= i < |run| && run[i] == Check(TickTime(start, threshold / 2, k));
    UnhealthyAfterLateCheck(threshold, start, run, t0, i);
  }
}
