/** The slot path end to end: N subscription threads, the health monitor that relays
    their slots, and the relayer that takes them as its `highest_slot`. */
module SlotPipeline {
  import opened Common
  import LB = LoadBalancer
  import HM = HealthManager
  import RL = Relayer
  import ScheduleCache

  /** `held` is a slot the monitor has received and not yet passed on; the relayer has
      taken the first `taken` slots the monitor passed on. */
  datatype State = State(lb: LB.State, held: Option<nat>, hm: HM.State, relayer: RL.State, taken: nat)

  datatype Event =
    | Tracking(e: LB.Event)
    | MonitorReceives
    | MonitorForwards(at: Time)
    | MonitorChecks(at: Time)
    | RelayerTakesSlot(schedule: ScheduleCache.Schedule)
    | RelayerTurn(turn: RL.Event)

  datatype Setup = Setup(urls: seq<string>, threshold: Time, start: Time, relayer: RL.Config)

  ghost function Init(c: Setup): State {
    State(LB.Init(c.urls), None, HM.Init(c.start), RL.INIT, 0)
  }

  ghost function Step(c: Setup, s: State, e: Event): (s': State)
    requires RL.Valid(s.relayer)
    ensures RL.Valid(s'.relayer)
  {
    match e
    case Tracking(l) => if l.Take? then s else s.(lb := LB.Step(c.urls, s.lb, l))
    case MonitorReceives =>
      if s.held.None? && s.lb.live && s.lb.taken < |s.lb.sent|
      then s.(held := Some(s.lb.sent[s.lb.taken].slot), lb := LB.Step(c.urls, s.lb, LB.Take))
      else s
    case MonitorForwards(at) =>
      if s.held.Some? && |s.hm.forwarded| < s.taken + LB.SLOT_QUEUE_CAPACITY
      then s.(held := None, hm := HM.Step(c.threshold, s.hm, HM.SlotArrives(at, s.held.value)))
      else s
    case MonitorChecks(at) => s.(hm := HM.Step(c.threshold, s.hm, HM.Check(at)))
    case RelayerTakesSlot(schedule) =>
      if s.taken < |s.hm.forwarded|
      then s.(taken := s.taken + 1, relayer := RL.Step(c.relayer, s.relayer, RL.SlotUpdate(s.hm.forwarded[s.taken], schedule)))
      else s
    case RelayerTurn(t) => if t.SlotUpdate? then s else s.(relayer := RL.Step(c.relayer, s.relayer, t))
  }

  ghost function Exec(c: Setup, run: seq<Event>): (s: State)
    ensures RL.Valid(s.relayer)
  {
    if run == [] then Init(c) else Step(c, Exec(c, run[..|run| - 1]), run[|run| - 1])
  }

  /** The values the relayer's `highest_slot` was set to, in order. */
  ghost function Settings(s: State): seq<nat>
    requires s.taken <= |s.hm.forwarded|
  {
    s.hm.forwarded[..s.taken]
  }

  ghost predicate Relayed(s: State) {
    && s.lb.taken <= |s.lb.sent| && s.taken <= |s.hm.forwarded|
    && |s.hm.forwarded| + (if s.held.Some? then 1 else 0) == s.lb.taken
    && (forall i :: 0 <= i < |s.hm.forwarded| ==> s.hm.forwarded[i] == s.lb.sent[i].slot)
    && (s.held.Some? ==> s.held.value == s.lb.sent[s.lb.taken - 1].slot)
    && s.relayer.highestSlot == (if s.taken == 0 then 0 else s.hm.forwarded[s.taken - 1])
  }

  lemma OtherTurnsKeepSlot(cfg: RL.Config, s: RL.State, e: RL.Event)
    requires RL.Valid(s) && !e.SlotUpdate?
    ensures RL.Step(cfg, s, e).highestSlot == s.highestSlot
  {
  }

  lemma TrackingKeepsSent(urls: seq<string>, s: LB.State, e: LB.Event)
    ensures var s' := LB.Step(urls, s, e); s.sent <= s'.sent && (!e.Take? ==> s'.taken == s.taken)
  {
  }

  lemma RelayedStep(c: Setup, s: State, e: Event)
    requires RL.Valid(s.relayer) && Relayed(s)
    ensures Relayed(Step(c, s, e))
  {
    match e {
      case Tracking(l) => TrackingKeepsSent(c.urls, s.lb, l);
      case RelayerTurn(t) =>
        if !t.SlotUpdate? {
          OtherTurnsKeepSlot(c.relayer, s.relayer, t);
        }
      case _ =>
    }
  }

  /** The monitor relays unchanged and in order, the relayer takes in order, and its
      `highest_slot` is the last slot taken. */
  lemma {:induction false} RelayIsFaithful(c: Setup, run: seq<Event>)
    ensures Relayed(Exec(c, run))
  {
    if run != [] {
      RelayIsFaithful(c, run[..|run| - 1]);
      RelayedStep(c, Exec(c, run[..|run| - 1]), run[|run| - 1]);
    }
  }

  ghost predicate SourceGood(c: Setup, s: LB.State) {
    LB.Inv(c.urls, s) && LB.DisorderBounded(s)
  }

  lemma SourceStep(c: Setup, s: LB.State, e: LB.Event)
    requires SourceGood(c, s)
    ensures SourceGood(c, LB.Step(c.urls, s, e))
  {
    LB.StepKeepsInv(c.urls, s, e);
    forall i | 0 <= i < |s.sent| ensures s.sent[i].slot <= s.highest {
      assert s.sent[i] in s.sent && s.sent[i].slot in LB.SentSlots(s);
    }
    LB.StepKeepsDisorder(c.urls, s, e);
  }

  lemma {:induction false} SourceStaysGood(c: Setup, run: seq<Event>)
    ensures SourceGood(c, Exec(c, run).lb)
  {
    if run == [] {
      LB.ReachableStates(c.urls, []);
      LB.DisorderInvariant(c.urls, []);
    } else {
      var n := |run| - 1;
      SourceStaysGood(c, run[..n]);
      var s := Exec(c, run[..n]);
      match run[n] {
        case Tracking(l) => SourceStep(c, s.lb, l);
        case MonitorReceives => SourceStep(c, s.lb, LB.Take);
        case _ =>
      }
    }
  }

  /** Later settings below the `i`-th one. */
  ghost function LaterBelow(settings: seq<nat>, i: nat): set<nat>
    requires i < |settings|
  {
    set j | i < j < |settings| && settings[j] < settings[i]
  }

  /** After the relayer takes a slot, its `highest_slot` is set below it at most N - 1
      more times, however the threads, the monitor and the relayer interleave; and no
      slot is ever taken twice. */
  lemma HighestSlotRegressesBoundedly(c: Setup, run: seq<Event>, i: nat)
    requires Exec(c, run).taken <= |Exec(c, run).hm.forwarded| && i < |Settings(Exec(c, run))|
    ensures |LaterBelow(Settings(Exec(c, run)), i)| <= |c.urls| - 1
    ensures forall j :: 0 <= j < |Settings(Exec(c, run))| && j != i ==> Settings(Exec(c, run))[j] != Settings(Exec(c, run))[i]
  {
    var s := Exec(c, run);
    RelayIsFaithful(c, run);
    SourceStaysGood(c, run);
    assert LaterBelow(Settings(s), i) <= LB.LaterSmaller(s.lb.sent, i);
    SubsetSize(LaterBelow(Settings(s), i), LB.LaterSmaller(s.lb.sent, i));
  }

  /** The relayer's `highest_slot` has only ever risen. */
  ghost predicate SettingsIncrease(s: State) {
    s.taken <= |s.hm.forwarded| && forall i, j :: 0 <= i < j < |Settings(s)| ==> Settings(s)[i] < Settings(s)[j]
  }

  /** With a single server the latest slot is the highest: settings only increase. */
  lemma SingleServerIncreases(c: Setup, run: seq<Event>)
    requires |c.urls| <= 1
    ensures SettingsIncrease(Exec(c, run))
  {
    RelayIsFaithful(c, run);
    var settings := Settings(Exec(c, run));
    forall i, j | 0 <= i < j < |settings| ensures settings[i] < settings[j] {
      HighestSlotRegressesBoundedly(c, run, i);
      assert LaterBelow(settings, i) == {};
      assert j !in LaterBelow(settings, i);
    }
  }

  // ---------- the bound is attained at the relayer ----------

  ghost predicate Reachable(c: Setup, s: State) {
    exists run :: Exec(c, run) == s
  }

  lemma After(c: Setup, s: State, e: Event) returns (s': State)
    requires RL.Valid(s.relayer) && Reachable(c, s)
    ensures s' == Step(c, s, e) && Reachable(c, s')
  {
    var run :| Exec(c, run) == s;
    assert (run + [e])[..|run|] == run;
    assert Exec(c, run + [e]) == Step(c, s, e);
    s' := Step(c, s, e);
  }

  /** Nothing is in flight between the threads and the relayer. */
  ghost predicate Drained(s: State) {
    && RL.Valid(s.relayer) && s.held.None? && s.lb.live
    && |s.lb.sent| == s.lb.taken == |s.hm.forwarded| == s.taken
  }

  /** The first `n` threads have raised the maximum to `1, 2, ..., n` and not sent yet. */
  lemma {:induction false} RaiseInOrder(c: Setup, n: nat) returns (s: State)
    requires n <= |c.urls|
    ensures Reachable(c, s) && Drained(s) && s.taken == 0 && LB.AfterRaising(s.lb, |c.urls|, n)
  {
    if n == 0 {
      s := Init(c);
      assert Exec(c, []) == s;
    } else {
      var before := RaiseInOrder(c, n - 1);
      s := RaiseOne(c, before, n);
    }
  }

  lemma RaiseOne(c: Setup, s: State, n: nat) returns (s': State)
    requires 0 < n <= |c.urls| && Reachable(c, s) && Drained(s) && s.taken == 0 && LB.AfterRaising(s.lb, |c.urls|, n - 1)
    ensures Reachable(c, s') && Drained(s') && s'.taken == 0 && LB.AfterRaising(s'.lb, |c.urls|, n)
  {
    var inserted := After(c, s, Tracking(LB.Insert(n - 1, n)));
    assert inserted.lb.phase == s.lb.phase[n - 1 := LB.Inserted(n)];
    s' := After(c, inserted, Tracking(LB.FetchMax(n - 1)));
    assert s'.lb.phase == s.lb.phase[n - 1 := LB.Raised(n)];
  }

  /** Thread `t` sends and the monitor takes the slot. */
  lemma PassToMonitor(c: Setup, s: State, t: nat) returns (s': State)
    requires Reachable(c, s) && Drained(s) && t < |s.lb.phase| && s.lb.phase[t].Raised?
    ensures Reachable(c, s') && s'.lb.live && s'.lb.taken == |s'.lb.sent| == |s.lb.sent| + 1
    ensures s'.lb.phase == s.lb.phase[t := LB.Idle]
    ensures s'.held == Some(s.lb.phase[t].slot) && s'.hm == s.hm && s'.relayer == s.relayer && s'.taken == s.taken
  {
    var sent := After(c, s, Tracking(LB.Send(t)));
    assert sent.lb.sent == s.lb.sent + [LB.Emission(t, s.lb.phase[t].slot)];
    s' := After(c, sent, MonitorReceives);
  }

  lemma MonitorPassesOn(c: Setup, s: State, slot: nat) returns (s': State)
    requires RL.Valid(s.relayer) && Reachable(c, s) && s.held == Some(slot) && |s.hm.forwarded| == s.taken
    ensures Reachable(c, s') && s'.lb == s.lb && s'.held.None? && s'.taken == s.taken && s'.relayer == s.relayer
    ensures s'.hm.forwarded == s.hm.forwarded + [slot]
  {
    s' := After(c, s, MonitorForwards(s.hm.lastUpdate));
  }

  /** The monitor forwards the slot it holds and the relayer takes it. */
  lemma PassToRelayer(c: Setup, s: State, slot: nat) returns (s': State)
    requires RL.Valid(s.relayer) && Reachable(c, s) && s.held == Some(slot) && |s.hm.forwarded| == s.taken
    ensures Reachable(c, s') && s'.lb == s.lb && s'.held.None? && s'.taken == s.taken + 1
    ensures s'.hm.forwarded == s.hm.forwarded + [slot] && RL.Valid(s'.relayer) && s'.relayer.highestSlot == slot
  {
    var forwarded := MonitorPassesOn(c, s, slot);
    s' := After(c, forwarded, RelayerTakesSlot(map[]));
  }

  /** Thread `t` sends and its slot goes all the way to the relayer before anything else happens. */
  lemma PassOn(c: Setup, s: State, t: nat) returns (s': State)
    requires Reachable(c, s) && Drained(s) && t < |s.lb.phase| && s.lb.phase[t].Raised?
    ensures Reachable(c, s') && Drained(s') && Settings(s') == Settings(s) + [s.lb.phase[t].slot]
    ensures s'.lb.phase == s.lb.phase[t := LB.Idle]
    ensures s'.relayer.highestSlot == s.lb.phase[t].slot
  {
    var received := PassToMonitor(c, s, t);
    s' := PassToRelayer(c, received, s.lb.phase[t].slot);
    assert s'.hm.forwarded[..s'.taken] == s.hm.forwarded[..s.taken] + [s.lb.phase[t].slot];
  }

  /** `n` came first, then `1, 2, ..., m`; the threads of `m + 1, ..., n - 1` still hold theirs. */
  ghost predicate LastFirst(s: State, n: nat, m: nat) {
    && Drained(s) && s.taken == m + 1 && |s.lb.phase| == n
    && Settings(s)[0] == n && (forall j :: 1 <= j <= m ==> Settings(s)[j] == j)
    && (forall t :: m <= t < n - 1 ==> s.lb.phase[t] == LB.Raised(t + 1))
  }

  lemma {:induction false} LastThreadFirst(c: Setup, m: nat) returns (s: State)
    requires m < |c.urls|
    ensures Reachable(c, s) && LastFirst(s, |c.urls|, m)
  {
    if m == 0 {
      var raised := RaiseInOrder(c, |c.urls|);
      s := PassOn(c, raised, |c.urls| - 1);
    } else {
      var before := LastThreadFirst(c, m - 1);
      s := PassOn(c, before, m - 1);
    }
  }

  /** For every N > 0 the relayer's `highest_slot` can fall below a slot it has taken N - 1 times. */
  lemma RegressionBoundIsTight(c: Setup) returns (s: State)
    requires c.urls != []
    ensures Reachable(c, s) && s.taken <= |s.hm.forwarded| && |Settings(s)| > 0
    ensures |LaterBelow(Settings(s), 0)| == |c.urls| - 1
  {
    var n := |c.urls|;
    s := LastThreadFirst(c, n - 1);
    assert LaterBelow(Settings(s), 0) == LB.Below(n) - {0};
  }

  /** With two or more servers some run makes `highest_slot` fall. */
  lemma HighestSlotCanFall(c: Setup) returns (run: seq<Event>)
    requires |c.urls| >= 2
    ensures !SettingsIncrease(Exec(c, run))
  {
    var s := LastThreadFirst(c, 1);
    assert Settings(s)[0] == |c.urls| && Settings(s)[1] == 1;
    run :| Exec(c, run) == s;
  }

  /** So the latest slot taken is the largest in every run exactly with at most one server. */
  lemma IncreasesExactlyWithOneServer(c: Setup)
    ensures (forall run :: SettingsIncrease(Exec(c, run))) <==> |c.urls| <= 1
  {
    if |c.urls| <= 1 {
      forall run ensures SettingsIncrease(Exec(c, run)) {
        SingleServerIncreases(c, run);
      }
    } else {
      var run := HighestSlotCanFall(c);
    }
  }
}
