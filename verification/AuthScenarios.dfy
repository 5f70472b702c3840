/** Runs of the authentication service that attain what its theorems leave open. */
module AuthScenarios {
  import opened Common
  import opened Transactions
  import opened AuthChallenges
  import opened AuthService
  import opened AuthRuns

  ghost predicate Reachable(cfg: Config, s: State) {
    exists run :: Exec(cfg, run) == s
  }

  lemma ReachStep(cfg: Config, s: State, e: Event) returns (s': State)
    requires Valid(s) && Reachable(cfg, s)
    ensures s' == Step(cfg, s, e) && Reachable(cfg, s')
  {
    var run :| Exec(cfg, run) == s;
    ExecAppend(cfg, run, e);
    s' := Step(cfg, s, e);
    assert Exec(cfg, run + [e]) == s';
  }

  lemma ReachCall(cfg: Config, s: State, c: Call) returns (s': State)
    requires Valid(s) && Reachable(cfg, s)
    ensures s' == Atomic(cfg, s, c) && Reachable(cfg, s')
  {
    var run :| Exec(cfg, run) == s;
    ExecCall(cfg, run, c);
    s' := Atomic(cfg, s, c);
    assert Exec(cfg, run + Steps(c)) == s';
  }

  lemma ReachInit(cfg: Config)
    ensures Reachable(cfg, INIT)
  {
    assert Exec(cfg, []) == INIT;
  }

  /** A client that answers one challenge twice at the same time gets two token pairs. */
  lemma TwoPairsFromOneChallenge(cfg: Config, key: Pubkey, text: string, now: Time)
    ensures exists s :: Reachable(cfg, s) && |PairsOf(s, 0)| == 2
  {
    var signature := Signed(key, Expected(cfg, key, text));
    var s3 := BothLookUp(cfg, key, text, now, signature);
    var s4 := IssueFirst(cfg, s3, 0, 1, signature);
    var s5 := IssueFirst(cfg, s4, 1, 1, signature);
    TwoPairs(s5);
  }

  lemma TwoPairs(s: State)
    requires s.pairs == [] + [0] + [0]
    ensures |PairsOf(s, 0)| == 2
  {
    assert PairsOf(s, 0) == {0, 1};
  }

  lemma BothLookUp(cfg: Config, key: Pubkey, text: string, now: Time, signature: Signature) returns (s: State)
    requires signature == Signed(key, Expected(cfg, key, text))
    ensures Valid(s) && Reachable(cfg, s) && s.pairs == []
    ensures s.handlers == map[0 := Verified(1, 0, signature), 1 := Verified(1, 0, signature)]
  {
    var s1 := StoreFirst(cfg, key, text, now);
    var s2 := AnswerFirst(cfg, s1, 0, key, Expected(cfg, key, text), signature);
    s := AnswerFirst(cfg, s2, 1, key, Expected(cfg, key, text), signature);
  }

  lemma IssueFirst(cfg: Config, s: State, h: nat, ip: Ip, signature: Signature) returns (s': State)
    requires Valid(s) && Reachable(cfg, s) && h in s.handlers && s.handlers[h] == Verified(ip, 0, signature)
    ensures Valid(s') && Reachable(cfg, s') && s'.pairs == s.pairs + [0] && s'.handlers == s.handlers - {h} && s'.log == s.log
    ensures s'.issued == s.issued + PairFrom(s.log[0].challenge, 0, signature)
  {
    s' := ReachStep(cfg, s, IssueTokens(h));
  }

  lemma StoreFirst(cfg: Config, key: Pubkey, text: string, now: Time) returns (s: State)
    ensures Valid(s) && Reachable(cfg, s) && s.handlers == map[] && s.pairs == [] && s.issued == [] && s.store == map[1 := 0]
    ensures |s.log| == 1 && s.log[0].challenge == NewChallenge(cfg, 1, key, text, now)
  {
    ReachInit(cfg);
    var c := GenerateChallenge(true, Some(1), true, Some(key), {key}, now, text);
    ChallengeRequestEffect(cfg, INIT, c);
    assert StoresNew(INIT, c);
    s := ReachCall(cfg, INIT, c);
    assert 1 in s.store;
  }

  lemma AnswerFirst(cfg: Config, s: State, h: nat, key: Pubkey, answer: string, signature: Signature) returns (s': State)
    requires Valid(s) && Reachable(cfg, s) && h !in s.handlers && 1 in s.store && s.store[1] == 0
    requires Accepts(cfg, s.log[0].challenge, key, answer, signature)
    ensures Valid(s') && Reachable(cfg, s') && s' == s.(handlers := s.handlers[h := Verified(1, 0, signature)])
  {
    s' := ReachStep(cfg, s, Respond(h, true, Some(1), Some(key), answer, signature));
  }

  /** The request is answered with a token pair. */
  predicate Issues(cfg: Config, s: State, c: Call)
    requires Valid(s)
  {
    |Atomic(cfg, s, c).issued| > |s.issued|
  }

  /** Documented as refused once expired, but without a cleanup in between a challenge is
      accepted at any later time. */
  lemma ExpiredChallengeAccepted(cfg: Config, key: Pubkey, text: string, stored: Time, now: Time) returns (s: State, c: Call)
    requires stored + cfg.challengeTtl <= now
    ensures Valid(s) && Reachable(cfg, s) && c.GenerateTokens? && c.ip == Some(1) && 1 in s.store
    ensures IsExpired(s.log[s.store[1]].challenge, now) && Issues(cfg, s, c)
  {
    s := StoreFirst(cfg, key, text, stored);
    var answer := Expected(cfg, key, text);
    c := GenerateTokens(true, Some(1), Some(key), answer, Signed(key, answer));
    TokenRequestEffect(cfg, s, c);
  }

  // ---------- refresh chains ----------

  /** How many refreshes lie between the `i`-th token and the challenge it goes back to. */
  ghost function ChainLength(issued: seq<Issue>, i: nat): nat
    requires i < |issued|
    decreases i
  {
    match issued[i].origin
    case FromChallenge(_, _, _) => 0
    case FromRefresh(parent, _) => if parent < i then 1 + ChainLength(issued, parent) else 0
  }

  lemma {:induction false} ChainFrame(issued: seq<Issue>, more: seq<Issue>, i: nat)
    requires i < |issued|
    ensures ChainLength(issued + more, i) == ChainLength(issued, i) && Root(issued + more, i) == Root(issued, i)
    decreases i
  {
    assert (issued + more)[i] == issued[i];
    match issued[i].origin {
      case FromChallenge(_, _, _) =>
      case FromRefresh(parent, _) => if parent < i { ChainFrame(issued, more, parent); }
    }
  }

  /** The `i`-th token goes back, over `n` refreshes, to an access token. */
  ghost predicate ChainFromAccess(s: State, i: nat, n: nat) {
    && i < |s.issued| && ChainLength(s.issued, i) == n
    && var r := Root(s.issued, i);
       r < |s.issued| && s.issued[r].origin.FromChallenge? && s.issued[r].origin.kind.OfAccess?
  }

  /** The access token of the first pair. */
  lemma FirstAccessToken(cfg: Config, key: Pubkey, text: string) returns (s: State)
    requires cfg.accessTtl >= SECOND
    ensures Valid(s) && Reachable(cfg, s) && ChainFromAccess(s, 0, 0) && s.issued[0].token.expiresSecs > 0
  {
    var signature := Signed(key, Expected(cfg, key, text));
    var stored := StoreFirst(cfg, key, text, 0);
    var answered := AnswerFirst(cfg, stored, 0, key, Expected(cfg, key, text), signature);
    s := IssueFirst(cfg, answered, 0, 1, signature);
    assert s.issued == [] + PairFrom(NewChallenge(cfg, 1, key, text, 0), 0, signature);
    assert s.issued[0] == PairFrom(NewChallenge(cfg, 1, key, text, 0), 0, signature)[0];
  }

  lemma RefreshOnce(cfg: Config, s: State, i: nat, n: nat) returns (s': State, j: nat)
    requires Valid(s) && Reachable(cfg, s) && ChainFromAccess(s, i, n)
    requires cfg.accessTtl >= SECOND && s.issued[i].token.expiresSecs > 0
    ensures Valid(s') && Reachable(cfg, s') && ChainFromAccess(s', j, n + 1) && s'.issued[j].token.expiresSecs > 0
  {
    j := |s.issued|;
    s' := ReachStep(cfg, s, Refresh(true, i, 0));
    var more := s'.issued[j..];
    assert s'.issued == s.issued + more && s'.issued[j].origin == FromRefresh(i, 0);
    ChainFrame(s.issued, more, i);
    ChainFrame(s.issued, more, Root(s.issued, i));
  }

  /** An access token can stand in for a refresh token, again and again: with access tokens
      that live a second or longer there are refresh chains of any length that start at one. */
  lemma {:induction false} ChainsAreUnbounded(cfg: Config, n: nat, key: Pubkey, text: string) returns (s: State, i: nat)
    requires cfg.accessTtl >= SECOND
    ensures Valid(s) && Reachable(cfg, s) && ChainFromAccess(s, i, n) && s.issued[i].token.expiresSecs > 0
  {
    if n == 0 {
      s := FirstAccessToken(cfg, key, text);
      i := 0;
    } else {
      var before, j := ChainsAreUnbounded(cfg, n - 1, key, text);
      s, i := RefreshOnce(cfg, before, j, n - 1);
    }
  }

  // ---------- the capacity bound is attained ----------

  /** Reached by a run that never has more than `k` handlers between length check and push. */
  ghost predicate ReachableWithin(cfg: Config, k: nat, s: State) {
    exists run :: AtMostPending(cfg, run, k) && Exec(cfg, run) == s
  }

  lemma StepWithin(cfg: Config, k: nat, s: State, e: Event) returns (s': State)
    requires Valid(s) && ReachableWithin(cfg, k, s) && |Step(cfg, s, e).handlers| <= k
    ensures s' == Step(cfg, s, e) && ReachableWithin(cfg, k, s')
  {
    var run :| AtMostPending(cfg, run, k) && Exec(cfg, run) == s;
    ExecAppend(cfg, run, e);
    s' := Step(cfg, s, e);
    SubsetSize(Pending(s'), s'.handlers.Keys);
    assert (run + [e])[..|run|] == run;
    assert AtMostPending(cfg, run + [e], k);
  }

  /** The addresses `0 .. n` have a challenge each. */
  ghost predicate StoreIs(store: map<Ip, nat>, n: nat) {
    |store| == n && forall ip: nat :: ip in store <==> ip < n
  }

  lemma StoreNext(store: map<Ip, nat>, n: nat, k: nat)
    requires StoreIs(store, n)
    ensures StoreIs(store[n := k], n + 1)
  {
    var more := store[n := k];
    assert n !in store;
    assert more.Keys == store.Keys + {n} && |more.Keys| == |store.Keys| + 1;
    forall ip: nat ensures ip in more <==> ip < n + 1 {
      assert ip in more <==> ip == n || ip in store;
    }
  }

  /** The handler `h` checks the length for address `ip` ... */
  lemma OneChecks(cfg: Config, k: nat, s: State, h: nat, ip: Ip, key: Pubkey) returns (s': State)
    requires Valid(s) && ReachableWithin(cfg, k, s) && h !in s.handlers && |s.handlers| < k && |s.store| < AUTH_CHALLENGES_CAPACITY
    ensures Valid(s') && ReachableWithin(cfg, k, s') && s' == s.(handlers := s.handlers[h := Waiting(ip, key)])
    ensures |s'.handlers| == |s.handlers| + 1
  {
    var e := CheckLength(h, true, Some(ip), true, Some(key));
    MapInsert(s.handlers, h, Waiting(ip, key));
    s' := StepWithin(cfg, k, s, e);
  }

  /** ... looks up the address and finds nothing ... */
  lemma OneLooksUp(cfg: Config, k: nat, s: State, h: nat, ip: Ip, key: Pubkey) returns (s': State)
    requires Valid(s) && ReachableWithin(cfg, k, s) && |s.handlers| <= k
    requires h in s.handlers && s.handlers[h] == Waiting(ip, key) && ip !in s.store
    ensures Valid(s') && ReachableWithin(cfg, k, s') && s' == s.(handlers := s.handlers[h := ReadyToPush(ip, key, {key})])
    ensures |s'.handlers| == |s.handlers|
  {
    MapReplace(s.handlers, h, ReadyToPush(ip, key, {key}));
    s' := StepWithin(cfg, k, s, LookUp(h, 0, {key}));
  }

  /** ... and pushes. */
  lemma OneStores(cfg: Config, k: nat, s: State, h: nat, ip: Ip, key: Pubkey) returns (s': State)
    requires Valid(s) && ReachableWithin(cfg, k, s) && |s.handlers| <= k
    requires h in s.handlers && s.handlers[h] == ReadyToPush(ip, key, {key})
    ensures Valid(s') && ReachableWithin(cfg, k, s')
    ensures s'.store == s.store[ip := |s.log|] && s'.handlers == s.handlers - {h} && |s'.handlers| == |s.handlers| - 1
  {
    MapRemove(s.handlers, h);
    s' := StepWithin(cfg, k, s, PushNew(h, 0, ""));
  }

  lemma MapInsert(m: map<nat, Handler>, h: nat, v: Handler)
    requires h !in m
    ensures |m[h := v]| == |m| + 1
  {
    assert m[h := v].Keys == m.Keys + {h};
  }

  lemma MapReplace(m: map<nat, Handler>, h: nat, v: Handler)
    requires h in m
    ensures |m[h := v]| == |m|
  {
    assert m[h := v].Keys == m.Keys;
  }

  lemma MapRemove(m: map<nat, Handler>, h: nat)
    requires h in m
    ensures |m - {h}| == |m| - 1
  {
    assert (m - {h}).Keys == m.Keys - {h};
  }

  function Waiting(ip: Ip, key: Pubkey): Handler {
    LengthChecked(Some(ip), true, Some(key))
  }

  /** Requests from distinct addresses, one after another, up to the capacity. */
  lemma {:induction false} FillUp(cfg: Config, k: nat, n: nat, key: Pubkey) returns (s: State)
    requires k >= 1 && n <= AUTH_CHALLENGES_CAPACITY
    ensures Valid(s) && ReachableWithin(cfg, k, s) && s.handlers == map[] && StoreIs(s.store, n)
  {
    if n == 0 {
      s := INIT;
      assert Pending(INIT) == {};
      assert AtMostPending(cfg, [], k) && Exec(cfg, []) == INIT;
    } else {
      var before := FillUp(cfg, k, n - 1, key);
      s := FillOne(cfg, k, before, n - 1, key);
    }
  }

  lemma FillOne(cfg: Config, k: nat, s: State, n: nat, key: Pubkey) returns (s': State)
    requires k >= 1 && n < AUTH_CHALLENGES_CAPACITY
    requires Valid(s) && ReachableWithin(cfg, k, s) && s.handlers == map[] && StoreIs(s.store, n)
    ensures Valid(s') && ReachableWithin(cfg, k, s') && s'.handlers == map[] && StoreIs(s'.store, n + 1)
  {
    var s1 := OneChecks(cfg, k, s, 0, n, key);
    var s2 := OneLooksUp(cfg, k, s1, 0, n, key);
    s' := OneStores(cfg, k, s2, 0, n, key);
    StoreNext(s.store, n, |s2.log|);
  }

  /** The address of the `h`-th of the overlapping handlers. */
  function Address(h: nat): Ip {
    AUTH_CHALLENGES_CAPACITY - 1 + h
  }

  /** Exactly the handlers `from .. to` are past the length check. */
  ghost predicate Waits(s: State, from: nat, to: nat, key: Pubkey) {
    && from <= to && |s.handlers| == to - from
    && (forall h: nat :: h in s.handlers <==> from <= h < to)
    && (forall h: nat :: h in s.handlers ==> s.handlers[h] == Waiting(Address(h), key))
  }

  /** With one place left, `m` handlers pass the length check ... */
  lemma {:induction false} AllPassCheck(cfg: Config, k: nat, m: nat, key: Pubkey) returns (s: State)
    requires 1 <= k && m <= k
    ensures Valid(s) && ReachableWithin(cfg, k, s) && StoreIs(s.store, Address(0)) && Waits(s, 0, m, key)
    decreases m
  {
    if m == 0 {
      s := FillUp(cfg, k, Address(0), key);
    } else {
      var before := AllPassCheck(cfg, k, m - 1, key);
      s := OneChecks(cfg, k, before, m - 1, Address(m - 1), key);
      OneWaiterMore(before, s, m - 1, key);
    }
  }

  lemma OneWaiterMore(s: State, s': State, m: nat, key: Pubkey)
    requires Waits(s, 0, m, key) && s'.handlers == s.handlers[m := Waiting(Address(m), key)]
    ensures Waits(s', 0, m + 1, key)
  {
    MapInsert(s.handlers, m, Waiting(Address(m), key));
  }

  /** ... and then all of them push. */
  lemma {:induction false} AllPush(cfg: Config, k: nat, m: nat, key: Pubkey) returns (s: State)
    requires 1 <= k && m <= k
    ensures Valid(s) && ReachableWithin(cfg, k, s) && StoreIs(s.store, Address(m)) && Waits(s, m, k, key)
    decreases m
  {
    if m == 0 {
      s := AllPassCheck(cfg, k, k, key);
    } else {
      var before := AllPush(cfg, k, m - 1, key);
      s := OnePushes(cfg, k, before, m - 1, key);
    }
  }

  lemma OnePushes(cfg: Config, k: nat, s: State, m: nat, key: Pubkey) returns (s': State)
    requires Valid(s) && ReachableWithin(cfg, k, s) && m < k && StoreIs(s.store, Address(m)) && Waits(s, m, k, key)
    ensures Valid(s') && ReachableWithin(cfg, k, s') && StoreIs(s'.store, Address(m + 1)) && Waits(s', m + 1, k, key)
  {
    var s1 := OneReady(cfg, k, s, m, key);
    s' := OneStores(cfg, k, s1, m, Address(m), key);
    OnePushed(s, s1, s', m, k, key);
  }

  lemma OneReady(cfg: Config, k: nat, s: State, m: nat, key: Pubkey) returns (s': State)
    requires Valid(s) && ReachableWithin(cfg, k, s) && m < k && StoreIs(s.store, Address(m)) && Waits(s, m, k, key)
    ensures Valid(s') && ReachableWithin(cfg, k, s') && s'.store == s.store && s'.log == s.log
    ensures m in s'.handlers && s'.handlers[m] == ReadyToPush(Address(m), key, {key})
    ensures s'.handlers - {m} == s.handlers - {m} && |s'.handlers| <= k
  {
    assert m in s.handlers && s.handlers[m] == Waiting(Address(m), key) && Address(m) !in s.store;
    s' := OneLooksUp(cfg, k, s, m, Address(m), key);
  }

  lemma OnePushed(s: State, s1: State, s': State, m: nat, k: nat, key: Pubkey)
    requires m < k && StoreIs(s.store, Address(m)) && Waits(s, m, k, key)
    requires s1.handlers - {m} == s.handlers - {m}
    requires s'.store == s.store[Address(m) := |s1.log|] && s'.handlers == s1.handlers - {m}
    ensures StoreIs(s'.store, Address(m + 1)) && Waits(s', m + 1, k, key)
  {
    StoreNext(s.store, Address(m), |s1.log|);
    OneWaiterLess(s, s', m, k, key);
  }

  lemma OneWaiterLess(s: State, s': State, m: nat, k: nat, key: Pubkey)
    requires m < k && Waits(s, m, k, key) && s'.handlers == s.handlers - {m}
    ensures Waits(s', m + 1, k, key)
  {
    MapRemove(s.handlers, m);
  }

  /** For every `k` some run that never has more than `k` overlapping handlers stores
      capacity + k - 1 challenges. */
  lemma CapacityBoundIsTight(cfg: Config, k: nat)
    requires k >= 1
    ensures exists run :: AtMostPending(cfg, run, k) && |Exec(cfg, run).store| == AUTH_CHALLENGES_CAPACITY + k - 1
  {
    var s := AllPush(cfg, k, k, 0);
    var run :| AtMostPending(cfg, run, k) && Exec(cfg, run) == s;
  }
}
