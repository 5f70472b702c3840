/** How long a stored challenge stays, and what ends it, for every interleaving of the handlers. */
module AuthLifetimes {
  import opened Common
  import opened Transactions
  import opened AuthChallenges
  import opened AuthService
  import opened AuthRuns

  /** Challenge `k` is the one stored under its address now. */
  ghost predicate IsStored(s: State, k: nat) {
    k < |s.log| && s.log[k].ip in s.store && s.store[s.log[k].ip] == k
  }

  /** The step takes away whatever is stored under `ip`, or removes it as expired: a newer
      challenge for the address, a token pair issued to it, or a cleanup at or after `expires`. */
  ghost predicate Ends(s: State, e: Event, ip: Ip, expires: Time) {
    match e
    case PushNew(h, _, _) => h in s.handlers && s.handlers[h].ReadyToPush? && s.handlers[h].ip0 == ip
    case IssueTokens(h) => h in s.handlers && s.handlers[h].Verified? && s.handlers[h].ip1 == ip
    case Cleanup(now) => expires <= now
    case _ => false
  }

  /** Stored challenges are never rewritten. */
  lemma LogGrows(cfg: Config, s: State, e: Event)
    requires Valid(s)
    ensures s.log <= Step(cfg, s, e).log
  {
  }

  lemma PushEnds(cfg: Config, s: State, h: nat, now: Time, text: string, k: nat)
    requires Valid(s) && k < |s.log|
    ensures IsStored(PushStep(cfg, s, h, now, text), k)
       <==> IsStored(s, k) && !Ends(s, PushNew(h, now, text), s.log[k].ip, s.log[k].challenge.expires)
  {
  }

  lemma IssueEnds(s: State, h: nat, k: nat)
    requires Valid(s) && k < |s.log|
    ensures IsStored(IssueStep(s, h), k)
       <==> IsStored(s, k) && !Ends(s, IssueTokens(h), s.log[k].ip, s.log[k].challenge.expires)
  {
  }

  lemma CleanupEnds(s: State, now: Time, k: nat)
    requires Valid(s) && k < |s.log|
    ensures IsStored(CleanupStep(s, now), k)
       <==> IsStored(s, k) && !Ends(s, Cleanup(now), s.log[k].ip, s.log[k].challenge.expires)
  {
  }

  lemma OthersEndNothing(cfg: Config, s: State, e: Event)
    requires Valid(s) && !e.PushNew? && !e.IssueTokens? && !e.Cleanup?
    ensures Step(cfg, s, e).store == s.store && Step(cfg, s, e).log == s.log
  {
  }

  lemma StepEnds(cfg: Config, s: State, e: Event, k: nat)
    requires Valid(s) && k < |s.log|
    ensures IsStored(Step(cfg, s, e), k)
       <==> IsStored(s, k) && !Ends(s, e, s.log[k].ip, s.log[k].challenge.expires)
  {
    match e {
      case PushNew(h, now, text) => PushEnds(cfg, s, h, now, text, k);
      case IssueTokens(h) => IssueEnds(s, h, k);
      case Cleanup(now) => CleanupEnds(s, now, k);
      case _ => OthersEndNothing(cfg, s, e);
    }
  }

  /** Challenge `k` was stored by the `i`-th event of the run. */
  ghost predicate PushedBy(cfg: Config, run: seq<Event>, i: nat, k: nat) {
    i < |run| && run[i].PushNew? && |Exec(cfg, run[..i]).log| == k < |Exec(cfg, run[..i + 1]).log|
  }

  lemma PushedByPrefix(cfg: Config, run: seq<Event>, n: nat, i: nat, k: nat)
    requires i < n <= |run|
    ensures PushedBy(cfg, run[..n], i, k) == PushedBy(cfg, run, i, k)
  {
    assert run[..n][..i] == run[..i] && run[..n][..i + 1] == run[..i + 1] && run[..n][i] == run[i];
  }

  lemma PushStores(cfg: Config, s: State, e: Event, k: nat)
    requires Valid(s) && e.PushNew? && |s.log| == k < |Step(cfg, s, e).log|
    ensures IsStored(Step(cfg, s, e), k) && Step(cfg, s, e).log[k].challenge.expires == e.now + cfg.challengeTtl
    ensures Step(cfg, s, e).log[k].challenge.challenge == e.text
  {
  }

  /** The `j`-th event takes away what is stored under `ip`. */
  ghost predicate EndsAt(cfg: Config, run: seq<Event>, j: nat, ip: Ip, expires: Time) {
    j < |run| && Ends(Exec(cfg, run[..j]), run[j], ip, expires)
  }

  lemma EndsAtPrefix(cfg: Config, run: seq<Event>, n: nat, j: nat, ip: Ip, expires: Time)
    requires j < n <= |run|
    ensures EndsAt(cfg, run[..n], j, ip, expires) == EndsAt(cfg, run, j, ip, expires)
  {
    assert run[..n][..j] == run[..j] && run[..n][j] == run[j];
  }

  /** Some event after the `i`-th does. */
  ghost predicate EndedSince(cfg: Config, run: seq<Event>, i: nat, ip: Ip, expires: Time) {
    exists j: nat :: i < j && EndsAt(cfg, run, j, ip, expires)
  }

  lemma EndedSinceStep(cfg: Config, run: seq<Event>, n: nat, i: nat, ip: Ip, expires: Time)
    requires i < n == |run| - 1
    ensures EndedSince(cfg, run, i, ip, expires) <==> EndedSince(cfg, run[..n], i, ip, expires) || EndsAt(cfg, run, n, ip, expires)
  {
    if j: nat :| i < j && EndsAt(cfg, run[..n], j, ip, expires) {
      EndsAtPrefix(cfg, run, n, j, ip, expires);
    }
    if j: nat :| i < j && EndsAt(cfg, run, j, ip, expires) {
      if j < n {
        EndsAtPrefix(cfg, run, n, j, ip, expires);
      }
    }
  }

  /** Challenge `k` is stored exactly as long as no event since the `i`-th ended it. */
  ghost predicate StoredAsLong(cfg: Config, run: seq<Event>, i: nat, k: nat) {
    var s := Exec(cfg, run);
    k < |s.log| && (IsStored(s, k) <==> !EndedSince(cfg, run, i, s.log[k].ip, s.log[k].challenge.expires))
  }

  lemma StoredStep(cfg: Config, s: State, e: Event, k: nat, ended: bool)
    requires Valid(s) && k < |s.log| && (IsStored(s, k) <==> !ended)
    ensures k < |Step(cfg, s, e).log| && Step(cfg, s, e).log[k] == s.log[k]
    ensures IsStored(Step(cfg, s, e), k) <==> !(ended || Ends(s, e, s.log[k].ip, s.log[k].challenge.expires))
  {
    LogGrows(cfg, s, e);
    StepEnds(cfg, s, e, k);
  }

  lemma LastStep(cfg: Config, run: seq<Event>, n: nat)
    requires n == |run| - 1
    ensures Exec(cfg, run) == Step(cfg, Exec(cfg, run[..n]), run[n])
  {
  }

  lemma StoredAsLongStep(cfg: Config, run: seq<Event>, n: nat, i: nat, k: nat)
    requires i < n == |run| - 1 && StoredAsLong(cfg, run[..n], i, k)
    ensures StoredAsLong(cfg, run, i, k)
  {
    var s := Exec(cfg, run[..n]);
    var ip, expires := s.log[k].ip, s.log[k].challenge.expires;
    LastStep(cfg, run, n);
    StoredStep(cfg, s, run[n], k, EndedSince(cfg, run[..n], i, ip, expires));
    EndedSinceStep(cfg, run, n, i, ip, expires);
  }

  lemma StoredAtFirst(cfg: Config, run: seq<Event>, i: nat, k: nat)
    requires PushedBy(cfg, run, i, k) && i == |run| - 1
    ensures StoredAsLong(cfg, run, i, k)
  {
    assert run[..i + 1] == run;
    PushStores(cfg, Exec(cfg, run[..i]), run[i], k);
  }

  /** A challenge stored by the `i`-th event is still stored exactly if since then no newer
      challenge replaced it, no token pair was issued to its address, and no cleanup came
      at or after its expiry. */
  lemma {:induction false} StoredUntilEnded(cfg: Config, run: seq<Event>, i: nat, k: nat)
    requires PushedBy(cfg, run, i, k)
    ensures StoredAsLong(cfg, run, i, k)
  {
    var n := |run| - 1;
    if i == n {
      StoredAtFirst(cfg, run, i, k);
    } else {
      PushedByPrefix(cfg, run, n, i, k);
      StoredUntilEnded(cfg, run[..n], i, k);
      StoredAsLongStep(cfg, run, n, i, k);
    }
  }

  /** Handler `h` is about to issue tokens for challenge `k`. */
  ghost predicate Admitted(s: State, h: nat, k: nat, signature: Signature) {
    k < |s.log| && h in s.handlers && s.handlers[h] == Verified(s.log[k].ip, k, signature)
  }

  /** The response that challenge `stored` asks for, from its address, to a healthy relayer. */
  ghost predicate RightResponse(
    cfg: Config, stored: Stored, healthy: bool, ip: Option<Ip>, key: Option<Pubkey>, text: string, signature: Signature)
  {
    && healthy && ip == Some(stored.ip)
    && key == Some(stored.challenge.accessClaims.clientPubkey)
    && text == cfg.show(key.value) + "-" + stored.challenge.challenge
    && signature == Signed(key.value, text)
  }

  /** Nothing since the push of challenge `k` by the `i`-th event has ended it. */
  ghost predicate Unended(cfg: Config, run: seq<Event>, i: nat, k: nat) {
    k < |Exec(cfg, run).log| && !EndedSince(cfg, run, i, Exec(cfg, run).log[k].ip, Exec(cfg, run).log[k].challenge.expires)
  }

  /** After any run a response to a challenge is admitted exactly if it is the right
      response and nothing has ended the challenge. Time plays no part of its own: an
      expired challenge is refused exactly when a cleanup has come since it expired, or when
      it was replaced or used. */
  lemma {:induction false} ExpiryOnlyThroughCleanup(
    cfg: Config, run: seq<Event>, i: nat, k: nat,
    h: nat, healthy: bool, ip: Option<Ip>, key: Option<Pubkey>, text: string, signature: Signature)
    requires PushedBy(cfg, run, i, k) && h !in Exec(cfg, run).handlers
    ensures k < |Exec(cfg, run).log|
    ensures Admitted(Step(cfg, Exec(cfg, run), Respond(h, healthy, ip, key, text, signature)), h, k, signature)
       <==> RightResponse(cfg, Exec(cfg, run).log[k], healthy, ip, key, text, signature) && Unended(cfg, run, i, k)
  {
    StoredUntilEnded(cfg, run, i, k);
    ResponseAdmitted(cfg, Exec(cfg, run), k, h, healthy, ip, key, text, signature);
  }

  lemma ResponseAdmitted(
    cfg: Config, s: State, k: nat,
    h: nat, healthy: bool, ip: Option<Ip>, key: Option<Pubkey>, text: string, signature: Signature)
    requires Valid(s) && k < |s.log| && h !in s.handlers
    ensures Admitted(RespondStep(cfg, s, h, healthy, ip, key, text, signature), h, k, signature)
       <==> RightResponse(cfg, s.log[k], healthy, ip, key, text, signature) && IsStored(s, k)
  {
  }

  // ---------- how long a challenge is stored ----------

  /** The clock reading of an event that pushes or cleans up. */
  function Reading(e: Event): Option<Time> {
    match e
    case PushNew(_, now, _) => Some(now)
    case Cleanup(now) => Some(now)
    case _ => None
  }

  /** Pushes and cleanups read a clock that does not run backwards. */
  ghost predicate ReadingsOrdered(start: Time, run: seq<Event>) {
    && (forall i :: 0 <= i < |run| && Reading(run[i]).Some? ==> start <= Reading(run[i]).value)
    && (forall i, j :: 0 <= i < j < |run| && Reading(run[i]).Some? && Reading(run[j]).Some?
                       ==> Reading(run[i]).value <= Reading(run[j]).value)
  }

  function LastCleanup(start: Time, run: seq<Event>): Time {
    if run == [] then start
    else if run[|run| - 1].Cleanup? then run[|run| - 1].now
    else LastCleanup(start, run[..|run| - 1])
  }

  lemma {:induction false} CleanupInPast(start: Time, run: seq<Event>, now: Time)
    requires start <= now
    requires forall i :: 0 <= i < |run| && Reading(run[i]).Some? ==> Reading(run[i]).value <= now
    ensures LastCleanup(start, run) <= now
  {
    if run != [] {
      assert run[|run| - 1].Cleanup? ==> Reading(run[|run| - 1]).Some?;
      CleanupInPast(start, run[..|run| - 1], now);
    }
  }

  /** Nothing stored had expired at the last cleanup. */
  ghost predicate CleanedUp(s: State, last: Time)
    requires Valid(s)
  {
    forall ip :: ip in s.store ==> last <= s.log[s.store[ip]].challenge.expires
  }

  lemma CleanedUpStep(cfg: Config, s: State, e: Event, last: Time)
    requires Valid(s) && CleanedUp(s, last) && (e.PushNew? ==> last <= e.now)
    ensures CleanedUp(Step(cfg, s, e), if e.Cleanup? then e.now else last)
  {
    match e {
      case PushNew(h, now, text) => PushKeepsCleanedUp(cfg, s, h, now, text, last);
      case IssueTokens(h) => assert IssueStep(s, h).log == s.log;
      case Cleanup(now) =>
      case _ => OthersEndNothing(cfg, s, e);
    }
  }

  lemma PushKeepsCleanedUp(cfg: Config, s: State, h: nat, now: Time, text: string, last: Time)
    requires Valid(s) && CleanedUp(s, last) && last <= now
    ensures CleanedUp(PushStep(cfg, s, h, now, text), last)
  {
  }

  lemma {:induction false} AlwaysCleanedUp(cfg: Config, start: Time, run: seq<Event>)
    requires ReadingsOrdered(start, run)
    ensures CleanedUp(Exec(cfg, run), LastCleanup(start, run))
  {
    if run != [] {
      var n := |run| - 1;
      AlwaysCleanedUp(cfg, start, run[..n]);
      if run[n].PushNew? {
        assert Reading(run[n]) == Some(run[n].now);
        CleanupInPast(start, run[..n], run[n].now);
      }
      CleanedUpStep(cfg, Exec(cfg, run[..n]), run[n], LastCleanup(start, run[..n]));
    }
  }

  lemma {:induction false} LoggedWasPushed(cfg: Config, run: seq<Event>, k: nat) returns (i: nat)
    requires k < |Exec(cfg, run).log|
    ensures PushedBy(cfg, run, i, k) && Exec(cfg, run).log[k].challenge.expires == run[i].now + cfg.challengeTtl
  {
    var n := |run| - 1;
    var s, e := Exec(cfg, run[..n]), run[n];
    LogGrows(cfg, s, e);
    if k < |s.log| {
      i := LoggedWasPushed(cfg, run[..n], k);
      PushedByPrefix(cfg, run, n, i, k);
    } else {
      i := n;
      assert run[..n + 1] == run;
      OnlyPushesLog(cfg, s, e);
      PushStores(cfg, s, e, k);
    }
  }

  lemma OnlyPushesLog(cfg: Config, s: State, e: Event)
    requires Valid(s) && |Step(cfg, s, e).log| > |s.log|
    ensures e.PushNew? && |Step(cfg, s, e).log| == |s.log| + 1
  {
  }

  /** With cleanups on time (the next one no later than `interval` after the last; the
      first at once) every stored challenge was pushed at most its lifetime plus one
      interval ago, whatever the handlers do in between. */
  lemma StorageTimeBounded(cfg: Config, start: Time, run: seq<Event>, interval: Time, ip: Ip, now: Time)
    requires ReadingsOrdered(start, run) && now <= LastCleanup(start, run) + interval
    requires ip in Exec(cfg, run).store
    ensures exists i: nat :: PushedBy(cfg, run, i, Exec(cfg, run).store[ip]) && now <= run[i].now + cfg.challengeTtl + interval
  {
    AlwaysCleanedUp(cfg, start, run);
    var i := LoggedWasPushed(cfg, run, Exec(cfg, run).store[ip]);
  }
}
