/** Properties of whole runs of the authentication service, for every interleaving of its handlers. */
module AuthRuns {
  import opened Common
  import opened Transactions
  import opened AuthChallenges
  import opened AuthService

  // ---------- token provenance ----------

  /** Both claim sets name the address the challenge is stored under and one key, which
      was authorized when the request was checked; challenge and tokens live as configured. */
  ghost predicate GoodEntry(cfg: Config, e: Stored) {
    var c := e.challenge;
    && c.accessClaims.clientIp == e.ip && c.refreshClaims.clientIp == e.ip
    && c.accessClaims.clientPubkey == c.refreshClaims.clientPubkey
    && c.accessClaims.clientPubkey in e.authorized
    && c.expires >= cfg.challengeTtl
    && var storedAt := c.expires - cfg.challengeTtl;
       c.accessClaims.expires == storedAt + cfg.accessTtl && c.refreshClaims.expires == storedAt + cfg.refreshTtl
  }

  /** The response was signed by the key the challenge was generated for, over the key as
      printed, a dash, and the challenge. */
  ghost predicate SignedFor(cfg: Config, e: Stored, signature: Signature) {
    var key := e.challenge.accessClaims.clientPubkey;
    signature == Signed(key, cfg.show(key) + "-" + e.challenge.challenge)
  }

  ghost predicate GoodHandler(cfg: Config, s: State, h: Handler) {
    match h
    case LengthChecked(_, _, _) => true
    case ReadyToPush(_, key, authorized) => key in authorized
    case Verified(_, index, signature) => index < |s.log| && SignedFor(cfg, s.log[index], signature)
  }

  /** Straight from a signed challenge: its owner, and the expiry time for the kind in whole seconds. */
  ghost predicate FromEntry(cfg: Config, e: Stored, signature: Signature, kind: Kind, t: Token) {
    && SignedFor(cfg, e, signature)
    && t.clientIp == e.ip && t.clientPubkey == e.challenge.accessClaims.clientPubkey
    && t.expiresSecs == (if kind.OfAccess? then e.challenge.accessClaims else e.challenge.refreshClaims).expires / SECOND
  }

  /** From a token presented at `at` before it expired: same owner, a fresh access lifetime. */
  ghost predicate Renews(cfg: Config, parent: Token, t: Token, at: Time) {
    && t.clientIp == parent.clientIp && t.clientPubkey == parent.clientPubkey
    && at < parent.expiresSecs * SECOND && t.expiresSecs == (at + cfg.accessTtl) / SECOND
  }

  /** The token comes from a signed challenge, or from an earlier token. */
  ghost predicate GoodIssue(cfg: Config, s: State, i: nat)
    requires i < |s.issued|
  {
    match s.issued[i].origin
    case FromChallenge(index, signature, kind) => index < |s.log| && FromEntry(cfg, s.log[index], signature, kind, s.issued[i].token)
    case FromRefresh(parent, at) => parent < i && Renews(cfg, s.issued[parent].token, s.issued[i].token, at)
  }

  ghost predicate Provenance(cfg: Config, s: State) {
    && (forall k :: 0 <= k < |s.log| ==> GoodEntry(cfg, s.log[k]))
    && (forall h :: h in s.handlers ==> GoodHandler(cfg, s, s.handlers[h]))
    && (forall i :: 0 <= i < |s.issued| ==> GoodIssue(cfg, s, i))
  }

  lemma ProvenanceStep(cfg: Config, s: State, e: Event)
    requires Valid(s) && Provenance(cfg, s)
    ensures Provenance(cfg, Step(cfg, s, e))
  {
    var s' := Step(cfg, s, e);
    if s' != s {
      match e {
        case IssueTokens(h) => IssueKeepsProvenance(cfg, s, h);
        case Refresh(healthy, presented, now) => RefreshKeepsProvenance(cfg, s, e);
        case PushNew(h, now, text) => PushKeepsProvenance(cfg, s, h, now, text);
        case _ => OtherStepsKeepProvenance(cfg, s, e);
      }
    }
  }

  lemma OtherStepsKeepProvenance(cfg: Config, s: State, e: Event)
    requires Valid(s) && Provenance(cfg, s) && !e.IssueTokens? && !e.Refresh? && !e.PushNew?
    ensures Provenance(cfg, Step(cfg, s, e))
  {
    var s' := Step(cfg, s, e);
    assert s'.log == s.log && s'.issued == s.issued;
    forall h | h in s'.handlers ensures GoodHandler(cfg, s', s'.handlers[h]) {
      assert h in s.handlers ==> GoodHandler(cfg, s, s.handlers[h]);
    }
    forall i | 0 <= i < |s'.issued| ensures GoodIssue(cfg, s', i) {
      assert GoodIssue(cfg, s, i);
    }
  }

  lemma PushKeepsProvenance(cfg: Config, s: State, h: nat, now: Time, text: string)
    requires Valid(s) && Provenance(cfg, s)
    ensures Provenance(cfg, Step(cfg, s, PushNew(h, now, text)))
  {
    var s' := Step(cfg, s, PushNew(h, now, text));
    assert s.log <= s'.log && s'.issued == s.issued;
    forall k | k in s'.handlers ensures GoodHandler(cfg, s', s'.handlers[k]) {
      assert GoodHandler(cfg, s, s.handlers[k]);
    }
    forall i | 0 <= i < |s'.issued| ensures GoodIssue(cfg, s', i) {
      assert GoodIssue(cfg, s, i);
    }
    if s' != s {
      assert GoodHandler(cfg, s, s.handlers[h]);
    }
  }

  lemma IssueKeepsProvenance(cfg: Config, s: State, h: nat)
    requires Valid(s) && Provenance(cfg, s)
    ensures Provenance(cfg, Step(cfg, s, IssueTokens(h)))
  {
    var s' := Step(cfg, s, IssueTokens(h));
    assert s'.log == s.log && s.issued <= s'.issued;
    if s' != s {
      assert GoodHandler(cfg, s, s.handlers[h]) && GoodEntry(cfg, s.log[s.handlers[h].index]);
    }
    forall i | 0 <= i < |s'.issued| ensures GoodIssue(cfg, s', i) {
      if i < |s.issued| {
        assert GoodIssue(cfg, s, i);
      }
    }
  }

  lemma RefreshKeepsProvenance(cfg: Config, s: State, e: Event)
    requires Valid(s) && Provenance(cfg, s) && e.Refresh?
    ensures Provenance(cfg, Step(cfg, s, e))
  {
    var s' := Step(cfg, s, e);
    assert s'.log == s.log && s.issued <= s'.issued && s'.handlers == s.handlers;
    forall i | 0 <= i < |s'.issued| ensures GoodIssue(cfg, s', i) {
      if i < |s.issued| {
        assert GoodIssue(cfg, s, i);
      }
    }
  }

  lemma {:induction false} ProvenanceInvariant(cfg: Config, run: seq<Event>)
    ensures Provenance(cfg, Exec(cfg, run))
  {
    if run != [] {
      ProvenanceInvariant(cfg, run[..|run| - 1]);
      ProvenanceStep(cfg, Exec(cfg, run[..|run| - 1]), run[|run| - 1]);
    }
  }

  /** Follows a chain of refreshes back to its start. */
  ghost function Root(issued: seq<Issue>, i: nat): nat
    requires i < |issued|
    decreases i
  {
    match issued[i].origin
    case FromChallenge(_, _, _) => i
    case FromRefresh(parent, _) => if parent < i then Root(issued, parent) else i
  }

  /** Every link of the chain was made by presenting an unexpired token. */
  ghost predicate LinksUnexpired(cfg: Config, issued: seq<Issue>, i: nat)
    requires i < |issued|
    decreases i
  {
    match issued[i].origin
    case FromChallenge(_, _, _) => true
    case FromRefresh(parent, at) =>
      parent < i && Renews(cfg, issued[parent].token, issued[i].token, at) && LinksUnexpired(cfg, issued, parent)
  }

  lemma {:induction false} ChainKeepsOwner(cfg: Config, s: State, i: nat)
    requires Provenance(cfg, s) && i < |s.issued|
    ensures Root(s.issued, i) < |s.issued| && s.issued[Root(s.issued, i)].origin.FromChallenge?
    ensures s.issued[Root(s.issued, i)].token.clientIp == s.issued[i].token.clientIp
    ensures s.issued[Root(s.issued, i)].token.clientPubkey == s.issued[i].token.clientPubkey
    ensures LinksUnexpired(cfg, s.issued, i)
    decreases i
  {
    assert GoodIssue(cfg, s, i);
    if s.issued[i].origin.FromRefresh? {
      ChainKeepsOwner(cfg, s, s.issued[i].origin.parent);
    }
  }

  /** The token carries the address and key of a challenge that was stored under that
      address when the key was authorized; its chain of refreshes starts with a token of
      that challenge, handed out for a signature by that key over `pubkey-challenge`, and
      no link of it was made with an expired token. */
  ghost predicate HasOrigin(cfg: Config, s: State, i: nat) {
    && i < |s.issued| && LinksUnexpired(cfg, s.issued, i)
    && var r := Root(s.issued, i);
       && r < |s.issued| && s.issued[r].origin.FromChallenge?
       && var index := s.issued[r].origin.index;
          && index < |s.log| && GoodEntry(cfg, s.log[index])
          && FromEntry(cfg, s.log[index], s.issued[r].origin.signature, s.issued[r].origin.kind, s.issued[r].token)
          && s.issued[i].token.clientIp == s.log[index].ip
          && s.issued[i].token.clientPubkey == s.log[index].challenge.accessClaims.clientPubkey
  }

  lemma ProvenanceGivesOrigin(cfg: Config, s: State, i: nat)
    requires Provenance(cfg, s) && i < |s.issued|
    ensures HasOrigin(cfg, s, i)
  {
    ChainKeepsOwner(cfg, s, i);
    var r := Root(s.issued, i);
    assert GoodIssue(cfg, s, r);
    assert GoodEntry(cfg, s.log[s.issued[r].origin.index]);
  }

  /** So it is for every token ever issued, through any chain of refreshes and any
      interleaving of the handlers. */
  lemma {:induction false} TokenProvenance(cfg: Config, run: seq<Event>, i: nat)
    requires i < |Exec(cfg, run).issued|
    ensures HasOrigin(cfg, Exec(cfg, run), i)
  {
    ProvenanceInvariant(cfg, run);
    ProvenanceGivesOrigin(cfg, Exec(cfg, run), i);
  }

  /** Where the `i`-th token came from is on record. */
  ghost predicate OnRecord(cfg: Config, s: State, i: nat) {
    && i < |s.issued|
    && (s.issued[i].origin.FromChallenge? ==>
          s.issued[i].origin.index < |s.log| && s.log[s.issued[i].origin.index].challenge.expires >= cfg.challengeTtl)
  }

  /** When the `i`-th token stops being accepted: the lifetime configured for its kind from
      the moment its challenge was stored, or an access lifetime from the moment it was
      refreshed. */
  ghost function ExpiryOf(cfg: Config, s: State, i: nat): Time
    requires OnRecord(cfg, s, i)
  {
    match s.issued[i].origin
    case FromChallenge(index, _, kind) =>
      s.log[index].challenge.expires - cfg.challengeTtl + (if kind.OfAccess? then cfg.accessTtl else cfg.refreshTtl)
    case FromRefresh(_, at) => at + cfg.accessTtl
  }

  /** Presenting the `i`-th token gets a new access token. */
  ghost predicate Renewed(cfg: Config, s: State, healthy: bool, i: nat, now: Time)
    requires Valid(s)
  {
    |Step(cfg, s, Refresh(healthy, i, now)).issued| > |s.issued|
  }

  lemma ExpiryOfToken(cfg: Config, s: State, i: nat)
    requires Provenance(cfg, s) && i < |s.issued|
    ensures OnRecord(cfg, s, i) && s.issued[i].token.expiresSecs == ExpiryOf(cfg, s, i) / SECOND
  {
    assert GoodIssue(cfg, s, i);
    if s.issued[i].origin.FromChallenge? {
      assert GoodEntry(cfg, s.log[s.issued[i].origin.index]);
    }
  }

  /** A presented token gets a new access token exactly until its own expiry, cut to whole
      seconds; whether it is an access token, a refresh token or the product of a refresh
      makes no other difference. */
  lemma {:induction false} AcceptedByExpiryAlone(cfg: Config, run: seq<Event>, i: nat, healthy: bool, now: Time)
    requires i < |Exec(cfg, run).issued|
    ensures OnRecord(cfg, Exec(cfg, run), i)
    ensures Renewed(cfg, Exec(cfg, run), healthy, i, now)
         <==> healthy && now < ExpiryOf(cfg, Exec(cfg, run), i) / SECOND * SECOND
  {
    ProvenanceInvariant(cfg, run);
    ExpiryOfToken(cfg, Exec(cfg, run), i);
  }

  // ---------- capacity ----------

  /** Handlers between the length check and the push. */
  ghost function Pending(s: State): set<nat> {
    set h | h in s.handlers && !s.handlers[h].Verified?
  }

  /** At most `k` handlers are between the length check and the push at any moment. */
  ghost predicate AtMostPending(cfg: Config, run: seq<Event>, k: nat) {
    |Pending(Exec(cfg, run))| <= k && (run == [] || AtMostPending(cfg, run[..|run| - 1], k))
  }

  lemma StoreGrowth(store: map<Ip, nat>, ip: Ip, k: nat)
    ensures |store[ip := k]| <= |store| + 1
    ensures |store - {ip}| <= |store|
  {
    assert store[ip := k].Keys == store.Keys + {ip};
    assert (store - {ip}).Keys <= store.Keys;
    SubsetSize((store - {ip}).Keys, store.Keys);
  }

  /** What a step may do to the store and to the waiting handlers: shrink both, let a
      handler in below the capacity, or turn a waiting handler into a stored challenge. */
  ghost predicate StoreChange(s: State, s': State) {
    || (|s'.store| <= |s.store| && |Pending(s')| <= |Pending(s)|)
    || (|s.store| < AUTH_CHALLENGES_CAPACITY && s'.store == s.store)
    || (|s'.store| <= |s.store| + 1 && |Pending(s')| < |Pending(s)|)
  }

  lemma FinishStore(s: State, h: nat)
    ensures StoreChange(s, Finish(s, h)) && |Pending(Finish(s, h))| <= |Pending(s)|
  {
    SubsetSize(Pending(Finish(s, h)), Pending(s));
  }

  lemma LookUpStore(s: State, h: nat, now: Time, authorized: set<Pubkey>)
    requires Valid(s)
    ensures StoreChange(s, LookUpStep(s, h, now, authorized))
  {
    var s' := LookUpStep(s, h, now, authorized);
    SubsetSize(Pending(s'), Pending(s));
  }

  lemma PushStore(cfg: Config, s: State, h: nat, now: Time, text: string)
    requires Valid(s)
    ensures StoreChange(s, PushStep(cfg, s, h, now, text))
  {
    var s' := PushStep(cfg, s, h, now, text);
    if s' != s {
      StoreGrowth(s.store, s.handlers[h].ip0, |s.log|);
      assert Pending(s') == Pending(s) - {h} && h in Pending(s);
    }
  }

  lemma RespondStore(cfg: Config, s: State, h: nat, healthy: bool, ip: Option<Ip>, key: Option<Pubkey>, text: string, signature: Signature)
    requires Valid(s)
    ensures StoreChange(s, RespondStep(cfg, s, h, healthy, ip, key, text, signature))
  {
    var s' := RespondStep(cfg, s, h, healthy, ip, key, text, signature);
    assert Pending(s') == Pending(s);
  }

  lemma IssueStore(s: State, h: nat)
    requires Valid(s)
    ensures StoreChange(s, IssueStep(s, h))
  {
    var s' := IssueStep(s, h);
    IssuePending(s, h);
    if s' != s {
      StoreGrowth(s.store, s.handlers[h].ip1, 0);
    }
  }

  lemma IssuePending(s: State, h: nat)
    requires Valid(s)
    ensures Pending(IssueStep(s, h)) == Pending(s)
  {
  }

  lemma CleanupStore(s: State, now: Time)
    requires Valid(s)
    ensures StoreChange(s, CleanupStep(s, now)) && |CleanupStep(s, now).store| <= |s.store|
  {
    SubsetSize(CleanupStep(s, now).store.Keys, s.store.Keys);
  }

  lemma CheckLengthStore(s: State, h: nat, healthy: bool, next: Handler)
    requires Valid(s) && next.LengthChecked?
    ensures StoreChange(s, CheckLengthStep(s, h, healthy, next))
  {
  }

  lemma RefreshStore(cfg: Config, s: State, healthy: bool, presented: nat, now: Time)
    requires Valid(s)
    ensures StoreChange(s, RefreshStep(cfg, s, healthy, presented, now))
  {
    assert Pending(RefreshStep(cfg, s, healthy, presented, now)) == Pending(s);
  }

  lemma StoreStep(cfg: Config, s: State, e: Event)
    requires Valid(s)
    ensures StoreChange(s, Step(cfg, s, e))
  {
    if e.CheckLength? || e.LookUp? || e.PushNew? {
      ChallengeStoreStep(cfg, s, e);
    } else {
      OtherStoreStep(cfg, s, e);
    }
  }

  lemma ChallengeStoreStep(cfg: Config, s: State, e: Event)
    requires Valid(s) && (e.CheckLength? || e.LookUp? || e.PushNew?)
    ensures StoreChange(s, Step(cfg, s, e))
  {
    match e {
      case CheckLength(h, healthy, ip, isValidator, pubkey) => CheckLengthStore(s, h, healthy, LengthChecked(ip, isValidator, pubkey));
      case LookUp(h, now, authorized) => LookUpStore(s, h, now, authorized);
      case PushNew(h, now, text) => PushStore(cfg, s, h, now, text);
    }
  }

  lemma OtherStoreStep(cfg: Config, s: State, e: Event)
    requires Valid(s) && !e.CheckLength? && !e.LookUp? && !e.PushNew?
    ensures StoreChange(s, Step(cfg, s, e))
  {
    match e {
      case Respond(h, healthy, ip, key, text, signature) => RespondStore(cfg, s, h, healthy, ip, key, text, signature);
      case IssueTokens(h) => IssueStore(s, h);
      case Refresh(healthy, presented, now) => RefreshStore(cfg, s, healthy, presented, now);
      case Cleanup(now) => CleanupStore(s, now);
      case Abandon(h) => FinishStore(s, h);
    }
  }

  lemma {:induction false} StorePlusPending(cfg: Config, run: seq<Event>, k: nat)
    requires k >= 1 && AtMostPending(cfg, run, k)
    ensures |Exec(cfg, run).store| + |Pending(Exec(cfg, run))| < AUTH_CHALLENGES_CAPACITY + k
  {
    if run == [] {
      assert Pending(INIT) == {};
    } else {
      StorePlusPending(cfg, run[..|run| - 1], k);
      StoreStep(cfg, Exec(cfg, run[..|run| - 1]), run[|run| - 1]);
    }
  }

  /** If at most `k` handlers are ever between the length check and the push, the store
      holds at most capacity + k - 1 challenges; with atomic handlers, the capacity. */
  lemma CapacityUnderInterleaving(cfg: Config, run: seq<Event>, k: nat)
    requires k >= 1 && AtMostPending(cfg, run, k)
    ensures |Exec(cfg, run).store| <= AUTH_CHALLENGES_CAPACITY + k - 1
  {
    StorePlusPending(cfg, run, k);
  }

  lemma {:induction false} AtomicKeepsCapacity(cfg: Config, s: State, c: Call)
    requires Valid(s) && s.handlers == map[] && |s.store| <= AUTH_CHALLENGES_CAPACITY
    ensures Atomic(cfg, s, c).handlers == map[] && |Atomic(cfg, s, c).store| <= AUTH_CHALLENGES_CAPACITY
  {
    match c {
      case GenerateChallenge(_, _, _, _, _, _, _) =>
        ChallengeRequestEffect(cfg, s, c);
        if StoresNew(s, c) {
          StoreGrowth(s.store, c.ip.value, |s.log|);
        }
      case GenerateTokens(_, _, _, _, _) =>
        TokenRequestEffect(cfg, s, c);
        if c.ip.Some? {
          StoreGrowth(s.store, c.ip.value, 0);
        }
      case RefreshToken(_, _, _) =>
      case ExpireChallenges(now) => CleanupStore(s, now);
    }
  }

  // ---------- one token pair per challenge ----------

  /** Token pairs issued for challenge `k`. */
  ghost function PairsOf(s: State, k: nat): set<nat> {
    set i | 0 <= i < |s.pairs| && s.pairs[i] == k
  }

  /** Handlers that have looked up challenge `k` and not yet removed it. */
  ghost function HoldersOf(s: State, k: nat): set<nat> {
    set h | h in s.handlers && s.handlers[h].Verified? && s.handlers[h].index == k
  }

  /** A challenge that yielded tokens is no longer stored: removal is by address, and a
      challenge is only ever stored under its own. */
  ghost predicate PairedIsGone(s: State) {
    && (forall i :: 0 <= i < |s.pairs| ==> s.pairs[i] < |s.log|)
    && (forall ip, i :: ip in s.store && 0 <= i < |s.pairs| ==> s.store[ip] != s.pairs[i])
  }

  lemma PairedIsGoneIssue(s: State, h: nat)
    requires Valid(s) && PairedIsGone(s)
    ensures PairedIsGone(IssueStep(s, h))
  {
  }

  lemma PairedIsGonePush(cfg: Config, s: State, h: nat, now: Time, text: string)
    requires Valid(s) && PairedIsGone(s)
    ensures PairedIsGone(PushStep(cfg, s, h, now, text))
  {
  }

  lemma PairedIsGoneStep(cfg: Config, s: State, e: Event)
    requires Valid(s) && PairedIsGone(s)
    ensures PairedIsGone(Step(cfg, s, e))
  {
    match e {
      case IssueTokens(h) => PairedIsGoneIssue(s, h);
      case PushNew(h, now, text) => PairedIsGonePush(cfg, s, h, now, text);
      case _ =>
        assert Step(cfg, s, e).pairs == s.pairs && Step(cfg, s, e).log == s.log;
        assert forall ip :: ip in Step(cfg, s, e).store ==> ip in s.store && Step(cfg, s, e).store[ip] == s.store[ip];
    }
  }

  lemma {:induction false} PairedIsGoneInvariant(cfg: Config, run: seq<Event>)
    ensures PairedIsGone(Exec(cfg, run))
  {
    if run != [] {
      PairedIsGoneInvariant(cfg, run[..|run| - 1]);
      PairedIsGoneStep(cfg, Exec(cfg, run[..|run| - 1]), run[|run| - 1]);
    }
  }

  /** How a step changes the pairs and holders of one challenge: not at all, one more
      look-up while there is no pair yet, a holder turned into a pair, a holder lost. */
  ghost predicate PairChange(s: State, s': State, k: nat, abandon: bool) {
    || (PairsOf(s', k) == PairsOf(s, k) && HoldersOf(s', k) == HoldersOf(s, k))
    || (PairsOf(s', k) == PairsOf(s, k) == {} && |HoldersOf(s', k)| == |HoldersOf(s, k)| + 1)
    || (|PairsOf(s', k)| == |PairsOf(s, k)| + 1 && |HoldersOf(s', k)| == |HoldersOf(s, k)| - 1)
    || (abandon && PairsOf(s', k) == PairsOf(s, k) && |HoldersOf(s', k)| < |HoldersOf(s, k)|)
  }

  lemma StoredHasNoPair(s: State, ip: Ip)
    requires PairedIsGone(s) && ip in s.store
    ensures PairsOf(s, s.store[ip]) == {}
  {
  }

  lemma HolderAdded(s: State, h: nat, next: Handler, k: nat)
    requires h !in s.handlers && next.Verified?
    ensures var s' := s.(handlers := s.handlers[h := next]);
            if next.index == k then |HoldersOf(s', k)| == |HoldersOf(s, k)| + 1 else HoldersOf(s', k) == HoldersOf(s, k)
  {
    var s' := s.(handlers := s.handlers[h := next]);
    assert HoldersOf(s', k) == if next.index == k then HoldersOf(s, k) + {h} else HoldersOf(s, k);
  }

  lemma RespondPairs(cfg: Config, s: State, h: nat, healthy: bool, ip: Option<Ip>, key: Option<Pubkey>, text: string, signature: Signature, k: nat)
    requires Valid(s) && PairedIsGone(s)
    ensures PairChange(s, RespondStep(cfg, s, h, healthy, ip, key, text, signature), k, false)
  {
    var s' := RespondStep(cfg, s, h, healthy, ip, key, text, signature);
    if s' != s {
      HolderAdded(s, h, s'.handlers[h], k);
      StoredHasNoPair(s, ip.value);
      assert PairsOf(s', k) == PairsOf(s, k);
    }
  }

  lemma IssuePairs(s: State, h: nat, k: nat)
    requires Valid(s)
    ensures PairChange(s, IssueStep(s, h), k, false)
  {
    var s' := IssueStep(s, h);
    if s' != s {
      PairsAppend(s, s', s.handlers[h].index, k);
      if s.handlers[h].index == k {
        assert HoldersOf(s', k) == HoldersOf(s, k) - {h} && h in HoldersOf(s, k);
      } else {
        assert HoldersOf(s', k) == HoldersOf(s, k);
      }
    }
  }

  lemma PairsAppend(s: State, s': State, index: nat, k: nat)
    requires s'.pairs == s.pairs + [index]
    ensures PairsOf(s', k) == PairsOf(s, k) + (if index == k then {|s.pairs|} else {})
  {
  }

  lemma FinishPairs(s: State, h: nat, k: nat)
    ensures PairChange(s, Finish(s, h), k, true)
  {
    if h in HoldersOf(s, k) {
      assert HoldersOf(Finish(s, h), k) == HoldersOf(s, k) - {h};
    } else {
      assert HoldersOf(Finish(s, h), k) == HoldersOf(s, k);
    }
  }

  lemma LookUpPairs(s: State, h: nat, now: Time, authorized: set<Pubkey>, k: nat)
    requires Valid(s)
    ensures PairChange(s, LookUpStep(s, h, now, authorized), k, false)
  {
    assert HoldersOf(LookUpStep(s, h, now, authorized), k) == HoldersOf(s, k);
  }

  lemma PushPairs(cfg: Config, s: State, h: nat, now: Time, text: string, k: nat)
    requires Valid(s)
    ensures PairChange(s, PushStep(cfg, s, h, now, text), k, false)
  {
    assert HoldersOf(PushStep(cfg, s, h, now, text), k) == HoldersOf(s, k);
  }

  lemma CheckLengthPairs(s: State, h: nat, healthy: bool, next: Handler, k: nat)
    requires Valid(s) && next.LengthChecked?
    ensures PairChange(s, CheckLengthStep(s, h, healthy, next), k, false)
  {
    assert HoldersOf(CheckLengthStep(s, h, healthy, next), k) == HoldersOf(s, k);
  }

  lemma PairStep(cfg: Config, s: State, e: Event, k: nat)
    requires Valid(s) && PairedIsGone(s)
    ensures PairChange(s, Step(cfg, s, e), k, e.Abandon?)
  {
    match e {
      case CheckLength(h, healthy, ip, isValidator, pubkey) => CheckLengthPairs(s, h, healthy, LengthChecked(ip, isValidator, pubkey), k);
      case LookUp(h, now, authorized) => LookUpPairs(s, h, now, authorized, k);
      case PushNew(h, now, text) => PushPairs(cfg, s, h, now, text, k);
      case Respond(h, healthy, ip, key, text, signature) => RespondPairs(cfg, s, h, healthy, ip, key, text, signature, k);
      case IssueTokens(h) => IssuePairs(s, h, k);
      case Refresh(_, _, _) =>
      case Cleanup(now) =>
      case Abandon(h) => FinishPairs(s, h, k);
    }
  }

  /** No two token handlers ever hold the same challenge at the same time. */
  ghost predicate NeverShared(cfg: Config, run: seq<Event>, k: nat) {
    |HoldersOf(Exec(cfg, run), k)| <= 1 && (run == [] || NeverShared(cfg, run[..|run| - 1], k))
  }

  ghost predicate NothingAbandoned(run: seq<Event>) {
    forall i :: 0 <= i < |run| ==> !run[i].Abandon?
  }

  lemma {:induction false} UnsharedYieldsOnePair(cfg: Config, run: seq<Event>, k: nat)
    requires NeverShared(cfg, run, k)
    ensures |PairsOf(Exec(cfg, run), k)| + |HoldersOf(Exec(cfg, run), k)| <= 1
  {
    if run == [] {
      assert PairsOf(INIT, k) == {} && HoldersOf(INIT, k) == {};
    } else {
      var before := run[..|run| - 1];
      UnsharedYieldsOnePair(cfg, before, k);
      PairedIsGoneInvariant(cfg, before);
      PairStep(cfg, Exec(cfg, before), run[|run| - 1], k);
    }
  }

  lemma {:induction false} SharedYieldsTwoPairs(cfg: Config, run: seq<Event>, k: nat)
    requires NothingAbandoned(run) && !NeverShared(cfg, run, k)
    ensures |PairsOf(Exec(cfg, run), k)| + |HoldersOf(Exec(cfg, run), k)| >= 2
  {
    if run != [] {
      var before := run[..|run| - 1];
      if !NeverShared(cfg, before, k) {
        SharedYieldsTwoPairs(cfg, before, k);
        PairedIsGoneInvariant(cfg, before);
        PairStep(cfg, Exec(cfg, before), run[|run| - 1], k);
      }
    }
  }

  /** When all handlers have run to their end, a stored challenge has yielded at most one
      token pair exactly if no two token handlers ever held it at the same time. */
  lemma {:induction false} OnePairExactlyWhenUnshared(cfg: Config, run: seq<Event>, k: nat)
    requires NothingAbandoned(run) && Exec(cfg, run).handlers == map[]
    ensures |PairsOf(Exec(cfg, run), k)| <= 1 <==> NeverShared(cfg, run, k)
  {
    assert HoldersOf(Exec(cfg, run), k) == {};
    if NeverShared(cfg, run, k) {
      UnsharedYieldsOnePair(cfg, run, k);
    } else {
      SharedYieldsTwoPairs(cfg, run, k);
    }
  }

  /** The events of requests run one at a time. */
  function OneAtATime(calls: seq<Call>): seq<Event> {
    if calls == [] then [] else OneAtATime(calls[..|calls| - 1]) + Steps(calls[|calls| - 1])
  }

  lemma ExecAppend(cfg: Config, run: seq<Event>, e: Event)
    ensures Exec(cfg, run + [e]) == Step(cfg, Exec(cfg, run), e)
  {
    assert (run + [e])[..|run|] == run;
  }

  lemma ExecTwo(cfg: Config, run: seq<Event>, a: Event, b: Event)
    ensures Exec(cfg, run + [a, b]) == Step(cfg, Step(cfg, Exec(cfg, run), a), b)
  {
    AppendTwo(run, a, b);
    ExecAppend(cfg, run, a);
    ExecAppend(cfg, run + [a], b);
  }

  lemma AppendTwo(run: seq<Event>, a: Event, b: Event)
    ensures run + [a, b] == run + [a] + [b]
  {
  }

  lemma AppendThree(run: seq<Event>, a: Event, b: Event, c: Event)
    ensures run + [a, b, c] == run + [a, b] + [c]
  {
  }

  lemma ExecThree(cfg: Config, run: seq<Event>, a: Event, b: Event, c: Event)
    ensures Exec(cfg, run + [a, b, c]) == Step(cfg, Step(cfg, Step(cfg, Exec(cfg, run), a), b), c)
  {
    AppendThree(run, a, b, c);
    ExecTwo(cfg, run, a, b);
    ExecAppend(cfg, run + [a, b], c);
  }

  lemma ChallengeSteps(cfg: Config, s: State, c: Call)
    requires Valid(s) && c.GenerateChallenge?
    ensures Step(cfg, Step(cfg, Step(cfg, s, Steps(c)[0]), Steps(c)[1]), Steps(c)[2]) == Atomic(cfg, s, c)
  {
  }

  lemma TokenSteps(cfg: Config, s: State, c: Call)
    requires Valid(s) && c.GenerateTokens?
    ensures Step(cfg, Step(cfg, s, Steps(c)[0]), Steps(c)[1]) == Atomic(cfg, s, c)
  {
  }

  lemma SingleStep(cfg: Config, s: State, c: Call)
    requires Valid(s) && (c.RefreshToken? || c.ExpireChallenges?)
    ensures Step(cfg, s, Steps(c)[0]) == Atomic(cfg, s, c)
  {
  }

  lemma ExecCall(cfg: Config, run: seq<Event>, c: Call)
    ensures Exec(cfg, run + Steps(c)) == Atomic(cfg, Exec(cfg, run), c)
  {
    var e := Steps(c);
    var s := Exec(cfg, run);
    if c.GenerateChallenge? {
      ExecThree(cfg, run, e[0], e[1], e[2]);
      ChallengeSteps(cfg, s, c);
      assert run + e == run + [e[0], e[1], e[2]];
    } else if c.GenerateTokens? {
      ExecTwo(cfg, run, e[0], e[1]);
      TokenSteps(cfg, s, c);
      assert run + e == run + [e[0], e[1]];
    } else {
      ExecAppend(cfg, run, e[0]);
      SingleStep(cfg, s, c);
      assert run + e == run + [e[0]];
    }
  }

  /** The pairs after an uninterrupted request. */
  lemma AtomicPairs(cfg: Config, s: State, c: Call, k: nat)
    requires Valid(s) && s.handlers == map[] && PairedIsGone(s)
    ensures |PairsOf(Atomic(cfg, s, c), k)| <= |PairsOf(s, k)| || (PairsOf(s, k) == {} && |PairsOf(Atomic(cfg, s, c), k)| == 1)
  {
    if c.GenerateChallenge? {
      ChallengeRequestEffect(cfg, s, c);
    } else if c.GenerateTokens? {
      AtomicTokenPairs(cfg, s, c, k);
    }
  }

  lemma AtomicTokenPairs(cfg: Config, s: State, c: Call, k: nat)
    requires Valid(s) && s.handlers == map[] && PairedIsGone(s) && c.GenerateTokens?
    ensures |PairsOf(Atomic(cfg, s, c), k)| <= |PairsOf(s, k)| || (PairsOf(s, k) == {} && |PairsOf(Atomic(cfg, s, c), k)| == 1)
  {
    TokenRequestEffect(cfg, s, c);
    var s' := Atomic(cfg, s, c);
    if s'.pairs != s.pairs {
      PairsAppend(s, s', s.store[c.ip.value], k);
      StoredHasNoPair(s, c.ip.value);
    }
  }

  /** With handlers run one at a time, the store keeps to its capacity and each stored
      challenge yields at most one token pair. */
  lemma {:induction false} AtomicHandlers(cfg: Config, calls: seq<Call>, k: nat)
    ensures var s := Exec(cfg, OneAtATime(calls));
            s.handlers == map[] && |s.store| <= AUTH_CHALLENGES_CAPACITY && |PairsOf(s, k)| <= 1
  {
    if calls == [] {
      assert PairsOf(INIT, k) == {};
    } else {
      var n := |calls| - 1;
      AtomicHandlers(cfg, calls[..n], k);
      var run := OneAtATime(calls[..n]);
      ExecCall(cfg, run, calls[n]);
      PairedIsGoneInvariant(cfg, run);
      AtomicKeepsCapacity(cfg, Exec(cfg, run), calls[n]);
      AtomicPairs(cfg, Exec(cfg, run), calls[n], k);
    }
  }
}
