/** The authentication service (relayer/src/auth_service.rs) as handlers that interleave
    at the challenge store's lock.

    `generate_auth_challenge` takes the lock three times (length, look-up, push) and
    `generate_auth_tokens` twice (look-up, removal); between two of these any other
    handler or the cleanup task may run. */
module AuthService {
  import opened Common
  import opened Transactions
  import opened AuthChallenges

  const AUTH_CHALLENGES_CAPACITY: nat := 100_000

  /** `show` prints a pubkey. */
  datatype Config = Config(accessTtl: Time, refreshTtl: Time, challengeTtl: Time, show: Pubkey -> string)

  /** Signatures cannot be forged: one verifies for the key and message it was made with. */
  datatype Signature = Signed(signer: Pubkey, message: string) | Malformed

  predicate Verifies(key: Pubkey, message: string, s: Signature) {
    s == Signed(key, message)
  }

  /** Claims as they are serialized into a token: the expiry is cut to whole seconds. */
  datatype Token = Token(clientIp: Ip, clientPubkey: Pubkey, expiresSecs: nat)

  function Encode(c: Claims): Token {
    Token(c.clientIp, c.clientPubkey, c.expires / SECOND)
  }

  function Decode(t: Token): Claims {
    Claims(t.clientIp, t.clientPubkey, t.expiresSecs * SECOND)
  }

  /** The text a client must sign. */
  function Expected(cfg: Config, key: Pubkey, challenge: string): string {
    cfg.show(key) + "-" + challenge
  }

  function NewChallenge(cfg: Config, ip: Ip, key: Pubkey, text: string, now: Time): AuthChallenge {
    AuthChallenge(text, Claims(ip, key, now + cfg.accessTtl), Claims(ip, key, now + cfg.refreshTtl), now + cfg.challengeTtl)
  }

  /** A stored challenge, with the set of authorized keys read for it. */
  datatype Stored = Stored(ip: Ip, challenge: AuthChallenge, authorized: set<Pubkey>)

  /** Where a handler waits for the lock. */
  datatype Handler =
    | LengthChecked(ip: Option<Ip>, isValidator: bool, pubkey: Option<Pubkey>)
    | ReadyToPush(ip0: Ip, key: Pubkey, authorized: set<Pubkey>)
    | Verified(ip1: Ip, index: nat, signature: Signature)

  /** Which token of a pair; the token itself does not say. */
  datatype Kind = OfAccess | OfRefresh

  datatype Origin = FromChallenge(index: nat, signature: Signature, kind: Kind) | FromRefresh(parent: nat, at: Time)

  datatype Issue = Issue(token: Token, origin: Origin)

  /** The access token and the refresh token of the challenge numbered `index`. */
  function PairFrom(challenge: AuthChallenge, index: nat, signature: Signature): seq<Issue> {
    [Issue(Encode(challenge.accessClaims), FromChallenge(index, signature, OfAccess)),
     Issue(Encode(challenge.refreshClaims), FromChallenge(index, signature, OfRefresh))]
  }

  /** `log` numbers the challenges ever stored and `store` maps an IP to the one stored
      now; `issued` is every token issued and `pairs` the challenge of every token pair. */
  datatype State = State(
    store: map<Ip, nat>,
    log: seq<Stored>,
    handlers: map<nat, Handler>,
    issued: seq<Issue>,
    pairs: seq<nat>)

  const INIT := State(map[], [], map[], [], [])

  /** `authorized` is what the authorizer answers from at the look-up; a presented refresh
      token is named by its position among the issued ones, and a position out of range
      stands for a token this service did not sign. A handler is abandoned when its
      client goes away. */
  datatype Event =
    | CheckLength(h: nat, healthy: bool, ip: Option<Ip>, isValidator: bool, pubkey: Option<Pubkey>)
    | LookUp(h: nat, now: Time, authorized: set<Pubkey>)
    | PushNew(h: nat, now: Time, text: string)
    | Respond(h: nat, healthy: bool, ip: Option<Ip>, pubkey: Option<Pubkey>, signedText: string, signature: Signature)
    | IssueTokens(h: nat)
    | Refresh(healthy: bool, presented: nat, now: Time)
    | Cleanup(now: Time)
    | Abandon(h: nat)

  /** Store and log agree. */
  ghost predicate Valid(s: State) {
    && (forall ip :: ip in s.store ==> s.store[ip] < |s.log| && s.log[s.store[ip]].ip == ip)
    && (forall h :: h in s.handlers && s.handlers[h].Verified? ==>
          s.handlers[h].index < |s.log| && s.log[s.handlers[h].index].ip == s.handlers[h].ip1)
  }

  function Finish(s: State, h: nat): State {
    s.(handlers := s.handlers - {h})
  }

  /** The checks of `generate_auth_tokens` before it signs anything; the challenge's own
      expiry is not among them. */
  predicate Accepts(cfg: Config, c: AuthChallenge, key: Pubkey, text: string, signature: Signature) {
    && c.accessClaims.clientPubkey == key
    && text == Expected(cfg, key, c.challenge)
    && Verifies(key, text, signature)
  }

  /** A signature that answers one challenge answers no other. */
  lemma SignatureFitsOneChallenge(cfg: Config, c: AuthChallenge, d: AuthChallenge, key: Pubkey, other: Pubkey,
                                  text: string, otherText: string, signature: Signature)
    requires Accepts(cfg, c, key, text, signature) && Accepts(cfg, d, other, otherText, signature)
    ensures key == other && c.accessClaims.clientPubkey == d.accessClaims.clientPubkey && c.challenge == d.challenge
  {
    var n := |cfg.show(key)| + 1;
    assert c.challenge == text[n..] && d.challenge == otherText[n..];
  }

  function CheckLengthStep(s: State, h: nat, healthy: bool, next: Handler): (s': State)
    requires Valid(s) && next.LengthChecked?
    ensures Valid(s')
  {
    if h in s.handlers || !healthy || |s.store| >= AUTH_CHALLENGES_CAPACITY then s
    else s.(handlers := s.handlers[h := next])
  }

  function LookUpStep(s: State, h: nat, now: Time, authorized: set<Pubkey>): (s': State)
    requires Valid(s)
    ensures Valid(s')
  {
    if h in s.handlers && s.handlers[h].LengthChecked?
    then
      var c := s.handlers[h];
      if c.ip.None? then Finish(s, h)
      else if c.ip.value in s.store && !IsExpired(s.log[s.store[c.ip.value]].challenge, now) then Finish(s, h)
      else if !c.isValidator || c.pubkey.None? || c.pubkey.value !in authorized then Finish(s, h)
      else s.(handlers := s.handlers[h := ReadyToPush(c.ip.value, c.pubkey.value, authorized)])
    else s
  }

  function PushStep(cfg: Config, s: State, h: nat, now: Time, text: string): (s': State)
    requires Valid(s)
    ensures Valid(s')
  {
    if h in s.handlers && s.handlers[h].ReadyToPush?
    then
      var c := s.handlers[h];
      Finish(s.(log := s.log + [Stored(c.ip0, NewChallenge(cfg, c.ip0, c.key, text, now), c.authorized)],
                store := s.store[c.ip0 := |s.log|]), h)
    else s
  }

  function RespondStep(cfg: Config, s: State, h: nat, healthy: bool, ip: Option<Ip>, key: Option<Pubkey>, text: string, signature: Signature): (s': State)
    requires Valid(s)
    ensures Valid(s')
  {
    if h in s.handlers || !healthy || ip.None? || key.None? || ip.value !in s.store then s
    else
      var index := s.store[ip.value];
      if Accepts(cfg, s.log[index].challenge, key.value, text, signature)
      then s.(handlers := s.handlers[h := Verified(ip.value, index, signature)])
      else s
  }

  function IssueStep(s: State, h: nat): (s': State)
    requires Valid(s)
    ensures Valid(s')
  {
    if h in s.handlers && s.handlers[h].Verified?
    then
      var c := s.handlers[h];
      Finish(s.(issued := s.issued + PairFrom(s.log[c.index].challenge, c.index, c.signature),
                pairs := s.pairs + [c.index],
                store := s.store - {c.ip1}), h)
    else s
  }

  function RefreshStep(cfg: Config, s: State, healthy: bool, presented: nat, now: Time): (s': State)
    requires Valid(s)
    ensures Valid(s')
  {
    if !healthy || presented >= |s.issued| then s
    else
      var claims := Decode(s.issued[presented].token);
      if claims.expires <= now then s
      else s.(issued := s.issued +
                        [Issue(Encode(Claims(claims.clientIp, claims.clientPubkey, now + cfg.accessTtl)), FromRefresh(presented, now))])
  }

  function CleanupStep(s: State, now: Time): (s': State)
    requires Valid(s)
    ensures Valid(s')
  {
    s.(store := map ip | ip in s.store && !IsExpired(s.log[s.store[ip]].challenge, now) :: s.store[ip])
  }

  function Step(cfg: Config, s: State, e: Event): (s': State)
    requires Valid(s)
    ensures Valid(s')
  {
    match e
    case CheckLength(h, healthy, ip, isValidator, pubkey) => CheckLengthStep(s, h, healthy, LengthChecked(ip, isValidator, pubkey))
    case LookUp(h, now, authorized) => LookUpStep(s, h, now, authorized)
    case PushNew(h, now, text) => PushStep(cfg, s, h, now, text)
    case Respond(h, healthy, ip, key, text, signature) => RespondStep(cfg, s, h, healthy, ip, key, text, signature)
    case IssueTokens(h) => IssueStep(s, h)
    case Refresh(healthy, presented, now) => RefreshStep(cfg, s, healthy, presented, now)
    case Cleanup(now) => CleanupStep(s, now)
    case Abandon(h) => Finish(s, h)
  }

  function Exec(cfg: Config, run: seq<Event>): (s: State)
    ensures Valid(s)
  {
    if run == [] then INIT else Step(cfg, Exec(cfg, run[..|run| - 1]), run[|run| - 1])
  }

  // ---------- handlers run one at a time ----------

  /** A whole request, uninterrupted. */
  datatype Call =
    | GenerateChallenge(healthy: bool, ip: Option<Ip>, isValidator: bool, pubkey: Option<Pubkey>,
                        authorized: set<Pubkey>, now: Time, text: string)
    | GenerateTokens(healthy: bool, ip: Option<Ip>, key: Option<Pubkey>, signedText: string, signature: Signature)
    | RefreshToken(healthy: bool, presented: nat, now: Time)
    | ExpireChallenges(now: Time)

  /** The lock-sized steps of a request. */
  function Steps(c: Call): seq<Event> {
    match c
    case GenerateChallenge(healthy, ip, isValidator, pubkey, authorized, now, text) =>
      [CheckLength(0, healthy, ip, isValidator, pubkey), LookUp(0, now, authorized), PushNew(0, now, text)]
    case GenerateTokens(healthy, ip, key, signedText, signature) =>
      [Respond(0, healthy, ip, key, signedText, signature), IssueTokens(0)]
    case RefreshToken(healthy, presented, now) => [Refresh(healthy, presented, now)]
    case ExpireChallenges(now) => [Cleanup(now)]
  }

  /** The effect of an uninterrupted request. */
  function Atomic(cfg: Config, s: State, c: Call): (s': State)
    requires Valid(s)
    ensures Valid(s')
  {
    match c
    case GenerateChallenge(healthy, ip, isValidator, pubkey, authorized, now, text) =>
      var s1 := CheckLengthStep(s, 0, healthy, LengthChecked(ip, isValidator, pubkey));
      var s2 := LookUpStep(s1, 0, now, authorized);
      PushStep(cfg, s2, 0, now, text)
    case GenerateTokens(healthy, ip, key, signedText, signature) =>
      IssueStep(RespondStep(cfg, s, 0, healthy, ip, key, signedText, signature), 0)
    case RefreshToken(healthy, presented, now) => RefreshStep(cfg, s, healthy, presented, now)
    case ExpireChallenges(now) => CleanupStep(s, now)
  }

  /** All checks of `generate_auth_challenge` pass and no unexpired challenge is stored. */
  predicate StoresNew(s: State, c: Call)
    requires Valid(s) && c.GenerateChallenge?
  {
    && c.healthy && |s.store| < AUTH_CHALLENGES_CAPACITY && c.ip.Some?
    && !(c.ip.value in s.store && !IsExpired(s.log[s.store[c.ip.value]].challenge, c.now))
    && c.isValidator && c.pubkey.Some? && c.pubkey.value in c.authorized
  }

  /** A new challenge is stored exactly when all checks pass and no unexpired one is there. */
  lemma ChallengeRequestEffect(cfg: Config, s: State, c: Call)
    requires Valid(s) && s.handlers == map[] && c.GenerateChallenge?
    ensures Atomic(cfg, s, c) ==
              if StoresNew(s, c)
              then s.(log := s.log + [Stored(c.ip.value, NewChallenge(cfg, c.ip.value, c.pubkey.value, c.text, c.now), c.authorized)],
                      store := s.store[c.ip.value := |s.log|])
              else s
  {
    var waiting := LengthChecked(c.ip, c.isValidator, c.pubkey);
    var s1 := CheckLengthStep(s, 0, c.healthy, waiting);
    var s2 := LookUpStep(s1, 0, c.now, c.authorized);
    if !(c.healthy && |s.store| < AUTH_CHALLENGES_CAPACITY) {
      assert s2 == s;
    } else if StoresNew(s, c) {
      assert s2 == s.(handlers := map[0 := ReadyToPush(c.ip.value, c.pubkey.value, c.authorized)]);
      assert PushStep(cfg, s2, 0, c.now, c.text).handlers == map[];
    } else {
      assert s2.handlers == map[];
    }
  }

  /** A token pair is issued exactly when the stored challenge accepts the response, and
      that challenge is then gone. */
  lemma TokenRequestEffect(cfg: Config, s: State, c: Call)
    requires Valid(s) && s.handlers == map[] && c.GenerateTokens?
    ensures Atomic(cfg, s, c) ==
              if && c.healthy && c.ip.Some? && c.key.Some? && c.ip.value in s.store
                 && Accepts(cfg, s.log[s.store[c.ip.value]].challenge, c.key.value, c.signedText, c.signature)
              then
                var index := s.store[c.ip.value];
                s.(issued := s.issued + PairFrom(s.log[index].challenge, index, c.signature),
                   pairs := s.pairs + [index],
                   store := s.store - {c.ip.value})
              else s
  {
    var s1 := RespondStep(cfg, s, 0, c.healthy, c.ip, c.key, c.signedText, c.signature);
    assert s1 == s || s1.handlers.Keys == {0};
    assert IssueStep(s1, 0).handlers == map[];
  }

  // ---------- the service's own methods ----------

  datatype Status = Internal | ResourceExhausted | InvalidArgument | PermissionDenied

  /** Why a challenge request is refused, if it is: the order of the checks decides.
      `current` is the challenge stored for the caller's address. */
  function ChallengeRefusal(c: Call, stored: nat, current: Option<AuthChallenge>): Option<Status>
    requires c.GenerateChallenge?
  {
    if !c.healthy then Some(Internal)
    else if stored >= AUTH_CHALLENGES_CAPACITY then Some(ResourceExhausted)
    else if c.ip.None? then Some(Internal)
    else if current.Some? && !IsExpired(current.value, c.now) then None
    else if !c.isValidator || c.pubkey.None? then Some(InvalidArgument)
    else if c.pubkey.value !in c.authorized then Some(PermissionDenied)
    else None
  }

  function TokenRefusal(cfg: Config, c: Call, current: Option<AuthChallenge>): Option<Status>
    requires c.GenerateTokens?
  {
    if !c.healthy || c.ip.None? then Some(Internal)
    else if c.key.None? then Some(InvalidArgument)
    else if current.None? || current.value.accessClaims.clientPubkey != c.key.value then Some(PermissionDenied)
    else if !Accepts(cfg, current.value, c.key.value, c.signedText, c.signature) then Some(InvalidArgument)
    else None
  }

  function RefreshRefusal(healthy: bool, token: Option<Token>, now: Time): Option<Status> {
    if !healthy then Some(Internal)
    else if token.None? || Decode(token.value).expires <= now then Some(PermissionDenied)
    else None
  }

  /** The token says what the claims say, its expiry in whole seconds. */
  predicate IsTokenOf(t: Token, c: Claims) {
    t.clientIp == c.clientIp && t.clientPubkey == c.clientPubkey && t.expiresSecs == c.expires / SECOND
  }

  /** Which checks a challenge request fails. An unexpired challenge of the address comes
      before the checks of the caller. */
  lemma ChallengeRefusalMeaning(c: Call, entries: map<Ip, AuthChallenge>)
    requires c.GenerateChallenge?
    ensures var r := ChallengeRefusal(c, |entries|, Find(entries, c.ip));
            var open := c.healthy && |entries| < AUTH_CHALLENGES_CAPACITY && c.ip.Some?;
            && (r == Some(Internal) <==> !c.healthy || (|entries| < AUTH_CHALLENGES_CAPACITY && c.ip.None?))
            && (r == Some(ResourceExhausted) <==> c.healthy && |entries| >= AUTH_CHALLENGES_CAPACITY)
            && (r == Some(InvalidArgument) <==> open && !Alive(entries, c.ip, c.now) && (!c.isValidator || c.pubkey.None?))
            && (r == Some(PermissionDenied) <==>
                  open && !Alive(entries, c.ip, c.now) && c.isValidator && c.pubkey.Some? && c.pubkey.value !in c.authorized)
            && (r == None <==>
                  open && (Alive(entries, c.ip, c.now) || (c.isValidator && c.pubkey.Some? && c.pubkey.value in c.authorized)))
  {
  }

  /** Which checks a token request fails. */
  lemma TokenRefusalMeaning(cfg: Config, c: Call, entries: map<Ip, AuthChallenge>)
    requires c.GenerateTokens?
    ensures var r := TokenRefusal(cfg, c, Find(entries, c.ip));
            var named := c.healthy && c.ip.Some? && c.key.Some?;
            var known := named && c.ip.value in entries && entries[c.ip.value].accessClaims.clientPubkey == c.key.value;
            && (r == Some(Internal) <==> !c.healthy || c.ip.None?)
            && (r == Some(PermissionDenied) <==> named && !known)
            && (r == None <==>
                  && known && c.signedText == cfg.show(c.key.value) + "-" + entries[c.ip.value].challenge
                  && c.signature == Signed(c.key.value, c.signedText))
            && r != Some(ResourceExhausted)
  {
  }

  function Find(entries: map<Ip, AuthChallenge>, ip: Option<Ip>): Option<AuthChallenge> {
    if ip.Some? && ip.value in entries then Some(entries[ip.value]) else None
  }

  /** A challenge is stored under the address and has not expired. */
  predicate Alive(entries: map<Ip, AuthChallenge>, ip: Option<Ip>, now: Time) {
    ip.Some? && ip.value in entries && now < entries[ip.value].expires
  }

  function ErrorOf<T>(r: Result<T, Status>): Option<Status> {
    if r.Failure? then Some(r.error) else None
  }

  class AuthServiceImpl {
    const cfg: Config
    const challenges: ChallengeQueue
    ghost var index: map<Ip, nat>
    ghost var log: seq<Stored>
    ghost var issued: seq<Issue>
    ghost var pairs: seq<nat>

    ghost predicate ValidImpl()
      reads this, challenges
    {
      && challenges.entries.Keys == index.Keys
      && (forall ip :: ip in index ==> index[ip] < |log| && log[index[ip]].ip == ip && challenges.entries[ip] == log[index[ip]].challenge)
    }

    ghost function Abs(): State
      reads this
    {
      State(index, log, map[], issued, pairs)
    }

    constructor (config: Config)
      ensures ValidImpl() && cfg == config && fresh(challenges) && Abs() == INIT
    {
      cfg := config;
      challenges := new ChallengeQueue();
      index := map[];
      log := [];
      issued := [];
      pairs := [];
    }

    lemma SizesAgree()
      requires ValidImpl()
      ensures |challenges.entries| == |index|
    {
      assert |challenges.entries| == |challenges.entries.Keys| && |index| == |index.Keys|;
    }

    /** On success the answer is the challenge now stored under the caller's address. */
    method GenerateAuthChallenge(healthy: bool, ip: Option<Ip>, isValidator: bool, pubkey: Option<Pubkey>,
                                 authorized: set<Pubkey>, now: Time, text: string) returns (r: Result<string, Status>)
      requires ValidImpl()
      modifies this, challenges
      ensures ValidImpl()
      ensures Abs() == Atomic(cfg, old(Abs()), GenerateChallenge(healthy, ip, isValidator, pubkey, authorized, now, text))
      ensures ErrorOf(r) == ChallengeRefusal(GenerateChallenge(healthy, ip, isValidator, pubkey, authorized, now, text),
                                             |old(challenges.entries)|, Find(old(challenges.entries), ip))
      ensures r.Success? ==> ip.Some? && ip.value in challenges.entries && challenges.entries[ip.value].challenge == r.value
      ensures r.Success? && Alive(old(challenges.entries), ip, now) ==>
                challenges.entries == old(challenges.entries) && r.value == old(challenges.entries)[ip.value].challenge
      ensures r.Success? && !Alive(old(challenges.entries), ip, now) ==>
                && isValidator && pubkey.Some? && pubkey.value in authorized && r.value == text
                && challenges.entries == old(challenges.entries)[ip.value := NewChallenge(cfg, ip.value, pubkey.value, text, now)]
      ensures r.Failure? ==> Abs() == old(Abs()) && challenges.entries == old(challenges.entries)
    {
      ChallengeRequestEffect(cfg, Abs(), GenerateChallenge(healthy, ip, isValidator, pubkey, authorized, now, text));
      if !healthy {
        return Failure(Internal);
      }
      SizesAgree();
      var n := challenges.Len();
      if n >= AUTH_CHALLENGES_CAPACITY {
        return Failure(ResourceExhausted);
      }
      if ip.None? {
        return Failure(Internal);
      }
      var present := challenges.GetPriority(ip.value);
      if present.Some? && !IsExpired(present.value, now) {
        return Success(present.value.challenge);
      }
      if !isValidator || pubkey.None? {
        return Failure(InvalidArgument);
      }
      if pubkey.value !in authorized {
        return Failure(PermissionDenied);
      }
      StoreChallenge(ip.value, pubkey.value, authorized, now, text);
      r := Success(text);
    }

    method StoreChallenge(ip: Ip, key: Pubkey, authorized: set<Pubkey>, now: Time, text: string)
      requires ValidImpl()
      modifies this, challenges
      ensures ValidImpl()
      ensures challenges.entries == old(challenges.entries)[ip := NewChallenge(cfg, ip, key, text, now)]
      ensures Abs() == old(Abs()).(log := old(log) + [Stored(ip, NewChallenge(cfg, ip, key, text, now), authorized)],
                                   store := old(index)[ip := |old(log)|])
    {
      var challenge := NewChallenge(cfg, ip, key, text, now);
      challenges.Push(ip, challenge);
      index := index[ip := |log|];
      log := log + [Stored(ip, challenge, authorized)];
    }

    /** On success the tokens carry the claims of the challenge stored under the caller's
        address, which is gone afterwards; on failure nothing changes. */
    method GenerateAuthTokens(healthy: bool, ip: Option<Ip>, pubkey: Option<Pubkey>, signedText: string, signature: Signature)
      returns (r: Result<(Token, Token), Status>)
      requires ValidImpl()
      modifies this, challenges
      ensures ValidImpl()
      ensures Abs() == Atomic(cfg, old(Abs()), GenerateTokens(healthy, ip, pubkey, signedText, signature))
      ensures ErrorOf(r) == TokenRefusal(cfg, GenerateTokens(healthy, ip, pubkey, signedText, signature), Find(old(challenges.entries), ip))
      ensures r.Success? ==>
                && ip.Some? && ip.value in old(challenges.entries)
                && IsTokenOf(r.value.0, old(challenges.entries)[ip.value].accessClaims)
                && IsTokenOf(r.value.1, old(challenges.entries)[ip.value].refreshClaims)
                && challenges.entries == old(challenges.entries) - {ip.value}
      ensures r.Success? ==>
                && pubkey == Some(old(challenges.entries)[ip.value].accessClaims.clientPubkey)
                && signature == Signed(pubkey.value, cfg.show(pubkey.value) + "-" + old(challenges.entries)[ip.value].challenge)
                && issued == old(issued) + [Issue(r.value.0, FromChallenge(old(index)[ip.value], signature, OfAccess)),
                                            Issue(r.value.1, FromChallenge(old(index)[ip.value], signature, OfRefresh))]
      ensures r.Failure? ==> Abs() == old(Abs()) && challenges.entries == old(challenges.entries)
    {
      TokenRequestEffect(cfg, Abs(), GenerateTokens(healthy, ip, pubkey, signedText, signature));
      if !healthy || ip.None? {
        return Failure(Internal);
      }
      if pubkey.None? {
        return Failure(InvalidArgument);
      }
      var found := challenges.GetPriority(ip.value);
      if found.None? {
        return Failure(PermissionDenied);
      }
      var challenge := found.value;
      if challenge.accessClaims.clientPubkey != pubkey.value {
        return Failure(PermissionDenied);
      }
      if signedText != Expected(cfg, pubkey.value, challenge.challenge) || !Verifies(pubkey.value, signedText, signature) {
        return Failure(InvalidArgument);
      }
      IssuePair(ip.value, signature);
      r := Success((Encode(challenge.accessClaims), Encode(challenge.refreshClaims)));
    }

    /** Both tokens are issued and the challenge is removed. */
    method IssuePair(ip: Ip, ghost signature: Signature)
      requires ValidImpl() && ip in challenges.entries
      modifies this, challenges
      ensures ValidImpl() && challenges.entries == old(challenges.entries) - {ip}
      ensures Abs() == old(Abs()).(
                issued := old(issued) + PairFrom(old(challenges.entries)[ip], old(index)[ip], signature),
                pairs := old(pairs) + [old(index)[ip]],
                store := old(index) - {ip})
    {
      issued := issued + PairFrom(challenges.entries[ip], index[ip], signature);
      challenges.Remove(ip);
      pairs := pairs + [index[ip]];
      index := index - {ip};
    }

    /** One turn of the expiry task: the machine's cleanup step at the last clock reading. */
    method ExpireChallengesTask(clock: seq<Time>) returns (used: nat)
      requires ValidImpl() && |clock| >= |challenges.entries|
      requires forall i, j :: 0 <= i < j < |clock| ==> clock[i] <= clock[j]
      modifies this, challenges
      ensures ValidImpl() && used <= |old(challenges.entries)| && (used == 0 <==> old(challenges.entries) == map[])
      ensures Abs() == CleanupStep(old(Abs()), if used > 0 then clock[used - 1] else 0)
    {
      ghost var before := challenges.entries;
      used := challenges.RemoveAllExpired(clock);
      ghost var now := if used > 0 then clock[used - 1] else 0;
      assert challenges.entries == Unexpired(before, now);
      ForgetExpired(now);
    }

    /** Brings the ghost index in line with the cleaned queue. */
    ghost method ForgetExpired(now: Time)
      requires challenges.entries.Keys <= index.Keys
      requires forall ip :: ip in index ==> index[ip] < |log| && log[index[ip]].ip == ip
      requires forall ip :: ip in index ==> (ip in challenges.entries <==> !IsExpired(log[index[ip]].challenge, now))
      requires forall ip :: ip in challenges.entries ==> challenges.entries[ip] == log[index[ip]].challenge
      modifies this`index
      ensures ValidImpl() && Abs() == CleanupStep(old(Abs()), now)
    {
      index := map ip | ip in index && !IsExpired(log[index[ip]].challenge, now) :: index[ip];
    }

    /** `token` is the presented token when it verifies under the service's key; `position`
        is where it was issued. */
    method RefreshAccessToken(healthy: bool, token: Option<Token>, ghost position: nat, now: Time) returns (r: Result<Token, Status>)
      requires token.Some? ==> position < |issued| && issued[position].token == token.value
      requires token.None? ==> position >= |issued|
      requires ValidImpl()
      modifies this
      ensures ValidImpl()
      ensures Abs() == Atomic(cfg, old(Abs()), RefreshToken(healthy, position, now))
      ensures ErrorOf(r) == RefreshRefusal(healthy, token, now)
      ensures r.Failure? ==> Abs() == old(Abs())
      ensures r.Success? ==> token.Some? && r.value.clientIp == token.value.clientIp && r.value.clientPubkey == token.value.clientPubkey
                             && now < token.value.expiresSecs * SECOND
      ensures r.Success? ==> r.value.expiresSecs == (now + cfg.accessTtl) / SECOND
                             && issued == old(issued) + [Issue(r.value, FromRefresh(position, now))]
    {
      if !healthy {
        return Failure(Internal);
      }
      if token.None? {
        return Failure(PermissionDenied);
      }
      var claims := Decode(token.value);
      if claims.expires <= now {
        return Failure(PermissionDenied);
      }
      var access := Encode(Claims(claims.clientIp, claims.clientPubkey, now + cfg.accessTtl));
      issued := issued + [Issue(access, FromRefresh(position, now))];
      r := Success(access);
    }
  }
}
