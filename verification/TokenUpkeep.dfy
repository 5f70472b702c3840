/** Keeping the block engine tokens fresh (block_engine/src/block_engine.rs). */
module TokenUpkeep {
  import opened Common

  const EXPIRING_SOON: Time := 300 * SECOND
  const REFRESH_PERIOD: Time := 60 * SECOND

  datatype Token = Token(value: string, expiresAtUtc: Option<Time>)

  datatype TokenPair = TokenPair(access: Option<Token>, refresh: Option<Token>)

  /** What the auth service would answer at a tick: to a new authentication, and to a
      request for a new access token. */
  datatype Answers = Answers(tokens: Result<TokenPair, string>, renewed: Result<Option<Token>, string>)

  datatype Tick = Tick(at: Time, answers: Answers)

  /** An error ends the connection; unwrapping a missing expiry panics. */
  datatype Phase = Connected | Disconnected(error: string) | Panicked

  datatype State = State(access: Token, refresh: Token, phase: Phase)

  datatype Action = Nothing | Reauthenticate | SpendRefreshToken

  /** A new authentication insists on both tokens and both expiry times. */
  function Auth(answer: Result<TokenPair, string>): (r: Result<(Token, Token), string>)
    ensures r.Success? ==> r.value.0.expiresAtUtc.Some? && r.value.1.expiresAtUtc.Some?
    ensures r.Success? ==> answer == Success(TokenPair(Some(r.value.0), Some(r.value.1)))
    ensures r.Failure? && answer.Success? ==>
              var p := answer.value;
              p.access.None? || p.refresh.None? || p.access.value.expiresAtUtc.None? || p.refresh.value.expiresAtUtc.None?
  {
    match answer
    case Failure(e) => Failure(e)
    case Success(pair) =>
      if pair.access.None? || pair.refresh.None? then Failure("failed to get valid auth tokens")
      else if pair.access.value.expiresAtUtc.None? || pair.refresh.value.expiresAtUtc.None?
      then Failure("auth tokens don't have valid expiration time")
      else Success((pair.access.value, pair.refresh.value))
  }

  /** A missing token is noticed before a missing expiry. */
  lemma AuthErrors(answer: Result<TokenPair, string>)
    ensures answer.Failure? ==> Auth(answer) == Failure(answer.error)
    ensures answer.Success? && (answer.value.access.None? || answer.value.refresh.None?) ==>
              Auth(answer) == Failure("failed to get valid auth tokens")
    ensures answer.Success? && answer.value.access.Some? && answer.value.refresh.Some? && Auth(answer).Failure? ==>
              Auth(answer) == Failure("auth tokens don't have valid expiration time")
  {
  }

  predicate IsExpiringSoon(expiresAt: Time, now: Time) {
    expiresAt < now || expiresAt - now < EXPIRING_SOON
  }

  predicate HasExpiry(s: State) {
    s.access.expiresAtUtc.Some? && s.refresh.expiresAtUtc.Some?
  }

  function Chosen(s: State, now: Time): Action
    requires HasExpiry(s)
  {
    if IsExpiringSoon(s.refresh.expiresAtUtc.value, now) then Reauthenticate
    else if IsExpiringSoon(s.access.expiresAtUtc.value, now) then SpendRefreshToken
    else Nothing
  }

  /** The refresh token decides first: with less than five minutes left it is replaced
      together with the access token; otherwise an access token with less is renewed. */
  lemma ChosenMeaning(s: State, now: Time)
    requires HasExpiry(s)
    ensures Chosen(s, now) == Reauthenticate <==> s.refresh.expiresAtUtc.value < now + 300 * SECOND
    ensures Chosen(s, now) == SpendRefreshToken
       <==> s.refresh.expiresAtUtc.value >= now + 300 * SECOND && s.access.expiresAtUtc.value < now + 300 * SECOND
  {
  }

  function Step(s: State, t: Tick): State {
    if !s.phase.Connected? then s
    else if !HasExpiry(s) then s.(phase := Panicked)
    else
      match Chosen(s, t.at)
      case Nothing => s
      case Reauthenticate =>
        (match Auth(t.answers.tokens)
         case Failure(e) => s.(phase := Disconnected(e))
         case Success(pair) => s.(access := pair.0, refresh := pair.1))
      case SpendRefreshToken =>
        match t.answers.renewed
        case Failure(e) => s.(phase := Disconnected(e))
        case Success(None) => s.(phase := Disconnected("missing access token"))
        case Success(Some(token)) => s.(access := token)
  }

  function Exec(initial: State, run: seq<Tick>): State {
    if run == [] then initial else Step(Exec(initial, run[..|run| - 1]), run[|run| - 1])
  }

  class TokenKeeper {
    var access: Token
    var refresh: Token

    constructor (accessToken: Token, refreshToken: Token)
      ensures access == accessToken && refresh == refreshToken
    {
      access, refresh := accessToken, refreshToken;
    }

    /** Answers whether a token was replaced. */
    method MaybeRefreshAuth(now: Time, answers: Answers) returns (r: Result<bool, string>)
      requires access.expiresAtUtc.Some? && refresh.expiresAtUtc.Some?
      modifies this
      ensures State(access, refresh, if r.Success? then Connected else Disconnected(r.error))
           == Step(State(old(access), old(refresh), Connected), Tick(now, answers))
      ensures r.Success? ==> (r.value <==> Chosen(State(old(access), old(refresh), Connected), now) != Nothing)
    {
      var isAccessTokenExpiringSoon := IsExpiringSoon(access.expiresAtUtc.value, now);
      var isRefreshTokenExpiringSoon := IsExpiringSoon(refresh.expiresAtUtc.value, now);
      if isRefreshTokenExpiringSoon {
        var pair := Auth(answers.tokens);
        if pair.Failure? {
          return Failure(pair.error);
        }
        refresh := pair.value.1;
        access := pair.value.0;
        return Success(true);
      } else if isAccessTokenExpiringSoon {
        if answers.renewed.Failure? {
          return Failure(answers.renewed.error);
        }
        if answers.renewed.value.None? {
          return Failure("missing access token");
        }
        access := answers.renewed.value.value;
        return Success(true);
      }
      return Success(false);
    }
  }

  // ---------- how long the tokens last ----------

  ghost predicate Lasts(token: Token, until: Time) {
    token.expiresAtUtc.Some? && until <= token.expiresAtUtc.value
  }

  /** Every token issued at the tick says when it expires and lives at least `life`;
      a new authentication refuses tokens without expiry anyway. */
  ghost predicate IssuesLast(life: Time, t: Tick) {
    && (Auth(t.answers.tokens).Success? ==>
          Lasts(Auth(t.answers.tokens).value.0, t.at + life) && Lasts(Auth(t.answers.tokens).value.1, t.at + life))
    && (t.answers.renewed.Success? && t.answers.renewed.value.Some? ==>
          Lasts(t.answers.renewed.value.value, t.at + life))
  }

  /** A tick leaves tokens with at least the issued life or the renewal threshold. */
  lemma TickLeavesTime(life: Time, s: State, t: Tick)
    requires IssuesLast(life, t) && Step(s, t).phase == Connected
    ensures var left := Min(life, EXPIRING_SOON);
            Lasts(Step(s, t).access, t.at + left) && Lasts(Step(s, t).refresh, t.at + left)
  {
  }

  /** A connection that has lasted was up after every earlier tick. */
  lemma {:induction false} ConnectedThroughout(initial: State, run: seq<Tick>, k: nat)
    requires Exec(initial, run).phase == Connected && k <= |run|
    ensures Exec(initial, run[..k]).phase == Connected
  {
    var n := |run| - 1;
    if k < |run| {
      ConnectedThroughout(initial, run[..n], k);
      assert run[..n][..k] == run[..k];
    } else {
      assert run[..k] == run;
    }
  }

  /** At moment `t`, after `k` ticks, both tokens have at least `left` left. */
  ghost predicate BothLast(initial: State, run: seq<Tick>, k: nat, t: Time, left: Time)
    requires k <= |run|
  {
    Lasts(Exec(initial, run[..k]).access, t + left) && Lasts(Exec(initial, run[..k]).refresh, t + left)
  }

  /** Throughout a connection, up to `gap` after any tick both tokens have at least the
      smaller of the issued life and five minutes left, less `gap`. */
  lemma TokensLast(life: Time, gap: Time, initial: State, run: seq<Tick>, k: nat, t: Time)
    requires Exec(initial, run).phase == Connected && forall i :: 0 <= i < |run| ==> IssuesLast(life, run[i])
    requires 0 < k <= |run| && run[k - 1].at <= t <= run[k - 1].at + gap
    requires gap <= life && gap <= EXPIRING_SOON
    ensures BothLast(initial, run, k, t, Min(life, EXPIRING_SOON) - gap)
  {
    ConnectedThroughout(initial, run, k);
    assert run[..k][..k - 1] == run[..k - 1] && run[..k][k - 1] == run[k - 1];
    TickLeavesTime(life, Exec(initial, run[..k - 1]), run[k - 1]);
  }

  /** The first tick is immediate, the others follow once a minute. */
  ghost predicate OnTime(start: Time, run: seq<Tick>) {
    forall i :: 0 <= i < |run| ==> run[i].at == start + i * REFRESH_PERIOD
  }

  /** The `k`-th tick is the last one handled at moment `t`; at the moment of a tick both
      the state before and the state after it are meant. */
  ghost predicate HandledAt(start: Time, k: nat, t: Time) {
    k > 0 && start + (k - 1) * REFRESH_PERIOD <= t <= start + k * REFRESH_PERIOD
  }

  /** With on-time ticks and tokens issued for five minutes or more, both tokens have at
      least four minutes left at every moment of a connection from the first tick on. */
  lemma AlwaysFourMinutesLeft(start: Time, initial: State, run: seq<Tick>)
    requires OnTime(start, run) && forall i :: 0 <= i < |run| ==> IssuesLast(EXPIRING_SOON, run[i])
    requires Exec(initial, run).phase == Connected
    ensures forall k: nat, t: Time :: k <= |run| && HandledAt(start, k, t) ==> BothLast(initial, run, k, t, 240 * SECOND)
  {
    forall k: nat, t: Time | k <= |run| && HandledAt(start, k, t) ensures BothLast(initial, run, k, t, 240 * SECOND) {
      assert run[k - 1].at == start + (k - 1) * REFRESH_PERIOD;
      assert k * REFRESH_PERIOD == (k - 1) * REFRESH_PERIOD + REFRESH_PERIOD;
      TokensLast(EXPIRING_SOON, REFRESH_PERIOD, initial, run, k, t);
    }
  }

  /** Four minutes is the best bound: tokens with exactly five minutes left are not renewed. */
  lemma FourMinutesIsTight(start: Time, answers: Answers) returns (initial: State, run: seq<Tick>)
    ensures |run| == 1 && OnTime(start, run) && run[0].answers == answers
    ensures Exec(initial, run).phase == Connected
    ensures Exec(initial, run).access.expiresAtUtc == Some(start + REFRESH_PERIOD + 240 * SECOND)
    ensures Exec(initial, run).refresh.expiresAtUtc == Some(start + REFRESH_PERIOD + 240 * SECOND)
  {
    var token := Token("", Some(start + EXPIRING_SOON));
    initial := State(token, token, Connected);
    run := [Tick(start, answers)];
    assert run[..0] == [];
    assert Exec(initial, run) == Step(Exec(initial, run[..0]), run[0]);
  }

  // ---------- what is spent and how often ----------

  /** The `k`-th tick of the run does `action`. */
  ghost predicate Does(initial: State, run: seq<Tick>, k: nat, action: Action) {
    && k < |run| && Exec(initial, run[..k]).phase == Connected && HasExpiry(Exec(initial, run[..k]))
    && Chosen(Exec(initial, run[..k]), run[k].at) == action
  }

  lemma DoesPrefix(initial: State, run: seq<Tick>, n: nat, k: nat, action: Action)
    requires k < n <= |run|
    ensures Does(initial, run[..n], k, action) == Does(initial, run, k, action)
  {
    assert run[..n][..k] == run[..k];
  }

  /** The `i`-th tick is the last one of the run to authenticate anew. */
  ghost predicate LastAuthentication(initial: State, run: seq<Tick>, i: nat) {
    Does(initial, run, i, Reauthenticate) && forall k: nat :: i < k < |run| ==> !Does(initial, run, k, Reauthenticate)
  }

  /** `token` is the refresh token of the last authentication, the one for the connection
      itself if there was none since. */
  ghost predicate LastRefreshToken(initial: State, run: seq<Tick>, token: Token) {
    || (token == initial.refresh && forall k: nat :: k < |run| ==> !Does(initial, run, k, Reauthenticate))
    || (exists i: nat :: LastAuthentication(initial, run, i) && Auth(run[i].answers.tokens).Success?
                         && token == Auth(run[i].answers.tokens).value.1)
  }

  /** The refresh token in use is replaced by authentications and by nothing else. */
  lemma {:induction false} RefreshTokenInUse(initial: State, run: seq<Tick>)
    requires HasExpiry(initial) && Exec(initial, run).phase == Connected
    ensures LastRefreshToken(initial, run, Exec(initial, run).refresh)
  {
    if run != [] {
      var n := |run| - 1;
      RefreshTokenInUse(initial, run[..n]);
      RefreshTokenStep(initial, run, n);
    }
  }

  lemma RefreshTokenStep(initial: State, run: seq<Tick>, n: nat)
    requires n == |run| - 1 && Exec(initial, run).phase == Connected
    requires LastRefreshToken(initial, run[..n], Exec(initial, run[..n]).refresh)
    ensures LastRefreshToken(initial, run, Exec(initial, run).refresh)
  {
    if Does(initial, run, n, Reauthenticate) {
      assert LastAuthentication(initial, run, n);
    } else {
      assert Exec(initial, run).refresh == Exec(initial, run[..n]).refresh;
      SameTokenInUse(initial, run, n, Exec(initial, run).refresh);
    }
  }

  lemma SameTokenInUse(initial: State, run: seq<Tick>, n: nat, token: Token)
    requires n == |run| - 1 && LastRefreshToken(initial, run[..n], token) && !Does(initial, run, n, Reauthenticate)
    ensures LastRefreshToken(initial, run, token)
  {
    if i: nat :| LastAuthentication(initial, run[..n], i) && Auth(run[..n][i].answers.tokens).Success?
                 && token == Auth(run[..n][i].answers.tokens).value.1 {
      StillLast(initial, run, n, i);
      assert run[..n][i] == run[i];
    } else {
      forall k: nat | k < |run| ensures !Does(initial, run, k, Reauthenticate) {
        if k < n {
          DoesPrefix(initial, run, n, k, Reauthenticate);
        }
      }
    }
  }

  lemma StillLast(initial: State, run: seq<Tick>, n: nat, i: nat)
    requires n == |run| - 1 && LastAuthentication(initial, run[..n], i) && !Does(initial, run, n, Reauthenticate)
    ensures LastAuthentication(initial, run, i)
  {
    DoesPrefix(initial, run, n, i, Reauthenticate);
    forall k: nat | i < k < |run| ensures !Does(initial, run, k, Reauthenticate) {
      if k < n {
        DoesPrefix(initial, run, n, k, Reauthenticate);
      }
    }
  }

  /** The `i`-th tick is the last one of the run to replace the access token. */
  ghost predicate LastReplacement(initial: State, run: seq<Tick>, i: nat) {
    Replaces(initial, run, i) && forall k: nat :: i < k < |run| ==> !Replaces(initial, run, k)
  }

  ghost predicate Replaces(initial: State, run: seq<Tick>, k: nat) {
    Does(initial, run, k, Reauthenticate) || Does(initial, run, k, SpendRefreshToken)
  }

  /** What the tick was answered for an access token: the one of a new pair, or a renewed one. */
  ghost predicate AnsweredWith(initial: State, run: seq<Tick>, i: nat, token: Token)
    requires i < |run|
  {
    if Does(initial, run, i, Reauthenticate)
    then Auth(run[i].answers.tokens).Success? && token == Auth(run[i].answers.tokens).value.0
    else run[i].answers.renewed == Success(Some(token))
  }

  /** `token` is what the last replacing tick was answered, or the access token the
      connection began with if there was none. */
  ghost predicate LastAccessToken(initial: State, run: seq<Tick>, token: Token) {
    || (token == initial.access && forall k: nat :: k < |run| ==> !Replaces(initial, run, k))
    || (exists i: nat :: LastReplacement(initial, run, i) && AnsweredWith(initial, run, i, token))
  }

  lemma ReplacesPrefix(initial: State, run: seq<Tick>, n: nat, k: nat)
    requires k < n <= |run|
    ensures Replaces(initial, run[..n], k) == Replaces(initial, run, k)
    ensures Does(initial, run[..n], k, Reauthenticate) == Does(initial, run, k, Reauthenticate)
  {
    DoesPrefix(initial, run, n, k, Reauthenticate);
    DoesPrefix(initial, run, n, k, SpendRefreshToken);
  }

  /** The access token in use is the one of the last answer that carried one. */
  lemma {:induction false} AccessTokenInUse(initial: State, run: seq<Tick>)
    requires HasExpiry(initial) && Exec(initial, run).phase == Connected
    ensures LastAccessToken(initial, run, Exec(initial, run).access)
  {
    if run != [] {
      var n := |run| - 1;
      AccessTokenInUse(initial, run[..n]);
      if Replaces(initial, run, n) {
        assert LastReplacement(initial, run, n) && AnsweredWith(initial, run, n, Exec(initial, run).access);
      } else {
        assert Exec(initial, run).access == Exec(initial, run[..n]).access;
        SameAccessInUse(initial, run, n, Exec(initial, run).access);
      }
    }
  }

  lemma SameAccessInUse(initial: State, run: seq<Tick>, n: nat, token: Token)
    requires n == |run| - 1 && LastAccessToken(initial, run[..n], token) && !Replaces(initial, run, n)
    ensures LastAccessToken(initial, run, token)
  {
    forall k: nat | k < n ensures Replaces(initial, run[..n], k) == Replaces(initial, run, k) {
      ReplacesPrefix(initial, run, n, k);
    }
    if i: nat :| LastReplacement(initial, run[..n], i) && AnsweredWith(initial, run[..n], i, token) {
      ReplacesPrefix(initial, run, n, i);
      assert run[..n][i] == run[i];
      assert LastReplacement(initial, run, i) && AnsweredWith(initial, run, i, token);
    }
  }

  /** In a lasting connection, whenever a refresh token is spent it is the one of the last
      authentication, and it is good for five more minutes. */
  lemma {:induction false} RefreshTokenSpentInTime(initial: State, run: seq<Tick>, k: nat)
    requires HasExpiry(initial) && Exec(initial, run).phase == Connected && Does(initial, run, k, SpendRefreshToken)
    ensures LastRefreshToken(initial, run[..k], Exec(initial, run[..k]).refresh)
    ensures Lasts(Exec(initial, run[..k]).refresh, run[k].at + EXPIRING_SOON)
  {
    ConnectedThroughout(initial, run, k);
    RefreshTokenInUse(initial, run[..k]);
  }

  ghost predicate TicksOrdered(run: seq<Tick>) {
    forall i, j :: 0 <= i < j < |run| ==> run[i].at <= run[j].at
  }

  /** Full authentications are rare: with refresh tokens issued for `life`, any two in one
      connection are more than `life` less five minutes apart. */
  lemma {:induction false} AuthenticationsFarApart(life: Time, initial: State, run: seq<Tick>, i: nat, j: nat)
    requires HasExpiry(initial) && Exec(initial, run).phase == Connected && TicksOrdered(run)
    requires forall k :: 0 <= k < |run| ==> IssuesLast(life, run[k])
    requires i < j && Does(initial, run, i, Reauthenticate) && Does(initial, run, j, Reauthenticate)
    ensures run[i].at + life < run[j].at + EXPIRING_SOON
  {
    ConnectedThroughout(initial, run, j);
    RefreshTokenInUse(initial, run[..j]);
    DoesPrefix(initial, run, j, i, Reauthenticate);
    var token := Exec(initial, run[..j]).refresh;
    var last: nat :| LastAuthentication(initial, run[..j], last) && Auth(run[..j][last].answers.tokens).Success?
                     && token == Auth(run[..j][last].answers.tokens).value.1;
    assert run[..j][last] == run[last] && i <= last;
    assert Lasts(token, run[last].at + life);
  }

  // ---------- the unchecked expiry ----------

  /** An access token without expiry was handed out in answer to a spent refresh token. */
  ghost predicate RenewedWithoutExpiry(s: State, t: Tick) {
    && s.phase == Connected && HasExpiry(s) && Chosen(s, t.at) == SpendRefreshToken
    && t.answers.renewed.Success? && t.answers.renewed.value.Some?
    && t.answers.renewed.value.value.expiresAtUtc.None?
  }

  lemma {:induction false} RefreshTokenKeepsExpiry(initial: State, run: seq<Tick>)
    requires HasExpiry(initial)
    ensures Exec(initial, run).refresh.expiresAtUtc.Some?
  {
    if run != [] {
      RefreshTokenKeepsExpiry(initial, run[..|run| - 1]);
    }
  }

  /** While connected, the access token lacks an expiry exactly when the last tick renewed
      it without one. */
  lemma ExpiryMissingExactly(initial: State, run: seq<Tick>)
    requires HasExpiry(initial) && initial.phase == Connected
    ensures Exec(initial, run).access.expiresAtUtc.None? && Exec(initial, run).phase == Connected
       <==> run != [] && RenewedWithoutExpiry(Exec(initial, run[..|run| - 1]), run[|run| - 1])
  {
    if run != [] {
      RefreshTokenKeepsExpiry(initial, run[..|run| - 1]);
    }
  }

  /** The expiry of a renewed access token is not checked: a tick panics exactly when the
      tick before it renewed the access token without one. */
  lemma PanicsExactly(initial: State, run: seq<Tick>, t: Tick)
    requires HasExpiry(initial) && initial.phase == Connected
    ensures Exec(initial, run).phase == Connected && Exec(initial, run + [t]).phase == Panicked
       <==> run != [] && RenewedWithoutExpiry(Exec(initial, run[..|run| - 1]), run[|run| - 1])
  {
    assert (run + [t])[..|run|] == run;
    RefreshTokenKeepsExpiry(initial, run);
    ExpiryMissingExactly(initial, run);
  }

  /** Such a run exists: the first tick spends the refresh token on a token without
      expiry, and the next tick panics, whatever it would have been answered. */
  lemma RenewalWithoutExpiryPanics(value: string, at: Time, next: Tick, tokens: Result<TokenPair, string>)
    returns (initial: State, first: Tick)
    ensures HasExpiry(initial) && initial.phase == Connected
    ensures first == Tick(at, Answers(tokens, Success(Some(Token(value, None)))))
    ensures Does(initial, [first, next], 0, SpendRefreshToken)
    ensures Exec(initial, [first]).phase == Connected && Exec(initial, [first, next]).phase == Panicked
  {
    var soon, later := Token("", Some(at)), Token("", Some(at + EXPIRING_SOON));
    initial := State(soon, later, Connected);
    first := Tick(at, Answers(tokens, Success(Some(Token(value, None)))));
    assert [first][..0] == [] && [first, next][..0] == [];
    assert Exec(initial, [first]) == Step(Exec(initial, [first][..0]), first);
    PanicsExactly(initial, [first], next);
    assert [first] + [next] == [first, next];
  }
}
