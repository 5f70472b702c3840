/** The challenge store (relayer/src/auth_challenges.rs): one challenge per IP address,
    cleaned up from the earliest expiry. */
module AuthChallenges {
  import opened Common
  import opened Transactions

  type Ip = nat

  datatype Claims = Claims(clientIp: Ip, clientPubkey: Pubkey, expires: Time)

  datatype AuthChallenge = AuthChallenge(challenge: string, accessClaims: Claims, refreshClaims: Claims, expires: Time)

  predicate IsExpired(c: AuthChallenge, now: Time) {
    c.expires <= now
  }

  /** What a scan of the whole map would keep. */
  function Unexpired(entries: map<Ip, AuthChallenge>, now: Time): map<Ip, AuthChallenge> {
    map ip | ip in entries && !IsExpired(entries[ip], now) :: entries[ip]
  }

  /** `top` is a key with the earliest expiry, if there is any key. */
  ghost predicate IsTop(entries: map<Ip, AuthChallenge>, top: Option<Ip>) {
    && (top.None? <==> entries == map[])
    && (top.Some? ==> top.value in entries && forall ip :: ip in entries ==> entries[top.value].expires <= entries[ip].expires)
  }

  /** What is missing from `entries` had expired by `now`; nothing else changed. */
  ghost predicate OnlyExpiredGone(before: map<Ip, AuthChallenge>, entries: map<Ip, AuthChallenge>, now: Time) {
    && (forall ip :: ip in entries ==> ip in before && entries[ip] == before[ip])
    && (forall ip :: ip in before && ip !in entries ==> IsExpired(before[ip], now))
  }

  ghost predicate NothingExpired(entries: map<Ip, AuthChallenge>, now: Time) {
    forall ip :: ip in entries ==> !IsExpired(entries[ip], now)
  }

  lemma UnexpiredLeft(before: map<Ip, AuthChallenge>, entries: map<Ip, AuthChallenge>, now: Time)
    requires OnlyExpiredGone(before, entries, now) && NothingExpired(entries, now)
    ensures entries == Unexpired(before, now)
  {
  }

  class ChallengeQueue {
    var entries: map<Ip, AuthChallenge>

    constructor ()
      ensures entries == map[]
    {
      entries := map[];
    }

    /** The top of the reversed priority queue. */
    method Peek() returns (top: Option<Ip>)
      ensures IsTop(entries, top)
    {
      if entries.Keys == {} {
        return None;
      }
      var best :| best in entries.Keys;
      var left := entries.Keys - {best};
      while left != {}
        invariant left <= entries.Keys && best in entries
        invariant forall ip :: ip in entries && ip !in left ==> entries[best].expires <= entries[ip].expires
        decreases left
      {
        var ip :| ip in left;
        if entries[ip].expires < entries[best].expires {
          best := ip;
        }
        left := left - {ip};
      }
      top := Some(best);
    }

    /** The clock is read again for every challenge looked at; `clock` holds those
        readings and `used` says how many were needed. */
    method RemoveAllExpired(clock: seq<Time>) returns (used: nat)
      requires |clock| >= |entries|
      requires forall i, j :: 0 <= i < j < |clock| ==> clock[i] <= clock[j]
      modifies this
      ensures used <= |old(entries)| && (used == 0 <==> old(entries) == map[])
      ensures entries == if used > 0 then Unexpired(old(entries), clock[used - 1]) else map[]
    {
      used := 0;
      var now := 0;
      var popped := true;
      while popped && |entries| > 0
        invariant OnlyExpiredGone(old(entries), entries, now)
        invariant used + |entries| == |old(entries)| + (if popped then 0 else 1) && used <= |old(entries)|
        invariant if used == 0 then popped && entries == old(entries) else now == clock[used - 1]
        invariant !popped ==> NothingExpired(entries, now)
        decreases |entries|, popped
      {
        now := clock[used];
        used := used + 1;
        popped := PopIfExpired(now);
      }
      UnexpiredLeft(old(entries), entries, now);
    }

    /** One turn of the loop: look at the top and pop it if it has expired. */
    method PopIfExpired(now: Time) returns (popped: bool)
      requires |entries| > 0
      modifies this
      ensures if popped then |entries| == |old(entries)| - 1 else entries == old(entries) && NothingExpired(entries, now)
      ensures OnlyExpiredGone(old(entries), entries, now)
    {
      var top := Peek();
      popped := IsExpired(entries[top.value], now);
      if popped {
        Pop(top.value);
      }
    }

    method Pop(top: Ip)
      requires top in entries
      modifies this
      ensures entries == old(entries) - {top} && |entries| == |old(entries)| - 1
    {
      RemovalShrinks(entries, top);
      entries := entries - {top};
    }

    method Push(ip: Ip, challenge: AuthChallenge)
      modifies this
      ensures entries == old(entries)[ip := challenge]
    {
      entries := entries[ip := challenge];
    }

    method Len() returns (n: nat)
      ensures n == |entries|
    {
      n := |entries|;
    }

    /** An expired challenge is found like any other. */
    method GetPriority(ip: Ip) returns (r: Option<AuthChallenge>)
      ensures r.Some? <==> ip in entries
      ensures r.Some? ==> r.value == entries[ip]
    {
      r := if ip in entries then Some(entries[ip]) else None;
    }

    method Remove(ip: Ip)
      modifies this
      ensures entries == old(entries) - {ip}
    {
      entries := entries - {ip};
    }
  }

  lemma RemovalShrinks<K, V>(m: map<K, V>, k: K)
    requires k in m
    ensures |m - {k}| == |m| - 1
  {
    assert (m - {k}).Keys == m.Keys - {k};
  }
}
