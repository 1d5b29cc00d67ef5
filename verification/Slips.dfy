/** How a token can be reported active after its revocation has returned 200: the runs that the bound on it leaves room for. */
module Slips {
  import opened Prelude
  import opened ReplayStore
  import opened Server
  import opened RunBuilding
  import opened TwoTokens

  /** Revocation `a` has returned 200, and introspection `b` reports the token active at the same process. */
  ghost predicate RevokedYetActive(s: State, a: nat, b: nat, r: nat, token: string) {
    && a in s.revokings && s.revokings[a].replica == r && s.revokings[a].token == token && s.revokings[a].phase == Ended(true)
    && b in s.lookups && s.lookups[b].replica == r && s.lookups[b].token == token && s.lookups[b].answer == Some(true)
  }

  ghost predicate Slips(w: World, s: State, a: nat, b: nat, r: nat, token: string) {
    exists t :: Leads(w, s, t) && RevokedYetActive(t, a, b, r, token)
  }

  /** Whatever token is active now, an introspection that dawdles past its expiry reports it active after a late revocation. */
  lemma StaleReadingSlips(w: World, s: State, r: nat, token: string, a: nat, b: nat)
    requires Serves(s, r) && a != b && Waits(s, a) && Waits(s, b)
    requires Active(w, r, token, s.clock) && token !in List(s, r)
    ensures Slips(w, s, a, b, r, token)
  {
    var s1 := AsRead(s, b, r, token);
    ReadLeads(w, s, b, r, token);
    var s2 := s1.(clock := ExpiryOf(w, token));
    TickLeads(w, s1, ExpiryOf(w, token));
    VainRevocationLeads(w, s2, a, r, token);
    var s3 := s2.(revokings := s2.revokings[a := Revoking(r, token, s2.clock, Ended(true))]);
    AnswerLeads(w, s3, b);
    var t := AsAnswered(s3, b);
    LeadsOn(w, s, s1, s2);
    LeadsOn(w, s, s2, s3);
    LeadsOn(w, s, s3, t);
    assert List(s3, r) == List(s, r);
    assert RevokedYetActive(t, a, b, r, token);
  }

  /** A token that becomes active only later is not listed by a revocation now, and is reported active then. */
  lemma EarlyRevocationIsLost(w: World, s: State, r: nat, token: string, a: nat, b: nat, later: int)
    requires Serves(s, r) && a != b && Waits(s, a) && Waits(s, b)
    requires !Active(w, r, token, s.clock) && s.clock <= later && Active(w, r, token, later) && token !in List(s, r)
    ensures Slips(w, s, a, b, r, token)
  {
    VainRevocationLeads(w, s, a, r, token);
    var s1 := s.(revokings := s.revokings[a := Revoking(r, token, s.clock, Ended(true))]);
    var s2 := s1.(clock := later);
    TickLeads(w, s1, later);
    var s3 := AsRead(s2, b, r, token);
    ReadLeads(w, s2, b, r, token);
    AnswerLeads(w, s3, b);
    var t := AsAnswered(s3, b);
    LeadsOn(w, s, s1, s2);
    LeadsOn(w, s, s2, s3);
    LeadsOn(w, s, s3, t);
    assert List(s3, r) == List(s, r);
    assert RevokedYetActive(t, a, b, r, token);
  }

  // ---------------------------------------------------------------- a listed token is forgotten

  /** Another introspection, after the token has expired, purges it from the list. */
  lemma PurgeLeads(w: World, s: State, r: nat, token: string, other: string, c: nat)
    requires Serves(s, r) && Waits(s, c) && Active(w, r, other, s.clock)
    requires token in List(s, r) ==> List(s, r)[token] < s.clock
    ensures var t := AsAnswered(AsRead(s, c, r, other), c);
      && Leads(w, s, t) && token !in List(t, r) && t == s.(lookups := t.lookups, lists := t.lists)
      && forall n :: n in s.lookups ==> n in t.lookups && t.lookups[n] == s.lookups[n]
  {
    ReadLeads(w, s, c, r, other);
    var s1 := AsRead(s, c, r, other);
    AnswerLeads(w, s1, c);
    LeadsOn(w, s, s1, AsAnswered(s1, c));
    assert List(s1, r) == List(s, r);
  }

  /** The revocation has returned 200 in `s`; an introspection that has yet to begin reports the token active. */
  ghost predicate SlipsAfter(w: World, s: State, a: nat, b: nat, r: nat, token: string) {
    b !in s.lookups && Slips(w, s, a, b, r, token)
  }

  lemma ReadThenPurged(w: World, s: State, r: nat, token: string, other: string, b: nat, c: nat, later: int) returns (t: State)
    requires Serves(s, r) && b != c && Waits(s, b) && Waits(s, c) && s.clock <= later
    requires Active(w, r, other, later) && (token in List(s, r) ==> List(s, r)[token] < later)
    ensures Leads(w, s, t) && token !in List(t, r) && t.revokings == s.revokings
    ensures b in t.lookups && t.lookups[b] == Lookup(r, token, s.clock, None)
  {
    var s1 := AsRead(s, b, r, token);
    ReadLeads(w, s, b, r, token);
    var s2 := s1.(clock := later);
    TickLeads(w, s1, later);
    assert List(s2, r) == List(s, r);
    PurgeLeads(w, s2, r, token, other, c);
    t := AsAnswered(AsRead(s2, c, r, other), c);
    LeadsOn(w, s, s1, s2);
    LeadsOn(w, s, s2, t);
  }

  /**
   * A token revoked while it is active and listed: an introspection that begins after the 200, reads the clock and answers
   * only when another introspection has purged the expired entry, reports it active.
   */
  lemma PurgedEntrySlips(w: World, s: State, r: nat, token: string, other: string, a: nat, b: nat, c: nat, later: int)
    requires Serves(s, r) && a != b && a != c && b != c && Waits(s, a) && Waits(s, b) && Waits(s, c)
    requires Active(w, r, token, s.clock) && |Purge(List(s, r), s.clock)| < w.cfg(r).maxSeen
    requires ExpiryOf(w, token) < later && Active(w, r, other, later)
    ensures Leads(w, s, AsRevoked(w, s, a, r, token)) && token in List(AsRevoked(w, s, a, r, token), r)
    ensures SlipsAfter(w, AsRevoked(w, s, a, r, token), a, b, r, token)
  {
    RevocationLeads(w, s, a, r, token);
    var s1 := AsRevoked(w, s, a, r, token);
    var s2 := ReadThenPurged(w, s1, r, token, other, b, c, later);
    AnswerLeads(w, s2, b);
    var t := AsAnswered(s2, b);
    LeadsOn(w, s1, s2, t);
    assert RevokedYetActive(t, a, b, r, token);
  }

  // ---------------------------------------------------------------- from the initial state

  lemma ReadyWaits(w: World, s: State, a: Plan, b: Plan, n: int, m: int, files: bool, c: nat)
    requires Ready(w, s, a, b, n, m, 3, files) && c < 3
    ensures Waits(s, c)
  {
  }

  /**
   * Such states are reached from the initial one: for any two tokens of one process, the second outliving the first, some
   * reachable state with both active has all it takes to have the first one revoked and still reported active afterwards.
   */
  lemma SlipsAreReachable(w: World, a: Plan, b: Plan, n: int, m: int, later: int, callers: seq<string>, files: bool) returns (s: State)
    requires ValidWorld(w) && Fruitful(w, a, n, m) && Fruitful(w, b, m, later) && a.replica == b.replica && (files || a.replica == 0)
    requires MintedBy(w, a, n).exp < later && |callers| == 3 && Apart(w, a, b, m, callers, files)
    ensures Reachable(w, s) && Slips(w, s, 0, 1, a.replica, a.token)
    ensures SlipsAfter(w, AsRevoked(w, s, 0, a.replica, a.token), 0, 1, a.replica, a.token)
  {
    FruitfulPasses(w, a, n, m);
    FruitfulPasses(w, b, m, later);
    FruitfulLives(w, a, n, m);
    FruitfulLives(w, b, m, later);
    s := GetReady(w, a, b, n, m, callers, files);
    SlipsFromReady(w, s, a, b, n, m, later, files);
  }

  lemma SlipsFromReady(w: World, s: State, a: Plan, b: Plan, n: int, m: int, later: int, files: bool)
    requires Ready(w, s, a, b, n, m, 3, files) && a.replica == b.replica && w.cfg(a.replica).maxSeen >= 1
    requires Lives(w, a, n, m) && Lives(w, b, m, later) && MintedBy(w, a, n).exp < later
    ensures Slips(w, s, 0, 1, a.replica, a.token)
    ensures SlipsAfter(w, AsRevoked(w, s, 0, a.replica, a.token), 0, 1, a.replica, a.token)
  {
    ReadyWaits(w, s, a, b, n, m, files, 0);
    ReadyWaits(w, s, a, b, n, m, files, 1);
    ReadyWaits(w, s, a, b, n, m, files, 2);
    assert List(s, a.replica) == map[] && Purge(map[], m) == map[];
    StaleReadingSlips(w, s, a.replica, a.token, 0, 1);
    PurgedEntrySlips(w, s, a.replica, a.token, b.token, 0, 1, 2, later);
  }
}
