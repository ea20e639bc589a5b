/** The host sweep's decision whether to kill a running container. */
module StuckDecision {
  import opened Wrappers

  const ABSOLUTE_CEILING_MS := 30 * 60 * 1000
  const CLAIM_STUCK_MS := 60 * 1000

  /** The container's row about the tool in flight. */
  datatype ContainerState = ContainerState(currentTool: Option<string>, declaredTimeoutMs: Option<int>)

  /** A row still in 'processing'; no time means an unparseable timestamp. */
  datatype Claim = Claim(messageId: string, claimedAt: Option<int>)

  datatype Decision =
    | Spare
    | KillCeiling(heartbeatAgeMs: int, ceilingMs: int)
    | KillClaim(messageId: string, claimAgeMs: int, toleranceMs: int)

  function Max(a: int, b: int): int {
    if a >= b then a else b
  }

  function BashTimeoutMs(state: Option<ContainerState>): Option<int> {
    if state.None? || state.value.currentTool != Some("Bash") then None else state.value.declaredTimeoutMs
  }

  /** A base window, stretched while Bash has declared that it runs longer. */
  function Stretched(base: int, state: Option<ContainerState>): int {
    match BashTimeoutMs(state)
    case None => Max(base, 0)
    case Some(declared) => Max(base, declared)
  }

  predicate Stuck(claim: Claim, now: int, heartbeat: int, tolerance: int) {
    claim.claimedAt.Some? && now - claim.claimedAt.value > tolerance && heartbeat <= claim.claimedAt.value
  }

  function FirstStuck(claims: seq<Claim>, now: int, heartbeat: int, tolerance: int): (d: Decision)
    ensures !d.KillCeiling?
  {
    if claims == [] then Spare
    else if Stuck(claims[0], now, heartbeat, tolerance) then
      KillClaim(claims[0].messageId, now - claims[0].claimedAt.value, tolerance)
    else FirstStuck(claims[1..], now, heartbeat, tolerance)
  }

  /** A heartbeat of 0 means that the file is absent. */
  function Decide(now: int, heartbeat: int, state: Option<ContainerState>, claims: seq<Claim>): Decision {
    var ceiling := Stretched(ABSOLUTE_CEILING_MS, state);
    if heartbeat != 0 && now - heartbeat > ceiling then KillCeiling(now - heartbeat, ceiling)
    else FirstStuck(claims, now, heartbeat, Stretched(CLAIM_STUCK_MS, state))
  }

  lemma {:induction false} FirstStuckIff(claims: seq<Claim>, now: int, heartbeat: int, tolerance: int)
    ensures FirstStuck(claims, now, heartbeat, tolerance) != Spare
       <==> exists i :: 0 <= i < |claims| && Stuck(claims[i], now, heartbeat, tolerance)
  {
    if claims != [] {
      FirstStuckIff(claims[1..], now, heartbeat, tolerance);
      if i :| 0 <= i < |claims| && Stuck(claims[i], now, heartbeat, tolerance) {
        assert i > 0 ==> claims[1..][i - 1] == claims[i];
      }
    }
  }

  /** Killed exactly when the heartbeat is past the ceiling, or some claim is older
      than the tolerance with no sign of life since. */
  lemma KilledIff(now: int, heartbeat: int, state: Option<ContainerState>, claims: seq<Claim>)
    ensures Decide(now, heartbeat, state, claims) != Spare <==>
      || (heartbeat != 0 && now - heartbeat > Stretched(ABSOLUTE_CEILING_MS, state))
      || exists i :: 0 <= i < |claims| && Stuck(claims[i], now, heartbeat, Stretched(CLAIM_STUCK_MS, state))
  {
    FirstStuckIff(claims, now, heartbeat, Stretched(CLAIM_STUCK_MS, state));
  }

  /** The Bash timeout that the container has declared, 0 without one. */
  function DeclaredMs(state: Option<ContainerState>): int {
    if state.Some? && state.value.currentTool == Some("Bash") && state.value.declaredTimeoutMs.Some?
    then state.value.declaredTimeoutMs.value else 0
  }

  /** The decision in numbers: the ceiling is half an hour and the tolerance of a claim
      a minute, both stretched to a declared Bash timeout. The ceiling goes first. */
  lemma DecideInNumbers(now: int, heartbeat: int, state: Option<ContainerState>, claims: seq<Claim>)
    ensures var ceiling := if DeclaredMs(state) > 1800000 then DeclaredMs(state) else 1800000;
      var tolerance := if DeclaredMs(state) > 60000 then DeclaredMs(state) else 60000;
      && (Decide(now, heartbeat, state, claims) == KillCeiling(now - heartbeat, ceiling) <==> heartbeat != 0 && now - heartbeat > ceiling)
      && (Decide(now, heartbeat, state, claims) == Spare <==>
            && (heartbeat == 0 || now - heartbeat <= ceiling)
            && forall claim :: claim in claims && claim.claimedAt.Some? ==>
                 now - claim.claimedAt.value <= tolerance || heartbeat > claim.claimedAt.value)
  {
    KilledIff(now, heartbeat, state, claims);
    assert forall claim :: claim in claims ==> exists i :: 0 <= i < |claims| && claims[i] == claim;
    assert forall i :: 0 <= i < |claims| ==> claims[i] in claims;
  }

  /** A kill for a claim names the first one over the tolerance, and how old it is. */
  lemma {:induction false} FirstStuckIsNamed(claims: seq<Claim>, now: int, heartbeat: int, tolerance: int, i: nat)
    requires i < |claims| && claims[i].claimedAt.Some?
    requires now - claims[i].claimedAt.value > tolerance && heartbeat <= claims[i].claimedAt.value
    requires forall j :: 0 <= j < i && claims[j].claimedAt.Some? ==>
      now - claims[j].claimedAt.value <= tolerance || heartbeat > claims[j].claimedAt.value
    ensures FirstStuck(claims, now, heartbeat, tolerance) == KillClaim(claims[i].messageId, now - claims[i].claimedAt.value, tolerance)
  {
    if i > 0 {
      FirstStuckIsNamed(claims[1..], now, heartbeat, tolerance, i - 1);
    }
  }

  /** A container that Bash keeps busy within its declared timeout is spared, however
      long that is. */
  lemma DeclaredBashSpares(now: int, heartbeat: int, declared: int, claims: seq<Claim>)
    requires heartbeat != 0 && now - heartbeat <= declared
    requires forall claim :: claim in claims && claim.claimedAt.Some? ==> now - claim.claimedAt.value <= declared
    ensures Decide(now, heartbeat, Some(ContainerState(Some("Bash"), Some(declared))), claims) == Spare
  {
    DecideInNumbers(now, heartbeat, Some(ContainerState(Some("Bash"), Some(declared))), claims);
  }

  /** A container whose heartbeat is at most a minute old is never killed. */
  lemma FreshHeartbeatSpares(now: int, heartbeat: int, state: Option<ContainerState>, claims: seq<Claim>)
    requires heartbeat != 0 && now - heartbeat <= CLAIM_STUCK_MS
    ensures Decide(now, heartbeat, state, claims) == Spare
  {
    KilledIff(now, heartbeat, state, claims);
  }

  /** With the other inputs fixed a decision to kill stays one as time passes. */
  lemma KillIsMonotone(now: int, later: int, heartbeat: int, state: Option<ContainerState>, claims: seq<Claim>)
    requires now <= later && Decide(now, heartbeat, state, claims) != Spare
    ensures Decide(later, heartbeat, state, claims) != Spare
  {
    KilledIff(now, heartbeat, state, claims);
    KilledIff(later, heartbeat, state, claims);
    var tolerance := Stretched(CLAIM_STUCK_MS, state);
    if i :| 0 <= i < |claims| && Stuck(claims[i], now, heartbeat, tolerance) {
      assert Stuck(claims[i], later, heartbeat, tolerance);
    }
  }

  /** What one sweep tick reads of a running container. */
  datatype Reading = Reading(now: int, heartbeat: int, state: Option<ContainerState>, claims: seq<Claim>)

  /** The container has shown no life since it claimed at time c, and has declared
      no Bash timeout above `declared`. */
  predicate SilentSince(r: Reading, c: int, declared: int) {
    && r.heartbeat <= c
    && (exists i :: 0 <= i < |r.claims| && r.claims[i].claimedAt == Some(c))
    && Stretched(CLAIM_STUCK_MS, r.state) <= Max(CLAIM_STUCK_MS, declared)
  }

  predicate Killed(r: Reading) {
    Decide(r.now, r.heartbeat, r.state, r.claims) != Spare
  }

  lemma SilentIsKilled(r: Reading, c: int, declared: int)
    requires SilentSince(r, c, declared) && r.now > c + Max(CLAIM_STUCK_MS, declared)
    ensures Killed(r)
  {
    KilledIff(r.now, r.heartbeat, r.state, r.claims);
    var i :| 0 <= i < |r.claims| && r.claims[i].claimedAt == Some(c);
    assert Stuck(r.claims[i], r.now, r.heartbeat, Stretched(CLAIM_STUCK_MS, r.state));
  }

  /** With ticks at most `gap` apart, a container silent since a claim is killed
      within the tolerance plus one gap. */
  lemma {:induction false} SilentIsKilledInTime(ticks: seq<Reading>, c: int, declared: int, gap: int)
    requires |ticks| > 0
    requires forall j :: 0 <= j < |ticks| ==> SilentSince(ticks[j], c, declared)
    requires forall j :: 0 <= j < |ticks| - 1 ==> ticks[j].now <= ticks[j + 1].now <= ticks[j].now + gap
    requires ticks[0].now <= c + Max(CLAIM_STUCK_MS, declared) + gap
    requires ticks[|ticks| - 1].now > c + Max(CLAIM_STUCK_MS, declared)
    ensures exists i :: 0 <= i < |ticks| && Killed(ticks[i]) && ticks[i].now <= c + Max(CLAIM_STUCK_MS, declared) + gap
  {
    if ticks[0].now > c + Max(CLAIM_STUCK_MS, declared) {
      SilentIsKilled(ticks[0], c, declared);
    } else {
      var rest := ticks[1..];
      forall j | 0 <= j < |rest| ensures rest[j] == ticks[j + 1] {
      }
      SilentIsKilledInTime(rest, c, declared, gap);
      var k :| 0 <= k < |rest| && Killed(rest[k]) && rest[k].now <= c + Max(CLAIM_STUCK_MS, declared) + gap;
      assert Killed(ticks[k + 1]);
    }
  }
}
