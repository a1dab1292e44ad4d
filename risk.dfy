/**
 * The risk scoring engine of the phishing dashboard: a per-user score summed
 * over the user's targets, the High/Medium/Low banding of that score, and the
 * repeat-offender set. All of it is read-only over a snapshot of the ledger.
 */
module RiskEngine {
  import opened Wrappers
  import opened Models
  import PhishingLedger

  // ---------------------------------------------------------------------------
  // Risk score

  /** A target's contribution: +1 opened, +3 clicked, +5 submitted, -4 reported. */
  function TargetScore(t: Target): (s: int)
    ensures s < 0 ==> t.reportedPhish.Some?
  {
    (if t.emailOpened.Some? then 1 else 0)
    + (if t.linkClicked.Some? then 3 else 0)
    + (if t.dataSubmitted.Some? then 5 else 0)
    - (if t.reportedPhish.Some? then 4 else 0)
  }

  /** The sum of the contributions of `ts`. */
  function Score(ts: seq<Target>): int
    decreases |ts|
  {
    if ts == [] then 0 else Score(ts[..|ts| - 1]) + TargetScore(ts[|ts| - 1])
  }

  /** `[t for t in all_targets if t.user_id == user]`. */
  function TargetsOf(ts: seq<Target>, user: int): (r: seq<Target>)
    ensures |r| <= |ts|
    ensures forall k :: 0 <= k < |r| ==> r[k].userId == user
    decreases |ts|
  {
    if ts == [] then []
    else TargetsOf(ts[..|ts| - 1], user) + (if ts[|ts| - 1].userId == user then [ts[|ts| - 1]] else [])
  }

  /** A user's risk score over every target in the ledger. */
  function RiskScore(ts: seq<Target>, user: int): int
  {
    Score(TargetsOf(ts, user))
  }

  /** A target contributes between -4 (only reported) and 9 (opened, clicked, submitted). */
  lemma TargetScoreBounds(t: Target)
    ensures -4 <= TargetScore(t) <= 9
    ensures t.reportedPhish.None? ==> TargetScore(t) >= 0
  {
  }

  /** Scores add up over concatenated target lists. */
  lemma {:induction false} ScoreAppend(a: seq<Target>, b: seq<Target>)
    ensures Score(a + b) == Score(a) + Score(b)
    decreases |b|
  {
    if b == [] {
      assert a + b == a;
    } else {
      var b' := b[..|b| - 1];
      assert (a + b)[..|a + b| - 1] == a + b';
      ScoreAppend(a, b');
    }
  }

  /** n targets score at least -4n and at most 9n. */
  lemma {:induction false} ScoreBounds(ts: seq<Target>)
    ensures -4 * |ts| <= Score(ts) <= 9 * |ts|
    decreases |ts|
  {
    if ts != [] {
      ScoreBounds(ts[..|ts| - 1]);
      TargetScoreBounds(ts[|ts| - 1]);
    }
  }

  /** A user with no targets scores 0; every score lies within -4 and 9 per target of the user. */
  lemma RiskScoreBounds(ts: seq<Target>, user: int)
    ensures (forall j :: 0 <= j < |ts| ==> ts[j].userId != user) ==> RiskScore(ts, user) == 0
    ensures -4 * |TargetsOf(ts, user)| <= RiskScore(ts, user) <= 9 * |TargetsOf(ts, user)|
  {
    ScoreBounds(TargetsOf(ts, user));
    if forall j :: 0 <= j < |ts| ==> ts[j].userId != user {
      NoTargetsOf(ts, user);
    }
  }

  lemma {:induction false} NoTargetsOf(ts: seq<Target>, user: int)
    requires forall j :: 0 <= j < |ts| ==> ts[j].userId != user
    ensures TargetsOf(ts, user) == []
    decreases |ts|
  {
    if ts != [] {
      NoTargetsOf(ts[..|ts| - 1], user);
    }
  }

  /** A user who only ever reported scores below zero. */
  lemma ReporterScoresNegative(t: Target)
    requires t.reportedPhish.Some? && t.emailOpened.None? && t.linkClicked.None? && t.dataSubmitted.None?
    ensures RiskScore([t], t.userId) == -4
  {
    assert [t][..0] == [];
    assert TargetsOf([t], t.userId) == [t];
    assert Score([t]) == Score([]) + TargetScore(t);
  }

  /**
   * Replacing one target by another of the same user shifts that user's score
   * by the difference of the two contributions, and no other user's score.
   */
  lemma {:induction false} RiskScoreUpdate(ts: seq<Target>, i: nat, t: Target, user: int)
    requires i < |ts| && t.userId == ts[i].userId
    ensures RiskScore(ts[i := t], user) ==
      RiskScore(ts, user) + (if t.userId == user then TargetScore(t) - TargetScore(ts[i]) else 0)
    decreases |ts|
  {
    var n := |ts| - 1;
    var us := ts[i := t];
    var init, uinit := ts[..n], us[..n];
    assert ts == init + [ts[n]] && us == uinit + [us[n]];
    var last := if ts[n].userId == user then [ts[n]] else [];
    var ulast := if us[n].userId == user then [us[n]] else [];
    ScoreAppend(TargetsOf(init, user), last);
    ScoreAppend(TargetsOf(uinit, user), ulast);
    if i < n {
      assert uinit == init[i := t];
      RiskScoreUpdate(init, i, t, user);
    } else {
      assert uinit == init;
    }
  }

  /** A pixel fetch raises its user's score by at most one and never lowers it. */
  lemma PixelRaisesScoreByAtMostOne(ts: seq<Target>, key: string, now: Time, user: int)
    ensures RiskScore(ts, user) <= RiskScore(PhishingLedger.Pixel(ts, key, now), user) <= RiskScore(ts, user) + 1
  {
    match PhishingLedger.FindByKey(ts, key)
    case None =>
    case Some(i) =>
      RiskScoreUpdate(ts, i, RecordFirst(ts[i], Opened, now), user);
  }

  /** The scoring example: {opened, clicked} and {opened, reported} give 1, "Low". */
  lemma ScoringExample(a: Target, b: Target)
    requires a.userId == b.userId
    requires a.emailOpened.Some? && a.linkClicked.Some? && a.dataSubmitted.None? && a.reportedPhish.None?
    requires b.emailOpened.Some? && b.linkClicked.None? && b.dataSubmitted.None? && b.reportedPhish.Some?
    ensures RiskScore([a, b], a.userId) == 1
    ensures RiskLevel(RiskScore([a, b], a.userId)) == Low
  {
    var u := a.userId;
    assert [a, b][..1] == [a] && [a][..0] == [];
    assert TargetsOf([a], u) == [a];
    assert TargetsOf([a, b], u) == [a, b];
    assert Score([a]) == TargetScore(a);
    assert Score([a, b]) == TargetScore(a) + TargetScore(b);
  }

  /**
   * The score loop of the dashboard: select the user's targets, then add each
   * target's contribution in turn.
   */
  method UserScore(allTargets: seq<Target>, user: int) returns (score: int)
    ensures score == RiskScore(allTargets, user)
  {
    var targets := TargetsOf(allTargets, user);
    score := 0;
    for i := 0 to |targets|
      invariant score == Score(targets[..i])
    {
      var t := targets[i];
      if t.emailOpened.Some? { score := score + 1; }
      if t.linkClicked.Some? { score := score + 3; }
      if t.dataSubmitted.Some? { score := score + 5; }
      if t.reportedPhish.Some? { score := score - 4; }
      assert targets[..i + 1][..i] == targets[..i];
    }
    assert targets[..|targets|] == targets;
  }

  /** The `user_risk` table: one score per user id. */
  method UserRiskTable(allTargets: seq<Target>, users: seq<int>) returns (risk: map<int, int>)
    ensures risk.Keys == set u | u in users
    ensures forall u :: u in risk ==> risk[u] == RiskScore(allTargets, u)
  {
    risk := map[];
    for k := 0 to |users|
      invariant risk.Keys == set u | u in users[..k]
      invariant forall u :: u in risk ==> risk[u] == RiskScore(allTargets, u)
    {
      var score := UserScore(allTargets, users[k]);
      risk := risk[users[k] := score];
      assert users[..k + 1] == users[..k] + [users[k]];
    }
    assert users[..|users|] == users;
  }

  // ---------------------------------------------------------------------------
  // Risk level

  datatype Level = Low | Medium | High

  /** `risk_level`: High from 8, Medium from 4, Low below (negative scores included). */
  function RiskLevel(score: int): (l: Level)
    ensures l == High <==> score >= 8
    ensures l == Medium <==> 4 <= score < 8
    ensures l == Low <==> score < 4
  {
    if score >= 8 then High
    else if score >= 4 then Medium
    else Low
  }

  /** The label the dashboard shows for a level. */
  function Label(l: Level): string
  {
    match l
    case High => "High"
    case Medium => "Medium"
    case Low => "Low"
  }

  /** The position of a level in Low < Medium < High. */
  function Rank(l: Level): nat
  {
    match l
    case Low => 0
    case Medium => 1
    case High => 2
  }

  /** A higher score never yields a lower level. */
  lemma RiskLevelMonotone(a: int, b: int)
    requires a <= b
    ensures Rank(RiskLevel(a)) <= Rank(RiskLevel(b))
  {
  }

  /** The band edges: 3 and -1 are Low, 4 is Medium, 8 is High. */
  lemma RiskLevelBoundaries()
    ensures RiskLevel(3) == Low && RiskLevel(-1) == Low
    ensures RiskLevel(4) == Medium && RiskLevel(7) == Medium
    ensures RiskLevel(8) == High
    ensures Label(RiskLevel(4)) == "Medium"
  {
  }

  // ---------------------------------------------------------------------------
  // Repeat offenders

  const RepeatThreshold := 2

  /** A target counts as an offence when its link was clicked or data submitted. */
  predicate IsOffence(t: Target)
  {
    t.linkClicked.Some? || t.dataSubmitted.Some?
  }

  /** The number of a user's offending targets; a target counts once. */
  function OffenceCount(ts: seq<Target>, user: int): nat
    decreases |ts|
  {
    if ts == [] then 0
    else
      var t := ts[|ts| - 1];
      OffenceCount(ts[..|ts| - 1], user) + (if t.userId == user && IsOffence(t) then 1 else 0)
  }

  /** Each target of the user counts at most once. */
  lemma {:induction false} OffenceCountAtMostTargets(ts: seq<Target>, user: int)
    ensures OffenceCount(ts, user) <= |TargetsOf(ts, user)|
    decreases |ts|
  {
    if ts != [] {
      OffenceCountAtMostTargets(ts[..|ts| - 1], user);
    }
  }

  /** A target both clicked and submitted is one offence, not two. */
  lemma OffenceCountsTargetOnce(t: Target)
    requires t.linkClicked.Some? && t.dataSubmitted.Some?
    ensures OffenceCount([t], t.userId) == 1
  {
    assert [t][..0] == [];
  }

  /**
   * The `Counter` loop and the threshold filter: a user is a repeat offender
   * iff at least `threshold` of the user's targets are offences; a user with no
   * offence never is one.
   */
  method RepeatOffenders(allTargets: seq<Target>, threshold: int) returns (offenders: set<int>)
    ensures forall u :: u in offenders <==> OffenceCount(allTargets, u) > 0 && OffenceCount(allTargets, u) >= threshold
  {
    var counts: map<int, nat> := map[];
    for i := 0 to |allTargets|
      invariant forall u :: u in counts <==> OffenceCount(allTargets[..i], u) > 0
      invariant forall u :: u in counts ==> counts[u] == OffenceCount(allTargets[..i], u)
    {
      var t := allTargets[i];
      assert allTargets[..i + 1][..i] == allTargets[..i];
      if IsOffence(t) {
        counts := counts[t.userId := (if t.userId in counts then counts[t.userId] else 0) + 1];
      }
    }
    assert allTargets[..|allTargets|] == allTargets;
    offenders := set u | u in counts && counts[u] >= threshold;
  }

  /** Two clicked targets make a repeat offender at threshold 2, not at 3. */
  lemma RepeatOffenderExample(a: Target, b: Target)
    requires a.userId == b.userId && a.linkClicked.Some? && b.linkClicked.Some?
    ensures OffenceCount([a, b], a.userId) == 2
    ensures OffenceCount([a, b], a.userId) >= RepeatThreshold
    ensures !(OffenceCount([a, b], a.userId) >= 3)
  {
    assert [a, b][..1] == [a] && [a][..0] == [];
    assert OffenceCount([a], a.userId) == 1;
  }
}
