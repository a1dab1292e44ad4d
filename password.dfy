/**
 * The password-strength checker: five checks (length, uppercase, lowercase,
 * digit, symbol) give a score from 0 to 6, one feedback hint per failed check
 * in a fixed order, and a strength label.
 */
module PasswordStrength {

  const MinLength := 12

  const Levels: seq<string> := ["Weak", "Fair", "Strong", "Very Strong", "Excellent"]

  /** The feedback hint of each check, in the order the checks run. */
  const Hints: seq<string> := [
    "Use at least 12 characters.",
    "Add an uppercase letter.",
    "Add a lowercase letter.",
    "Add a number.",
    "Add a symbol (e.g., !@#$)."]

  /** The points each check is worth, in the same order. */
  const Weights: seq<nat> := [2, 1, 1, 1, 1]

  predicate IsUpper(c: char) { 'A' <= c <= 'Z' }
  predicate IsLower(c: char) { 'a' <= c <= 'z' }
  predicate IsDigit(c: char) { '0' <= c <= '9' }

  /** A word character (`\w`), restricted to ASCII: a letter, a digit or `_`. */
  predicate IsWordChar(c: char) { IsUpper(c) || IsLower(c) || IsDigit(c) || c == '_' }

  /** The class `[\W_]`: a non-word character, or the underscore. */
  predicate IsSymbol(c: char) { !IsWordChar(c) || c == '_' }

  /** `re.search(<class>, pwd)` finds a match. */
  predicate HasSome(pwd: string, charClass: char -> bool)
  {
    exists i :: 0 <= i < |pwd| && charClass(pwd[i])
  }

  /** The outcome of each check, in order. */
  function Checks(pwd: string): (cs: seq<bool>)
    ensures |cs| == 5
  {
    [|pwd| >= MinLength, HasSome(pwd, IsUpper), HasSome(pwd, IsLower), HasSome(pwd, IsDigit), HasSome(pwd, IsSymbol)]
  }

  /** The number of passed checks. */
  function Passed(cs: seq<bool>): nat
  {
    if cs == [] then 0 else (if cs[0] then 1 else 0) + Passed(cs[1..])
  }

  /** The points earned by the passed checks. */
  function Earned(cs: seq<bool>, ws: seq<nat>): nat
    requires |cs| == |ws|
  {
    if cs == [] then 0 else (if cs[0] then ws[0] else 0) + Earned(cs[1..], ws[1..])
  }

  /** The hints of the failed checks, in check order. */
  function Failed<T>(cs: seq<bool>, hs: seq<T>): seq<T>
    requires |cs| == |hs|
  {
    if cs == [] then [] else (if cs[0] then [] else [hs[0]]) + Failed(cs[1..], hs[1..])
  }

  /** The password's score. */
  function Score(pwd: string): nat
  {
    Earned(Checks(pwd), Weights)
  }

  /** The password's feedback list. */
  function Feedback(pwd: string): seq<string>
  {
    Failed(Checks(pwd), Hints)
  }

  /** `levels[min(score, 4)]`. */
  function Strength(score: nat): (s: string)
    ensures s in Levels
    ensures score >= 4 ==> s == Levels[|Levels| - 1]
  {
    Levels[if score < 4 then score else 4]
  }

  /** The score written as the five checks one after another. */
  lemma ScoreSpelledOut(pwd: string)
    ensures var cs := Checks(pwd);
      Score(pwd) == (if cs[0] then 2 else 0) + (if cs[1] then 1 else 0) + (if cs[2] then 1 else 0)
                    + (if cs[3] then 1 else 0) + (if cs[4] then 1 else 0)
  {
    var cs := Checks(pwd);
    var c4 := [cs[4]];
    var c3 := [cs[3]] + c4;
    var c2 := [cs[2]] + c3;
    var c1 := [cs[1]] + c2;
    assert c4[1..] == [] && c3[1..] == c4 && c2[1..] == c3 && c1[1..] == c2 && cs[1..] == c1;
    assert Earned(c4, [1]) == (if cs[4] then 1 else 0);
    assert Earned(c3, [1, 1]) == (if cs[3] then 1 else 0) + Earned(c4, [1]);
    assert Earned(c2, [1, 1, 1]) == (if cs[2] then 1 else 0) + Earned(c3, [1, 1]);
    assert Earned(c1, [1, 1, 1, 1]) == (if cs[1] then 1 else 0) + Earned(c2, [1, 1, 1]);
    assert Earned(cs, Weights) == (if cs[0] then 2 else 0) + Earned(c1, [1, 1, 1, 1]);
  }

  /**
   * Failed, read from the left: the hints of the first k + 1 checks are those
   * of the first k, then check k's hint if it failed.
   */
  lemma {:induction false} FailedSnoc<T>(cs: seq<bool>, hs: seq<T>, k: nat)
    requires |cs| == |hs| && k < |cs|
    ensures Failed(cs[..k + 1], hs[..k + 1]) == Failed(cs[..k], hs[..k]) + (if cs[k] then [] else [hs[k]])
    decreases k
  {
    if k == 0 {
      assert cs[..1][1..] == [] && hs[..1][1..] == [];
    } else {
      FailedSnoc(cs[1..], hs[1..], k - 1);
      assert cs[..k + 1][1..] == cs[1..][..k] && hs[..k + 1][1..] == hs[1..][..k];
      assert cs[..k][1..] == cs[1..][..k - 1] && hs[..k][1..] == hs[1..][..k - 1];
    }
  }

  /** Five checks, unfolded from the left: the hints of the failed ones in order. */
  lemma FailedFive<T>(cs: seq<bool>, hs: seq<T>)
    requires |cs| == |hs| == 5
    ensures Failed(cs, hs) == (if cs[0] then [] else [hs[0]]) + (if cs[1] then [] else [hs[1]])
                              + (if cs[2] then [] else [hs[2]]) + (if cs[3] then [] else [hs[3]])
                              + (if cs[4] then [] else [hs[4]])
  {
    var a, b, c, d, e := (if cs[0] then [] else [hs[0]]), (if cs[1] then [] else [hs[1]]),
      (if cs[2] then [] else [hs[2]]), (if cs[3] then [] else [hs[3]]), (if cs[4] then [] else [hs[4]]);
    FailedSnoc(cs, hs, 0);
    assert cs[..0] == [] && hs[..0] == [];
    assert Failed(cs[..1], hs[..1]) == a;
    FailedSnoc(cs, hs, 1);
    FailedSnoc(cs, hs, 2);
    FailedSnoc(cs, hs, 3);
    FailedSnoc(cs, hs, 4);
    assert cs[..5] == cs && hs[..5] == hs;
  }

  /** The feedback written as the five checks one after another. */
  lemma FeedbackSpelledOut(pwd: string)
    ensures var cs := Checks(pwd);
      Feedback(pwd) == (if cs[0] then [] else [Hints[0]]) + (if cs[1] then [] else [Hints[1]])
                       + (if cs[2] then [] else [Hints[2]]) + (if cs[3] then [] else [Hints[3]])
                       + (if cs[4] then [] else [Hints[4]])
  {
    FailedFive(Checks(pwd), Hints);
  }

  /** The score lies in 0..6 and is 6 exactly when every check passes. */
  lemma ScoreRange(pwd: string)
    ensures 0 <= Score(pwd) <= 6
    ensures Score(pwd) == 6 <==> forall k :: 0 <= k < 5 ==> Checks(pwd)[k]
  {
    ScoreSpelledOut(pwd);
  }

  /** Every check either passes or contributes exactly one hint. */
  lemma {:induction false} PassedPlusFailed<T>(cs: seq<bool>, hs: seq<T>)
    requires |cs| == |hs|
    ensures Passed(cs) + |Failed(cs, hs)| == |cs|
  {
    if cs != [] {
      PassedPlusFailed(cs[1..], hs[1..]);
    }
  }

  /** A hint is in the feedback iff some failed check has it. */
  lemma {:induction false} FailedMembers<T>(cs: seq<bool>, hs: seq<T>, h: T)
    requires |cs| == |hs|
    ensures h in Failed(cs, hs) <==> exists k :: 0 <= k < |cs| && !cs[k] && hs[k] == h
  {
    if cs != [] {
      FailedMembers(cs[1..], hs[1..], h);
      if exists k :: 0 <= k < |cs| && !cs[k] && hs[k] == h {
        var k :| 0 <= k < |cs| && !cs[k] && hs[k] == h;
        if k > 0 {
          assert !cs[1..][k - 1] && hs[1..][k - 1] == h;
        }
      }
      if exists k :: 0 <= k < |cs| - 1 && !cs[1..][k] && hs[1..][k] == h {
        var k :| 0 <= k < |cs| - 1 && !cs[1..][k] && hs[1..][k] == h;
        assert !cs[k + 1] && hs[k + 1] == h;
      }
    }
  }

  /** Passed checks plus feedback hints make five. */
  lemma PassedPlusFeedbackIsFive(pwd: string)
    ensures Passed(Checks(pwd)) + |Feedback(pwd)| == 5
  {
    PassedPlusFailed(Checks(pwd), Hints);
  }

  /** The hint of check k appears in the feedback iff check k failed. */
  lemma FeedbackNamesFailedChecks(pwd: string, k: nat)
    requires k < 5
    ensures Hints[k] in Feedback(pwd) <==> !Checks(pwd)[k]
  {
    FailedMembers(Checks(pwd), Hints, Hints[k]);
  }

  /** No hints exactly when every check passed. */
  lemma FailedEmpty<T>(cs: seq<bool>, hs: seq<T>)
    requires |cs| == |hs|
    ensures Failed(cs, hs) == [] <==> forall k :: 0 <= k < |cs| ==> cs[k]
  {
    if Failed(cs, hs) != [] {
      FailedMembers(cs, hs, Failed(cs, hs)[0]);
    }
    if exists k :: 0 <= k < |cs| && !cs[k] {
      var k :| 0 <= k < |cs| && !cs[k];
      FailedMembers(cs, hs, hs[k]);
    }
  }

  /** No feedback exactly when the score is the top score 6. */
  lemma FeedbackEmptyIffTopScore(pwd: string)
    ensures Feedback(pwd) == [] <==> Score(pwd) == 6
  {
    ScoreRange(pwd);
    FailedEmpty(Checks(pwd), Hints);
  }

  /** The strength index is always in range; from 4 points on it is "Excellent". */
  lemma StrengthExcellentFromFour(score: nat)
    requires score >= 4
    ensures Strength(score) == "Excellent"
  {
  }

  /** The underscore is a word character, yet `[\W_]` counts it as a symbol. */
  lemma UnderscoreIsSymbol()
    ensures IsWordChar('_') && IsSymbol('_')
    ensures Checks("_")[4] && !Checks("_")[1]
  {
    assert IsSymbol("_"[0]);
  }

  /** `password_check`: run the five checks, adding points or hints one by one. */
  method PasswordCheck(pwd: string) returns (score: nat, strength: string, feedback: seq<string>)
    ensures score == Score(pwd) && score <= 6
    ensures feedback == Feedback(pwd)
    ensures strength == Strength(score)
  {
    ghost var cs := Checks(pwd);
    score := 0;
    feedback := [];
    if |pwd| >= MinLength {
      score := score + 2;
    } else {
      feedback := feedback + [Hints[0]];
    }
    ghost var f0 := feedback;
    assert f0 == (if cs[0] then [] else [Hints[0]]);
    if HasSome(pwd, IsUpper) {
      score := score + 1;
    } else {
      feedback := feedback + [Hints[1]];
    }
    ghost var f1 := feedback;
    assert f1 == f0 + (if cs[1] then [] else [Hints[1]]);
    if HasSome(pwd, IsLower) {
      score := score + 1;
    } else {
      feedback := feedback + [Hints[2]];
    }
    ghost var f2 := feedback;
    assert f2 == f1 + (if cs[2] then [] else [Hints[2]]);
    if HasSome(pwd, IsDigit) {
      score := score + 1;
    } else {
      feedback := feedback + [Hints[3]];
    }
    ghost var f3 := feedback;
    assert f3 == f2 + (if cs[3] then [] else [Hints[3]]);
    if HasSome(pwd, IsSymbol) {
      score := score + 1;
    } else {
      feedback := feedback + [Hints[4]];
    }
    assert feedback == f3 + (if cs[4] then [] else [Hints[4]]);
    strength := Levels[if score < 4 then score else 4];
    ScoreSpelledOut(pwd);
    FeedbackSpelledOut(pwd);
  }
}
