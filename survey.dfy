/**
 * The survey results view: for every question of a survey, a histogram of the
 * answers the responses gave, counted response by response.
 */
module SurveyTally {
  import opened Wrappers

  /** A parsed response: answer keys such as "q7" mapped to the chosen value. */
  type Response = map<string, string>

  /** What one response gave for one question; None when the key is missing. */
  type Answer = Option<string>

  function DigitChar(d: nat): char
    requires d < 10
  {
    "0123456789"[d]
  }

  /** The decimal numeral of `n`, as `str(n)` writes it. */
  function Decimal(n: nat): (s: string)
    ensures |s| >= 1
  {
    if n < 10 then [DigitChar(n)] else Decimal(n / 10) + [DigitChar(n % 10)]
  }

  /** The key `f'q{id}'` under which a response stores its answer to question `id`. */
  function AnswerKey(q: nat): (k: string)
    ensures |k| >= 2 && k[0] == 'q'
  {
    "q" + Decimal(q)
  }

  /** `ans.get(f'q{q.id}')`. */
  function AnswerTo(r: Response, q: nat): Answer
  {
    var k := AnswerKey(q);
    if k in r then Some(r[k]) else None
  }

  /** The answers to question `q`, one per response, in response order. */
  function Column(rs: seq<Response>, q: nat): (col: seq<Answer>)
    ensures |col| == |rs|
  {
    seq(|rs|, i requires 0 <= i < |rs| => AnswerTo(rs[i], q))
  }

  /** Counting one more answer `v`: a missing bucket starts at 0, then is incremented. */
  function Bump(m: map<Answer, nat>, v: Answer): map<Answer, nat>
  {
    m[v := (if v in m then m[v] else 0) + 1]
  }

  /** The histogram the view builds from a column of answers, counted in order. */
  function Tally(col: seq<Answer>): map<Answer, nat>
    decreases |col|
  {
    if col == [] then map[] else Bump(Tally(col[..|col| - 1]), col[|col| - 1])
  }

  /** The sum of the counts of a histogram. */
  ghost function SumValues(m: map<Answer, nat>): nat
    decreases |m|
  {
    if m == map[] then 0
    else
      var k :| k in m;
      assert (m - {k}).Keys == m.Keys - {k};
      m[k] + SumValues(m - {k})
  }

  // ---------------------------------------------------------------------------
  // Properties of the histogram

  /**
   * The histogram agrees with the multiset of the answers: a bucket exists iff
   * some response gave that answer, and holds how many did.
   */
  lemma {:induction false} TallyCounts(col: seq<Answer>, v: Answer)
    ensures v in Tally(col) <==> v in multiset(col)
    ensures v in Tally(col) ==> Tally(col)[v] == multiset(col)[v]
    decreases |col|
  {
    if col != [] {
      var init := col[..|col| - 1];
      assert col == init + [col[|col| - 1]];
      TallyCounts(init, v);
    }
  }

  /** Every stored count is at least 1. */
  lemma TallyPositive(col: seq<Answer>)
    ensures forall v :: v in Tally(col) ==> Tally(col)[v] >= 1
  {
    forall v | v in Tally(col)
      ensures Tally(col)[v] >= 1
    {
      TallyCounts(col, v);
    }
  }

  /** The sum does not depend on the key taken out first. */
  lemma {:induction false} SumValuesRemove(m: map<Answer, nat>, k: Answer)
    requires k in m
    ensures SumValues(m) == m[k] + SumValues(m - {k})
    decreases |m|
  {
    var k' :| k' in m && SumValues(m) == m[k'] + SumValues(m - {k'});
    if k' != k {
      assert (m - {k'}).Keys == m.Keys - {k'};
      assert (m - {k}).Keys == m.Keys - {k};
      SumValuesRemove(m - {k'}, k);
      SumValuesRemove(m - {k}, k');
      assert m - {k'} - {k} == m - {k} - {k'};
    }
  }

  /** Counting one more answer adds one to the total. */
  lemma SumBump(m: map<Answer, nat>, v: Answer)
    ensures SumValues(Bump(m, v)) == SumValues(m) + 1
  {
    var b := Bump(m, v);
    SumValuesRemove(b, v);
    if v in m {
      SumValuesRemove(m, v);
      assert b - {v} == m - {v};
    } else {
      assert b - {v} == m;
    }
  }

  /** The counts of a question add up to the number of responses. */
  lemma {:induction false} TallyTotal(col: seq<Answer>)
    ensures SumValues(Tally(col)) == |col|
    decreases |col|
  {
    if col != [] {
      TallyTotal(col[..|col| - 1]);
      SumBump(Tally(col[..|col| - 1]), col[|col| - 1]);
    }
  }

  /** A response lacking the question's key is counted in the None bucket. */
  lemma MissingAnswerCountedAsNone(rs: seq<Response>, q: nat, i: nat)
    requires i < |rs| && AnswerKey(q) !in rs[i]
    ensures None in Tally(Column(rs, q))
  {
    var col := Column(rs, q);
    assert col[i] == None;
    TallyCounts(col, None);
  }

  /** A key that is not the question's key does not change that question's column. */
  lemma OtherKeysIgnored(rs: seq<Response>, q: nat, i: nat, k: string, v: string)
    requires i < |rs| && k != AnswerKey(q)
    ensures Column(rs[i := rs[i][k := v]], q) == Column(rs, q)
  {
  }

  // ---------------------------------------------------------------------------
  // The view

  /** Creating a missing bucket at 0 and then incrementing it is counting one more. */
  lemma BumpInTwoSteps(m: map<Answer, nat>, v: Answer)
    ensures var m0 := if v in m then m else m[v := 0];
      m0[v := m0[v] + 1] == Bump(m, v)
  {
    if v !in m {
      var m0 := m[v := 0];
      assert m0[v := 1].Keys == Bump(m, v).Keys;
    }
  }

  /** Counting response i extends each question's histogram by that response's answer. */
  lemma TallyStep(rs: seq<Response>, q: nat, i: nat)
    requires i < |rs|
    ensures Tally(Column(rs[..i + 1], q)) == Bump(Tally(Column(rs[..i], q)), AnswerTo(rs[i], q))
  {
    var col := Column(rs[..i], q);
    var v := AnswerTo(rs[i], q);
    assert Column(rs[..i + 1], q) == col + [v];
    assert (col + [v])[..|col|] == col;
  }

  /** The two-step update of the view, applied to the histogram of the first i responses, counts response i. */
  lemma CountedStep(rs: seq<Response>, q: nat, i: nat, v: Answer, before: map<Answer, nat>, m0: map<Answer, nat>,
                    counts: map<Answer, nat>)
    requires i < |rs| && v == AnswerTo(rs[i], q)
    requires before == Tally(Column(rs[..i], q))
    requires m0 == (if v in before then before else before[v := 0])
    requires counts == m0[v := m0[v] + 1]
    ensures counts == Tally(Column(rs[..i + 1], q))
  {
    BumpInTwoSteps(before, v);
    TallyStep(rs, q, i);
  }

  /** The questions are pairwise distinct, as the rows of one survey are. */
  predicate Distinct(questions: seq<nat>)
  {
    forall a, b :: 0 <= a < b < |questions| ==> questions[a] != questions[b]
  }

  /** `analytics` holds, for every question and only those, the histogram of `done`. */
  ghost predicate Counted(analytics: map<nat, map<Answer, nat>>, questions: seq<nat>, done: seq<Response>)
  {
    && (forall q :: q in analytics <==> q in questions)
    && (forall q :: q in analytics ==> analytics[q] == Tally(Column(done, q)))
  }

  /**
   * Midway through response i: the first j questions have counted it, the
   * others still hold the histogram of the first i responses.
   */
  ghost predicate PartlyCounted(updated: map<nat, map<Answer, nat>>, questions: seq<nat>, rs: seq<Response>, i: nat, j: nat)
    requires i < |rs| && j <= |questions|
  {
    && (forall q :: q in updated <==> q in questions)
    && (forall k :: 0 <= k < j ==> updated[questions[k]] == Tally(Column(rs[..i + 1], questions[k])))
    && (forall k :: j <= k < |questions| ==> updated[questions[k]] == Tally(Column(rs[..i], questions[k])))
  }

  /** Before the inner loop, no question has counted response i yet. */
  lemma PartlyCountedStart(analytics: map<nat, map<Answer, nat>>, questions: seq<nat>, rs: seq<Response>, i: nat)
    requires i < |rs| && Counted(analytics, questions, rs[..i])
    ensures PartlyCounted(analytics, questions, rs, i, 0)
  {
  }

  /** Storing the new histogram of question j moves the boundary one question on. */
  lemma PartlyCountedStep(updated: map<nat, map<Answer, nat>>, questions: seq<nat>, rs: seq<Response>, i: nat, j: nat,
                          counts: map<Answer, nat>)
    requires Distinct(questions) && i < |rs| && j < |questions|
    requires PartlyCounted(updated, questions, rs, i, j)
    requires counts == Tally(Column(rs[..i + 1], questions[j]))
    ensures PartlyCounted(updated[questions[j] := counts], questions, rs, i, j + 1)
  {
    var u := updated[questions[j] := counts];
    forall k | 0 <= k < |questions| && k != j
      ensures u[questions[k]] == updated[questions[k]]
    {
      assert questions[k] != questions[j];
    }
  }

  /** Once every question has counted response i, the histograms are those of the first i + 1 responses. */
  lemma PartlyCountedDone(updated: map<nat, map<Answer, nat>>, questions: seq<nat>, rs: seq<Response>, i: nat)
    requires i < |rs| && PartlyCounted(updated, questions, rs, i, |questions|)
    ensures Counted(updated, questions, rs[..i + 1])
  {
    forall q | q in updated
      ensures updated[q] == Tally(Column(rs[..i + 1], q))
    {
      var k :| 0 <= k < |questions| && questions[k] == q;
    }
  }

  /**
   * The inner loop of the view: count response `responses[i]` once in the
   * histogram of every question.
   */
  method CountResponse(analytics: map<nat, map<Answer, nat>>, questions: seq<nat>, responses: seq<Response>, i: nat)
    returns (updated: map<nat, map<Answer, nat>>)
    requires Distinct(questions) && i < |responses|
    requires Counted(analytics, questions, responses[..i])
    ensures Counted(updated, questions, responses[..i + 1])
  {
    var r := responses[i];
    updated := analytics;
    PartlyCountedStart(analytics, questions, responses, i);
    for j := 0 to |questions|
      invariant PartlyCounted(updated, questions, responses, i, j)
    {
      var q := questions[j];
      var v := AnswerTo(r, q);
      var counts := updated[q];
      ghost var before := counts;
      assert before == Tally(Column(responses[..i], questions[j]));
      if v !in counts {
        counts := counts[v := 0];
      }
      ghost var m0 := counts;
      counts := counts[v := counts[v] + 1];
      CountedStep(responses, q, i, v, before, m0, counts);
      PartlyCountedStep(updated, questions, responses, i, j, counts);
      updated := updated[q := counts];
    }
    PartlyCountedDone(updated, questions, responses, i);
  }

  /**
   * `survey_results`: one histogram per question of the survey, built by
   * visiting each response and, within it, each question. Each histogram
   * counts every response once, so its counts sum to the number of responses.
   */
  method SurveyResults(questions: seq<nat>, responses: seq<Response>) returns (analytics: map<nat, map<Answer, nat>>)
    requires Distinct(questions)
    ensures analytics.Keys == set q | q in questions
    ensures forall q :: q in analytics ==> analytics[q] == Tally(Column(responses, q))
    ensures forall q :: q in analytics ==> SumValues(analytics[q]) == |responses|
  {
    analytics := map q | q in questions :: map[];
    for i := 0 to |responses|
      invariant Counted(analytics, questions, responses[..i])
    {
      analytics := CountResponse(analytics, questions, responses, i);
    }
    assert responses[..|responses|] == responses;
    forall q | q in analytics
      ensures SumValues(analytics[q]) == |responses|
    {
      TallyTotal(Column(responses, q));
    }
  }
}
