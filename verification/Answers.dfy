/**
 Typed provider questions and answers, and the validator that stands between a provider and the
 composer. Numbers are reals; the wire format has no other numbers.
 */
module Answers {
  import opened Domain
  import Order

  const NOUL := "noul"
  const CHOICE := "choice"
  const SCORE := "score"

  const PROBABILITY_TOLERANCE: real := 0.000000001
  const SCORE_TOLERANCE: real := 0.000001

  datatype Question = Question(kind: string, instructions: string, criteria: map<string, string>, levels: seq<string>)

  datatype Answer = Answer(kind: string, noul: Option<real>, choice: string, score: Option<real>,
                           legend: map<string, string>, probabilities: map<string, real>, confidence: Option<real>)

  type Questions = map<string, Question>
  type AnswerSet = map<string, Answer>

  /** strconv.Itoa on a level's index */

  function Digit(d: nat): char
    requires d < 10
  {
    ('0' as int + d) as char
  }

  function Itoa(n: nat): (s: string)
    ensures s != []
  {
    if n < 10 then [Digit(n)] else Itoa(n / 10) + [Digit(n % 10)]
  }

  // Reads a decimal back; the partner that makes Itoa injective.
  function Atoi(s: string): int {
    if s == [] then 0 else 10 * Atoi(s[..|s| - 1]) + (s[|s| - 1] as int - '0' as int)
  }

  lemma {:induction false} AtoiItoa(n: nat)
    ensures Atoi(Itoa(n)) == n
  {
    var s := Itoa(n);
    if n < 10 {
      assert s[..|s| - 1] == [];
    } else {
      AtoiItoa(n / 10);
      assert s[..|s| - 1] == Itoa(n / 10);
    }
  }

  lemma ItoaInjective(m: nat, n: nat)
    ensures Itoa(m) == Itoa(n) ==> m == n
  {
    AtoiItoa(m);
    AtoiItoa(n);
  }

  // "0", "1", ..., one key for each of n levels.
  function LevelKeys(n: nat): (keys: seq<string>)
    ensures |keys| == n
  {
    seq(n, i requires 0 <= i < n => Itoa(i))
  }

  function KeySet(n: nat): set<string> {
    set k | k in LevelKeys(n)
  }

  /** Sums over a map, in whatever order the keys come */

  ghost function SumOver(m: map<string, real>, keys: set<string>): real
    requires keys <= m.Keys
  {
    if keys == {} then 0.0 else var k :| k in keys; m[k] + SumOver(m, keys - {k})
  }

  lemma {:induction false} SumWithout(m: map<string, real>, keys: set<string>, k: string)
    requires keys <= m.Keys && k in keys
    ensures SumOver(m, keys) == m[k] + SumOver(m, keys - {k})
    decreases keys
  {
    var j :| j in keys && SumOver(m, keys) == m[j] + SumOver(m, keys - {j});
    if j != k {
      SumWithout(m, keys - {j}, k);
      SumWithout(m, keys - {k}, j);
      assert keys - {j} - {k} == keys - {k} - {j};
    }
  }

  ghost function Sum(m: map<string, real>): real { SumOver(m, m.Keys) }

  // A map read as Go reads one: zero where there is no entry.
  function At(m: map<string, real>, key: string): real { if key in m then m[key] else 0.0 }

  // level times probability, by repeated addition: WeightIsProduct.
  function Weight(level: nat, probability: real): real {
    if level == 0 then 0.0 else Weight(level - 1, probability) + probability
  }

  lemma {:induction false} WeightIsProduct(level: nat, probability: real)
    ensures Weight(level, probability) == level as real * probability
  {
    if level > 0 {
      WeightIsProduct(level - 1, probability);
      OneMoreTimes((level - 1) as real, probability);
    }
  }

  lemma OneMoreTimes(a: real, p: real)
    ensures a * p + p == (a + 1.0) * p
  {
  }

  // The expected level under the distribution, over the first n levels.
  function Weighted(m: map<string, real>, keys: seq<string>, n: nat): real
    requires n <= |keys|
  {
    if n == 0 then 0.0 else Weighted(m, keys, n - 1) + Weight(n - 1, At(m, keys[n - 1]))
  }

  // All the weight on one level: that level.
  lemma {:induction false} PointMass(m: map<string, real>, keys: seq<string>, n: nat, level: nat)
    requires n <= |keys|
    requires forall j :: 0 <= j < n ==> At(m, keys[j]) == if j == level then 1.0 else 0.0
    ensures Weighted(m, keys, n) == if level < n then level as real else 0.0
  {
    if n > 0 {
      PointMass(m, keys, n - 1, level);
      WeightIsProduct(n - 1, At(m, keys[n - 1]));
    }
  }

  // The expectation is linear: it adds up, and it scales.
  lemma {:induction false} Additive(m: map<string, real>, m1: map<string, real>, m2: map<string, real>,
                                    keys: seq<string>, n: nat)
    requires n <= |keys|
    requires forall j :: 0 <= j < n ==> At(m, keys[j]) == At(m1, keys[j]) + At(m2, keys[j])
    ensures Weighted(m, keys, n) == Weighted(m1, keys, n) + Weighted(m2, keys, n)
  {
    if n > 0 {
      Additive(m, m1, m2, keys, n - 1);
      WeightAdds(n - 1, At(m1, keys[n - 1]), At(m2, keys[n - 1]));
    }
  }

  lemma {:induction false} WeightAdds(level: nat, p: real, q: real)
    ensures Weight(level, p + q) == Weight(level, p) + Weight(level, q)
  {
    if level > 0 { WeightAdds(level - 1, p, q); }
  }

  predicate Times(x: real, a: real, y: real) { x == a * y }

  lemma {:induction false} Scales(m: map<string, real>, a: real, m1: map<string, real>, keys: seq<string>, n: nat)
    requires n <= |keys|
    requires forall j :: 0 <= j < n ==> Times(At(m, keys[j]), a, At(m1, keys[j]))
    ensures Times(Weighted(m, keys, n), a, Weighted(m1, keys, n))
  {
    if n > 0 {
      Scales(m, a, m1, keys, n - 1);
      WeightScales(n - 1, a, At(m1, keys[n - 1]), At(m, keys[n - 1]));
      TimesAdds(a, Weighted(m, keys, n - 1), Weighted(m1, keys, n - 1), Weight(n - 1, At(m, keys[n - 1])),
                Weight(n - 1, At(m1, keys[n - 1])));
    }
  }

  lemma {:induction false} WeightScales(level: nat, a: real, p: real, scaled: real)
    requires Times(scaled, a, p)
    ensures Times(Weight(level, scaled), a, Weight(level, p))
  {
    if level > 0 {
      WeightScales(level - 1, a, p, scaled);
      TimesAdds(a, Weight(level - 1, scaled), Weight(level - 1, p), scaled, p);
    }
  }

  lemma TimesAdds(a: real, x: real, y: real, u: real, v: real)
    requires Times(x, a, y) && Times(u, a, v)
    ensures Times(x + u, a, y + v)
  {
  }

  /** What the validators accept */

  predicate Unit(x: real) { 0.0 <= x <= 1.0 }

  predicate Near(x: real, y: real, tolerance: real) { -tolerance <= x - y <= tolerance }

  predicate NoDuplicates(s: seq<string>) { forall i, j :: 0 <= i < j < |s| ==> s[i] != s[j] }

  predicate ValidQuestion(id: string, q: Question) {
    && !Blank(id) && !Blank(q.instructions)
    && (|| (q.kind == NOUL && q.levels == [] && (q.criteria.Keys == {} || q.criteria.Keys == {"true", "false"}))
        || (q.kind == CHOICE && q.levels == [] && |q.criteria| >= 2 && forall c :: c in q.criteria ==> !Blank(c))
        || (q.kind == SCORE && q.criteria == map[] && |q.levels| >= 2 && NoDuplicates(q.levels)
            && forall l :: l in q.levels ==> !Blank(l)))
  }

  predicate ValidQuestions(questions: Questions) {
    questions != map[] && forall id :: id in questions ==> ValidQuestion(id, questions[id])
  }

  ghost predicate Distribution(keys: set<string>, m: map<string, real>) {
    && m.Keys == keys
    && (forall k :: k in m ==> Unit(m[k]))
    && Near(Sum(m), 1.0, PROBABILITY_TOLERANCE)
  }

  predicate Highest(choice: string, m: map<string, real>) {
    choice in m && forall k :: k in m ==> m[k] <= m[choice] + PROBABILITY_TOLERANCE
  }

  predicate LegendOf(levels: seq<string>, legend: map<string, string>) {
    && legend.Keys == KeySet(|levels|)
    && Explains(LevelKeys(|levels|), levels, legend)
  }

  // Each key stands for its level.
  predicate Explains(keys: seq<string>, levels: seq<string>, legend: map<string, string>)
    requires |keys| == |levels|
  {
    forall i :: 0 <= i < |keys| ==> keys[i] in legend && legend[keys[i]] == levels[i]
  }

  ghost predicate ValidNoul(a: Answer) {
    a.noul.Some? && Unit(a.noul.value) && a.choice == "" && a.score.None? && a.legend == map[]
    && a.probabilities == map[] && a.confidence.None?
  }

  ghost predicate ValidChoice(q: Question, a: Answer) {
    && a.noul.None? && a.score.None? && a.legend == map[]
    && a.choice in q.criteria
    && a.confidence.Some? && Unit(a.confidence.value)
    && Distribution(q.criteria.Keys, a.probabilities)
    && Highest(a.choice, a.probabilities)
  }

  ghost predicate ValidScore(q: Question, a: Answer) {
    && a.noul.None? && a.choice == ""
    && a.score.Some? && 0.0 <= a.score.value <= (|q.levels| - 1) as real
    && a.confidence.Some? && Unit(a.confidence.value)
    && LegendOf(q.levels, a.legend)
    && Distribution(KeySet(|q.levels|), a.probabilities)
    && Near(Weighted(a.probabilities, LevelKeys(|q.levels|), |q.levels|), a.score.value, SCORE_TOLERANCE)
  }

  ghost predicate ValidAnswer(q: Question, a: Answer) {
    a.kind == q.kind
    && if q.kind == NOUL then ValidNoul(a) else if q.kind == CHOICE then ValidChoice(q, a)
       else q.kind == SCORE && ValidScore(q, a)
  }

  ghost predicate Answered(q: Question, answers: AnswerSet, id: string) {
    id in answers && ValidAnswer(q, answers[id])
  }

  ghost predicate ValidAnswers(questions: Questions, answers: AnswerSet) {
    && answers.Keys <= questions.Keys
    && forall id :: id in questions ==> Answered(questions[id], answers, id)
  }

  // An answer that puts all its weight on one level scores that level, up to the tolerance.
  lemma CertainScore(q: Question, a: Answer, level: nat)
    requires ValidScore(q, a) && level < |q.levels|
    requires forall j :: 0 <= j < |q.levels| ==>
      At(a.probabilities, LevelKeys(|q.levels|)[j]) == if j == level then 1.0 else 0.0
    ensures -0.000001 <= a.score.value - level as real <= 0.000001
  {
    PointMass(a.probabilities, LevelKeys(|q.levels|), |q.levels|, level);
  }

  /** The validators */

  method ValidateQuestion(id: string, q: Question) returns (ok: bool)
    ensures ok == ValidQuestion(id, q)
  {
    if Blank(id) || Blank(q.instructions) { return false; }
    if q.kind == NOUL {
      if |q.levels| != 0 { return false; }
      if |q.criteria| != 0 {
        assert q.criteria.Keys != {};
        if |q.criteria| != 2 || "true" !in q.criteria || "false" !in q.criteria {
          assert q.criteria.Keys == {"true", "false"} ==> |q.criteria.Keys| == 2;
          return false;
        }
        TwoKeys(q.criteria.Keys, "true", "false");
      }
      return true;
    } else if q.kind == CHOICE {
      if |q.levels| != 0 || |q.criteria| < 2 { return false; }
      var left := q.criteria.Keys;
      while left != {}
        invariant left <= q.criteria.Keys
        invariant forall c :: c in q.criteria && c !in left ==> !Blank(c)
        decreases left
      {
        var c :| c in left;
        if Blank(c) { return false; }
        left := left - {c};
      }
      return true;
    } else if q.kind == SCORE {
      if |q.criteria| != 0 || |q.levels| < 2 { return false; }
      var seen: set<string> := {};
      for i := 0 to |q.levels|
        invariant seen == set l | l in q.levels[..i]
        invariant NoDuplicates(q.levels[..i]) && forall l :: l in seen ==> !Blank(l)
      {
        var l := q.levels[i];
        assert q.levels[..i + 1] == q.levels[..i] + [l];
        if Blank(l) { return false; }
        if l in seen {
          var j :| 0 <= j < i && q.levels[j] == l;
          return false;
        }
        seen := seen + {l};
      }
      assert q.levels[..|q.levels|] == q.levels;
      return true;
    } else {
      return false;
    }
  }

  lemma TwoKeys(keys: set<string>, a: string, b: string)
    requires |keys| == 2 && a in keys && b in keys && a != b
    ensures keys == {a, b}
  {
    var rest := keys - {a} - {b};
    assert |rest| == 0;
    assert keys == rest + {a, b};
  }

  method ValidateQuestions(questions: Questions) returns (ok: bool)
    ensures ok == ValidQuestions(questions)
  {
    if |questions| == 0 { return false; }
    var ids := Order.ListKeys(questions.Keys);
    for i := 0 to |ids|
      invariant forall j :: 0 <= j < i ==> ValidQuestion(ids[j], questions[ids[j]])
    {
      var valid := ValidateQuestion(ids[i], questions[ids[i]]);
      if !valid { return false; }
    }
    return true;
  }

  // The set of a list's elements, as a loop builds it.
  method Collect(keys: seq<string>) returns (members: set<string>)
    ensures members == set k | k in keys
  {
    members := {};
    for i := 0 to |keys|
      invariant members == set k | k in keys[..i]
    {
      members := members + {keys[i]};
      assert keys[..i + 1] == keys[..i] + [keys[i]];
    }
    assert keys[..|keys|] == keys;
  }

  method ValidateDistribution(keys: seq<string>, m: map<string, real>) returns (ok: bool)
    requires NoDuplicates(keys)
    ensures ok == Distribution((set k | k in keys), m)
  {
    Order.DistinctCount(keys);
    var expected := Collect(keys);
    if |m| != |keys| {
      assert m.Keys == expected ==> |m.Keys| == |expected|;
      return false;
    }
    var sum, left := 0.0, m.Keys;
    while left != {}
      invariant left <= m.Keys
      invariant m.Keys - left <= expected
      invariant forall k :: k in m.Keys - left ==> Unit(m[k])
      invariant sum == SumOver(m, m.Keys - left)
      decreases left
    {
      var k :| k in left;
      if k !in expected || m[k] < 0.0 || m[k] > 1.0 { return false; }
      AddKey(m, left, k);
      sum, left := sum + m[k], left - {k};
    }
    assert m.Keys - left == m.Keys;
    Order.SubsetOfSameSize(m.Keys, expected);
    return Near(sum, 1.0, PROBABILITY_TOLERANCE);
  }

  lemma AddKey(m: map<string, real>, left: set<string>, k: string)
    requires left <= m.Keys && k in left
    ensures SumOver(m, m.Keys - (left - {k})) == SumOver(m, m.Keys - left) + m[k]
  {
    SumWithout(m, m.Keys - (left - {k}), k);
    assert m.Keys - (left - {k}) - {k} == m.Keys - left;
  }

  method ValidateChoiceAnswer(q: Question, a: Answer) returns (ok: bool)
    ensures ok == ValidChoice(q, a)
  {
    if a.noul.Some? || a.score.Some? || |a.legend| != 0 || a.choice !in q.criteria { return false; }
    if a.confidence.None? || !Unit(a.confidence.value) { return false; }
    var keys := Order.ListKeys(q.criteria.Keys);
    assert (set k | k in keys) == q.criteria.Keys;
    var sums := ValidateDistribution(keys, a.probabilities);
    if !sums { return false; }
    var selected := a.probabilities[a.choice];
    var left := a.probabilities.Keys;
    while left != {}
      invariant left <= a.probabilities.Keys
      invariant forall k :: k in a.probabilities && k !in left ==>
        a.probabilities[k] <= selected + PROBABILITY_TOLERANCE
      decreases left
    {
      var k :| k in left;
      if a.probabilities[k] > selected + PROBABILITY_TOLERANCE { return false; }
      left := left - {k};
    }
    return true;
  }

  lemma LevelKeysAre(n: nat)
    ensures NoDuplicates(LevelKeys(n)) && |KeySet(n)| == n
  {
    var keys := LevelKeys(n);
    forall i, j | 0 <= i < j < n ensures keys[i] != keys[j] { ItoaInjective(i, j); }
    Order.DistinctCount(keys);
  }

  method ValidateScoreAnswer(q: Question, a: Answer) returns (ok: bool)
    requires |q.levels| >= 2 && NoDuplicates(q.levels)
    ensures ok == ValidScore(q, a)
  {
    if a.noul.Some? || a.choice != "" || a.score.None? { return false; }
    if a.score.value < 0.0 || a.score.value > (|q.levels| - 1) as real { return false; }
    if a.confidence.None? || !Unit(a.confidence.value) { return false; }
    LevelKeysAre(|q.levels|);
    if |a.legend| != |q.levels| {
      assert a.legend.Keys == KeySet(|q.levels|) ==> |a.legend.Keys| == |q.levels|;
      return false;
    }
    var matches := ValidateLegend(q.levels, a.legend);
    if !matches { return false; }
    var keys := LevelKeys(|q.levels|);
    var sums := ValidateDistribution(keys, a.probabilities);
    if !sums { return false; }
    var weighted := WeightedValue(keys, a.probabilities);
    return Near(weighted, a.score.value, SCORE_TOLERANCE);
  }

  method WeightedValue(keys: seq<string>, m: map<string, real>) returns (weighted: real)
    ensures weighted == Weighted(m, keys, |keys|)
  {
    weighted := 0.0;
    for i := 0 to |keys|
      invariant weighted == Weighted(m, keys, i)
    {
      WeightIsProduct(i, At(m, keys[i]));
      weighted := weighted + i as real * At(m, keys[i]);
    }
  }

  method ValidateLegend(levels: seq<string>, legend: map<string, string>) returns (ok: bool)
    requires |legend| == |levels| && NoDuplicates(levels)
    ensures ok == LegendOf(levels, legend)
  {
    var keys := LevelKeys(|levels|);
    ok := Matches(keys, levels, legend);
    LevelKeysAre(|levels|);
    if ok { Order.SubsetOfSameSize(KeySet(|levels|), legend.Keys); }
  }

  method Matches(keys: seq<string>, levels: seq<string>, legend: map<string, string>) returns (ok: bool)
    requires |keys| == |levels| && NoDuplicates(levels)
    ensures ok == Explains(keys, levels, legend)
  {
    var seen: set<string> := {};
    for i := 0 to |levels|
      invariant seen == set l | l in levels[..i]
      invariant forall j :: 0 <= j < i ==> keys[j] in legend && legend[keys[j]] == levels[j]
    {
      if keys[i] !in legend || legend[keys[i]] in seen || legend[keys[i]] != levels[i] { return false; }
      seen := seen + {legend[keys[i]]};
      assert levels[..i + 1] == levels[..i] + [levels[i]];
    }
    return true;
  }

  method ValidateNoulAnswer(a: Answer) returns (ok: bool)
    ensures ok == ValidNoul(a)
  {
    if a.noul.None? || !Unit(a.noul.value) || a.choice != "" || a.score.Some? { return false; }
    if |a.legend| != 0 || |a.probabilities| != 0 || a.confidence.Some? { return false; }
    return true;
  }

  method ValidateAnswer(q: Question, answers: AnswerSet, id: string) returns (ok: bool)
    requires ValidQuestion(id, q)
    ensures ok == Answered(q, answers, id)
  {
    if id !in answers { return false; }
    var a := answers[id];
    if a.kind != q.kind { return false; }
    if q.kind == NOUL {
      ok := ValidateNoulAnswer(a);
    } else if q.kind == CHOICE {
      ok := ValidateChoiceAnswer(q, a);
    } else {
      ok := ValidateScoreAnswer(q, a);
    }
  }

  method AllKnown(questions: Questions, answers: AnswerSet) returns (ok: bool)
    ensures ok == (answers.Keys <= questions.Keys)
  {
    var ids := Order.ListKeys(answers.Keys);
    for i := 0 to |ids|
      invariant forall j :: 0 <= j < i ==> ids[j] in questions
    {
      if ids[i] !in questions { return false; }
    }
    return true;
  }

  // good holds the IDs of the questions that are answered.
  ghost predicate Marks(questions: Questions, answers: AnswerSet, good: set<string>) {
    forall id {:trigger Answered(questions[id], answers, id)} :: id in questions ==>
      (id in good <==> Answered(questions[id], answers, id))
  }

  method AllGood(questions: Questions, answers: AnswerSet, ids: seq<string>, ghost good: set<string>)
    returns (ok: bool)
    requires ValidQuestions(questions) && Marks(questions, answers, good)
    requires forall id :: id in ids ==> id in questions
    ensures ok == forall j :: 0 <= j < |ids| ==> ids[j] in good
  {
    for i := 0 to |ids|
      invariant forall j :: 0 <= j < i ==> ids[j] in good
    {
      ok := ValidateAnswer(questions[ids[i]], answers, ids[i]);
      if !ok { return; }
    }
    ok := true;
  }

  method AllAnswered(questions: Questions, answers: AnswerSet) returns (ok: bool)
    requires ValidQuestions(questions)
    ensures ok == forall id :: id in questions ==> Answered(questions[id], answers, id)
  {
    ghost var good := set id | id in questions && Answered(questions[id], answers, id);
    var ids := Order.ListKeys(questions.Keys);
    ok := AllGood(questions, answers, ids, good);
    assert ok <==> questions.Keys <= good;
  }

  method ValidateAnswers(questions: Questions, answers: AnswerSet) returns (ok: bool)
    ensures ok == (ValidQuestions(questions) && ValidAnswers(questions, answers))
  {
    ok := ValidateQuestions(questions);
    if ok { ok := AllKnown(questions, answers); }
    if ok { ok := AllAnswered(questions, answers); }
  }
}
