/**
 The JSON Schema handed to providers, and its agreement with the validator: for every valid set
 of questions, an answer set is accepted exactly when its JSON encoding conforms to the
 generated schema and its numbers cohere. The schema's meaning is the one in module Json, which
 knows nothing of questions.
 */
module Schema {
  import opened Domain
  import opened Json
  import opened Answers
  import Order

  /** The wire encoding of answers; empty optional fields are omitted */

  function EncodeTexts(m: map<string, string>): Json { Object(map k | k in m :: String(m[k])) }

  function EncodeNumbers(m: map<string, real>): Json { Object(map k | k in m :: Number(m[k])) }

  const FIELDS := {"type", "noul", "choice", "score", "legend", "probabilities", "confidence"}

  predicate Present(a: Answer, field: string) {
    if field == "type" then true
    else if field == "noul" then a.noul.Some?
    else if field == "choice" then a.choice != ""
    else if field == "score" then a.score.Some?
    else if field == "legend" then a.legend != map[]
    else if field == "probabilities" then a.probabilities != map[]
    else a.confidence.Some?
  }

  function Field(a: Answer, field: string): Json
    requires Present(a, field)
  {
    if field == "type" then String(a.kind)
    else if field == "noul" then Number(a.noul.value)
    else if field == "choice" then String(a.choice)
    else if field == "score" then Number(a.score.value)
    else if field == "legend" then EncodeTexts(a.legend)
    else if field == "probabilities" then EncodeNumbers(a.probabilities)
    else Number(a.confidence.value)
  }

  function Encode(a: Answer): Json {
    Object(map k | k in FIELDS && Present(a, k) :: Field(a, k))
  }

  function EncodeAll(answers: AnswerSet): Json {
    Object(map["answers" := Object(map id | id in answers :: Encode(answers[id]))])
  }

  /** The JSON values each question admits */

  predicate IsUnit(v: Json) { v.Number? && Unit(v.n) }

  predicate IsDistribution(keys: set<string>, v: Json) {
    v.Object? && v.fields.Keys == keys && forall k :: k in v.fields ==> IsUnit(v.fields[k])
  }

  predicate IsLegend(levels: seq<string>, v: Json) {
    && v.Object? && v.fields.Keys == KeySet(|levels|)
    && Spells(LevelKeys(|levels|), levels, v.fields)
  }

  predicate Spells(keys: seq<string>, levels: seq<string>, f: map<string, Json>)
    requires |keys| == |levels|
  {
    forall i :: 0 <= i < |keys| ==> keys[i] in f && f[keys[i]] == String(levels[i])
  }

  predicate NoulShape(f: map<string, Json>) {
    f.Keys == {"type", "noul"} && f["type"] == String(NOUL) && IsUnit(f["noul"])
  }

  predicate ChoiceShape(q: Question, f: map<string, Json>) {
    && f.Keys == {"type", "choice", "probabilities", "confidence"}
    && f["type"] == String(CHOICE)
    && f["choice"].String? && f["choice"].s in q.criteria
    && IsDistribution(q.criteria.Keys, f["probabilities"])
    && IsUnit(f["confidence"])
  }

  predicate ScoreShape(q: Question, f: map<string, Json>) {
    && f.Keys == {"type", "score", "legend", "probabilities", "confidence"}
    && f["type"] == String(SCORE)
    && f["score"].Number? && 0.0 <= f["score"].n <= (|q.levels| - 1) as real
    && IsLegend(q.levels, f["legend"])
    && IsDistribution(KeySet(|q.levels|), f["probabilities"])
    && IsUnit(f["confidence"])
  }

  predicate Shape(q: Question, v: Json) {
    && v.Object?
    && if q.kind == NOUL then NoulShape(v.fields)
       else if q.kind == CHOICE then ChoiceShape(q, v.fields)
       else q.kind == SCORE && ScoreShape(q, v.fields)
  }

  predicate RootShape(questions: Questions, v: Json) {
    && v.Object? && v.fields.Keys == {"answers"}
    && v.fields["answers"].Object?
    && v.fields["answers"].fields.Keys == questions.Keys
    && forall id :: id in questions ==> Shape(questions[id], v.fields["answers"].fields[id])
  }

  // What no schema of this kind can say: relations between the numbers of one answer.
  ghost predicate Coherent(q: Question, a: Answer) {
    && (q.kind == CHOICE ==>
          Near(Sum(a.probabilities), 1.0, PROBABILITY_TOLERANCE) && Highest(a.choice, a.probabilities))
    && (q.kind == SCORE ==>
          && Near(Sum(a.probabilities), 1.0, PROBABILITY_TOLERANCE)
          && a.score.Some?
          && Near(Weighted(a.probabilities, LevelKeys(|q.levels|), |q.levels|), a.score.value, SCORE_TOLERANCE))
  }

  /** Encoded answers and shapes */

  // The field names differ, so an encoding has exactly the keys whose fields are set.
  lemma EncodedKeys(a: Answer)
    ensures var f := Encode(a).fields;
            && ("noul" in f <==> a.noul.Some?) && ("choice" in f <==> a.choice != "")
            && ("score" in f <==> a.score.Some?) && ("legend" in f <==> a.legend != map[])
            && ("probabilities" in f <==> a.probabilities != map[])
            && ("confidence" in f <==> a.confidence.Some?)
            && "type" in f && f.Keys <= FIELDS
  {
    assert "type"[0] != "noul"[0] && "choice"[0] != "legend"[0];
  }

  lemma EncodedValues(a: Answer)
    ensures var f := Encode(a).fields;
            && (forall k :: k in f ==> k in FIELDS && Present(a, k) && f[k] == Field(a, k))
            && ("type" in f ==> f["type"] == String(a.kind))
            && ("noul" in f ==> f["noul"] == Number(a.noul.value))
            && ("choice" in f ==> f["choice"] == String(a.choice))
            && ("score" in f ==> f["score"] == Number(a.score.value))
            && ("legend" in f ==> f["legend"] == EncodeTexts(a.legend))
            && ("probabilities" in f ==> f["probabilities"] == EncodeNumbers(a.probabilities))
            && ("confidence" in f ==> f["confidence"] == Number(a.confidence.value))
  {
    EncodedKeys(a);
    assert "type"[0] != "noul"[0] && "choice"[0] != "legend"[0];
  }

  lemma NoulKeys(a: Answer)
    ensures Encode(a).fields.Keys == {"type", "noul"} <==>
      a.noul.Some? && a.choice == "" && a.score.None? && a.legend == map[] && a.probabilities == map[]
      && a.confidence.None?
  {
    EncodedKeys(a);
    assert "type"[0] != "noul"[0];
  }

  lemma ChoiceKeys(a: Answer)
    ensures Encode(a).fields.Keys == {"type", "choice", "probabilities", "confidence"} <==>
      a.noul.None? && a.choice != "" && a.score.None? && a.legend == map[] && a.probabilities != map[]
      && a.confidence.Some?
  {
    EncodedKeys(a);
    assert "type"[0] != "noul"[0] && "choice"[0] != "legend"[0];
  }

  lemma ScoreKeys(a: Answer)
    ensures Encode(a).fields.Keys == {"type", "score", "legend", "probabilities", "confidence"} <==>
      a.noul.None? && a.choice == "" && a.score.Some? && a.legend != map[] && a.probabilities != map[]
      && a.confidence.Some?
  {
    EncodedKeys(a);
    assert "type"[0] != "noul"[0] && "choice"[0] != "legend"[0];
  }

  lemma NoulAgrees(a: Answer)
    requires a.kind == NOUL
    ensures ValidNoul(a) <==> NoulShape(Encode(a).fields)
  {
    NoulKeys(a);
    EncodedValues(a);
  }

  lemma DistributionEncoded(keys: set<string>, m: map<string, real>)
    ensures IsDistribution(keys, EncodeNumbers(m)) <==> m.Keys == keys && forall k :: k in m ==> Unit(m[k])
  {
    var f := EncodeNumbers(m).fields;
    assert f.Keys == m.Keys;
    assert forall k :: k in m ==> f[k] == Number(m[k]);
  }

  lemma LegendEncoded(levels: seq<string>, m: map<string, string>)
    ensures IsLegend(levels, EncodeTexts(m)) <==> LegendOf(levels, m)
  {
    var f := EncodeTexts(m).fields;
    assert f.Keys == m.Keys;
    assert forall k :: k in m ==> f[k] == String(m[k]);
  }

  lemma NotEmpty(q: Question, id: string)
    requires ValidQuestion(id, q)
    ensures q.kind == CHOICE ==> "" !in q.criteria && q.criteria.Keys != {}
    ensures q.kind == SCORE ==> KeySet(|q.levels|) != {}
  {
    assert Blank("");
    if q.kind == SCORE { assert LevelKeys(|q.levels|)[0] in KeySet(|q.levels|); }
  }

  lemma ChoiceAgrees(q: Question, id: string, a: Answer)
    requires ValidQuestion(id, q) && q.kind == CHOICE == a.kind
    ensures ValidChoice(q, a) <==> ChoiceShape(q, Encode(a).fields) && Coherent(q, a)
  {
    ChoiceKeys(a);
    EncodedValues(a);
    NotEmpty(q, id);
    DistributionEncoded(q.criteria.Keys, a.probabilities);
  }

  // Everything the schema can say of a score answer.
  ghost predicate ScoreFits(q: Question, a: Answer) {
    && a.noul.None? && a.choice == ""
    && a.score.Some? && 0.0 <= a.score.value <= (|q.levels| - 1) as real
    && a.confidence.Some? && Unit(a.confidence.value)
    && a.legend != map[] && LegendOf(q.levels, a.legend)
    && a.probabilities != map[] && UnitsOver(KeySet(|q.levels|), a.probabilities)
  }

  ghost predicate UnitsOver(keys: set<string>, m: map<string, real>) {
    m.Keys == keys && forall k :: k in m ==> Unit(m[k])
  }

  lemma ScoreShapeFits(q: Question, a: Answer)
    requires q.kind == SCORE == a.kind
    ensures ScoreShape(q, Encode(a).fields) <==> ScoreFits(q, a)
  {
    ScoreKeys(a);
    EncodedValues(a);
    DistributionEncoded(KeySet(|q.levels|), a.probabilities);
    LegendEncoded(q.levels, a.legend);
  }

  lemma ScoreAgrees(q: Question, id: string, a: Answer)
    requires ValidQuestion(id, q) && q.kind == SCORE == a.kind
    ensures ValidScore(q, a) <==> ScoreShape(q, Encode(a).fields) && Coherent(q, a)
  {
    NotEmpty(q, id);
    ScoreShapeFits(q, a);
    assert ValidScore(q, a) <==> ScoreFits(q, a) && Coherent(q, a);
  }

  lemma AnswerAgrees(q: Question, id: string, a: Answer)
    requires ValidQuestion(id, q)
    ensures ValidAnswer(q, a) <==> Shape(q, Encode(a)) && Coherent(q, a)
  {
    if a.kind != q.kind {
      EncodedKeys(a);
      EncodedValues(a);
    } else if q.kind == NOUL {
      NoulAgrees(a);
    } else if q.kind == CHOICE {
      ChoiceAgrees(q, id, a);
    } else {
      ScoreAgrees(q, id, a);
    }
  }

  ghost predicate AllCoherent(questions: Questions, answers: AnswerSet) {
    forall id :: id in questions && id in answers ==> Coherent(questions[id], answers[id])
  }

  ghost function ValidIds(questions: Questions, answers: AnswerSet): set<string> {
    set id | id in questions && Answered(questions[id], answers, id)
  }

  function ShapedIds(questions: Questions, answers: AnswerSet): set<string> {
    set id | id in questions && id in answers && Shape(questions[id], Encode(answers[id]))
  }

  ghost function CoherentIds(questions: Questions, answers: AnswerSet): set<string> {
    set id | id in questions && id in answers && Coherent(questions[id], answers[id])
  }

  lemma IdsAgree(questions: Questions, answers: AnswerSet)
    requires ValidQuestions(questions)
    ensures ValidIds(questions, answers) == ShapedIds(questions, answers) * CoherentIds(questions, answers)
  {
    forall id | id in questions && id in answers
      ensures id in ValidIds(questions, answers) <==>
              id in ShapedIds(questions, answers) && id in CoherentIds(questions, answers)
    {
      AnswerAgrees(questions[id], id, answers[id]);
    }
  }

  lemma RootIds(questions: Questions, answers: AnswerSet)
    ensures RootShape(questions, EncodeAll(answers)) <==>
            answers.Keys == questions.Keys == ShapedIds(questions, answers)
  {
    var f := EncodeAll(answers).fields["answers"].fields;
    assert EncodeAll(answers).fields.Keys == {"answers"} && f.Keys == answers.Keys;
    assert forall id :: id in f ==> f[id] == Encode(answers[id]);
  }

  lemma ValidIdsAre(questions: Questions, answers: AnswerSet)
    ensures ValidAnswers(questions, answers) <==>
            answers.Keys <= questions.Keys && ValidIds(questions, answers) == questions.Keys
    ensures ValidIds(questions, answers) <= answers.Keys
  {
  }

  lemma CoherentIdsAre(questions: Questions, answers: AnswerSet)
    requires answers.Keys == questions.Keys
    ensures AllCoherent(questions, answers) <==> CoherentIds(questions, answers) == questions.Keys
  {
  }

  // The validator accepts exactly the answers of the right shape whose numbers cohere.
  lemma ValidIffShape(questions: Questions, answers: AnswerSet)
    requires ValidQuestions(questions)
    ensures ValidAnswers(questions, answers)
       <==> RootShape(questions, EncodeAll(answers)) && AllCoherent(questions, answers)
  {
    IdsAgree(questions, answers);
    RootIds(questions, answers);
    ValidIdsAre(questions, answers);
    if answers.Keys == questions.Keys { CoherentIdsAre(questions, answers); }
    Combine(questions.Keys, answers.Keys, ShapedIds(questions, answers), CoherentIds(questions, answers),
            AllCoherent(questions, answers));
  }

  // Every ID is shaped and coherent exactly when every ID is both.
  lemma Combine(asked: set<string>, given: set<string>, shaped: set<string>, coherent: set<string>, all: bool)
    requires shaped <= asked && coherent <= asked && shaped <= given
    requires given == asked ==> (all <==> coherent == asked)
    ensures given <= asked && shaped * coherent == asked <==> given == asked == shaped && all
  {
  }

  /** The generator */

  ghost function Distributions(keys: set<string>): iset<Json> { iset v | IsDistribution(keys, v) }

  ghost function Legends(levels: seq<string>): iset<Json> { iset v | IsLegend(levels, v) }

  ghost function Shapes(q: Question): iset<Json> { iset v | Shape(q, v) }

  ghost function RootShapes(questions: Questions): iset<Json> { iset v | RootShape(questions, v) }

  method ProbabilityObject(keys: seq<string>) returns (schema: Json)
    ensures Admits(schema, Distributions(set k | k in keys))
  {
    var properties: map<string, Json> := map[];
    for i := 0 to |keys|
      invariant properties.Keys == set k | k in keys[..i]
      invariant forall k :: k in properties ==> properties[k] == UnitNumber()
    {
      properties := properties[keys[i] := UnitNumber()];
      assert keys[..i + 1] == keys[..i] + [keys[i]];
    }
    assert keys[..|keys|] == keys;
    schema := StrictObject(keys, properties);
    ghost var values := map k | k in properties :: Numbers(0.0, 1.0);
    RangeAdmits(0.0, 1.0);
    StrictObjectAdmits(keys, properties, values);
    assert Objects(values) == Distributions(set k | k in keys);
  }

  method LegendObject(levels: seq<string>) returns (schema: Json)
    ensures Admits(schema, Legends(levels))
  {
    var keys := LevelKeys(|levels|);
    LevelKeysAre(|levels|);
    var properties: map<string, Json> := map[];
    for i := 0 to |levels|
      invariant properties.Keys == set k | k in keys[..i]
      invariant forall j :: 0 <= j < i ==> keys[j] in properties && properties[keys[j]] == ConstString(levels[j])
    {
      assert keys[..i + 1] == keys[..i] + [keys[i]];
      properties := properties[keys[i] := ConstString(levels[i])];
    }
    assert keys[..|levels|] == keys;
    schema := StrictObject(keys, properties);
    LegendAdmits(keys, levels, properties);
  }

  // The values of one field: the text of the level its key stands for.
  ghost predicate TextsFor(keys: seq<string>, levels: seq<string>, values: map<string, iset<Json>>)
    requires |keys| == |levels|
  {
    && values.Keys == (set k | k in keys)
    && forall i :: 0 <= i < |keys| ==> keys[i] in values && values[keys[i]] == Names({levels[i]})
  }

  lemma {:induction false} TextsExist(keys: seq<string>, levels: seq<string>) returns (values: map<string, iset<Json>>)
    requires |keys| == |levels| && NoDuplicates(keys)
    ensures TextsFor(keys, levels, values)
  {
    if keys == [] {
      values := map[];
    } else {
      var n := |keys| - 1;
      values := TextsExist(keys[..n], levels[..n]);
      assert keys == keys[..n] + [keys[n]];
      values := values[keys[n] := Names({levels[n]})];
    }
  }

  lemma TextAdmits(keys: seq<string>, levels: seq<string>, properties: map<string, Json>,
                   values: map<string, iset<Json>>, p: string)
    requires |keys| == |levels| && TextsFor(keys, levels, values) && p in keys && p in properties
    requires forall j :: 0 <= j < |levels| ==> keys[j] in properties && properties[keys[j]] == ConstString(levels[j])
    ensures Admits(properties[p], values[p])
  {
    var j :| 0 <= j < |keys| && p == keys[j];
    ConstAdmits(levels[j]);
  }

  lemma LegendAdmits(keys: seq<string>, levels: seq<string>, properties: map<string, Json>)
    requires keys == LevelKeys(|levels|) && properties.Keys == set k | k in keys
    requires forall j :: 0 <= j < |levels| ==> keys[j] in properties && properties[keys[j]] == ConstString(levels[j])
    ensures Admits(StrictObject(keys, properties), Legends(levels))
  {
    LevelKeysAre(|levels|);
    var values := TextsExist(keys, levels);
    forall p | p in properties ensures Admits(properties[p], values[p]) {
      TextAdmits(keys, levels, properties, values, p);
    }
    StrictObjectAdmits(keys, properties, values);
    LegendSets(levels, values);
  }

  lemma LegendSets(levels: seq<string>, values: map<string, iset<Json>>)
    requires TextsFor(LevelKeys(|levels|), levels, values)
    ensures Objects(values) == Legends(levels)
  {
    forall v ensures v in Objects(values) <==> v in Legends(levels) {
      if v.Object? && v.fields.Keys == KeySet(|levels|) {
        LegendFields(LevelKeys(|levels|), levels, values, v.fields);
      }
    }
  }

  lemma LegendFields(keys: seq<string>, levels: seq<string>, values: map<string, iset<Json>>, f: map<string, Json>)
    requires |keys| == |levels| && f.Keys == (set k | k in keys) && TextsFor(keys, levels, values)
    ensures FieldsIn(values, f) <==> Spells(keys, levels, f)
  {
    if Spells(keys, levels, f) {
      forall p | p in f ensures f[p] in values[p] {
        var j :| 0 <= j < |keys| && p == keys[j];
      }
    } else {
      var i :| 0 <= i < |keys| && f[keys[i]] != String(levels[i]);
      assert f[keys[i]] !in values[keys[i]];
    }
  }

  function NoulSchema(): Json {
    StrictObject(["type", "noul"], map["type" := ConstString(NOUL), "noul" := UnitNumber()])
  }

  function ChoiceSchema(choices: seq<string>, probabilities: Json): Json {
    StrictObject(["type", "choice", "probabilities", "confidence"],
                 map["type" := ConstString(CHOICE), "choice" := EnumString(choices),
                     "probabilities" := probabilities, "confidence" := UnitNumber()])
  }

  function ScoreSchema(top: real, legend: Json, probabilities: Json): Json {
    StrictObject(["type", "score", "legend", "probabilities", "confidence"],
                 map["type" := ConstString(SCORE), "score" := Range(0.0, top),
                     "legend" := legend, "probabilities" := probabilities, "confidence" := UnitNumber()])
  }

  lemma NoulAdmits(q: Question)
    requires q.kind == NOUL
    ensures Admits(NoulSchema(), Shapes(q))
  {
    assert "type"[0] != "noul"[0];
    var values := map["type" := Names({NOUL}), "noul" := Numbers(0.0, 1.0)];
    ConstAdmits(NOUL);
    RangeAdmits(0.0, 1.0);
    StrictObjectAdmits(["type", "noul"], map["type" := ConstString(NOUL), "noul" := UnitNumber()], values);
    NoulFields(q);
  }

  lemma NoulFields(q: Question)
    requires q.kind == NOUL
    ensures Objects(map["type" := Names({NOUL}), "noul" := Numbers(0.0, 1.0)]) == Shapes(q)
  {
    assert "type"[0] != "noul"[0];
  }

  lemma ChoiceAdmits(q: Question, choices: seq<string>, probabilities: Json)
    requires q.kind == CHOICE && forall c :: c in choices <==> c in q.criteria
    requires Admits(probabilities, Distributions(q.criteria.Keys))
    ensures Admits(ChoiceSchema(choices, probabilities), Shapes(q))
  {
    var properties := map["type" := ConstString(CHOICE), "choice" := EnumString(choices),
                          "probabilities" := probabilities, "confidence" := UnitNumber()];
    var values := map["type" := Names({CHOICE}), "choice" := Names(q.criteria.Keys),
                      "probabilities" := Distributions(q.criteria.Keys), "confidence" := Numbers(0.0, 1.0)];
    ConstAdmits(CHOICE);
    EnumAdmits(choices);
    assert (set x | x in choices) == q.criteria.Keys;
    RangeAdmits(0.0, 1.0);
    StrictObjectAdmits(["type", "choice", "probabilities", "confidence"], properties, values);
    ChoiceFields(q);
  }

  lemma ChoiceFields(q: Question)
    requires q.kind == CHOICE
    ensures Objects(map["type" := Names({CHOICE}), "choice" := Names(q.criteria.Keys),
                        "probabilities" := Distributions(q.criteria.Keys), "confidence" := Numbers(0.0, 1.0)])
         == Shapes(q)
  {
  }

  lemma ScoreAdmits(q: Question, legend: Json, probabilities: Json)
    requires q.kind == SCORE
    requires Admits(legend, Legends(q.levels)) && Admits(probabilities, Distributions(KeySet(|q.levels|)))
    ensures Admits(ScoreSchema((|q.levels| - 1) as real, legend, probabilities), Shapes(q))
  {
    var top := (|q.levels| - 1) as real;
    var properties := map["type" := ConstString(SCORE), "score" := Range(0.0, top),
                          "legend" := legend, "probabilities" := probabilities, "confidence" := UnitNumber()];
    var values := map["type" := Names({SCORE}), "score" := Numbers(0.0, top), "legend" := Legends(q.levels),
                      "probabilities" := Distributions(KeySet(|q.levels|)), "confidence" := Numbers(0.0, 1.0)];
    ConstAdmits(SCORE);
    RangeAdmits(0.0, top);
    RangeAdmits(0.0, 1.0);
    StrictObjectAdmits(["type", "score", "legend", "probabilities", "confidence"], properties, values);
    ScoreFields(q);
  }

  lemma ScoreFields(q: Question)
    requires q.kind == SCORE
    ensures Objects(map["type" := Names({SCORE}), "score" := Numbers(0.0, (|q.levels| - 1) as real),
                        "legend" := Legends(q.levels), "probabilities" := Distributions(KeySet(|q.levels|)),
                        "confidence" := Numbers(0.0, 1.0)])
         == Shapes(q)
  {
  }

  method AnswerSchemaFor(q: Question, ghost id: string) returns (schema: Json)
    requires ValidQuestion(id, q)
    ensures Admits(schema, Shapes(q))
  {
    if q.kind == NOUL {
      schema := NoulSchema();
      NoulAdmits(q);
    } else if q.kind == CHOICE {
      var choices := Order.ListKeys(q.criteria.Keys);
      assert (set c | c in choices) == q.criteria.Keys;
      var probabilities := ProbabilityObject(choices);
      schema := ChoiceSchema(choices, probabilities);
      ChoiceAdmits(q, choices, probabilities);
    } else {
      LevelKeysAre(|q.levels|);
      var legend := LegendObject(q.levels);
      var probabilities := ProbabilityObject(LevelKeys(|q.levels|));
      schema := ScoreSchema((|q.levels| - 1) as real, legend, probabilities);
      ScoreAdmits(q, legend, probabilities);
    }
  }

  const ANNOTATIONS := map["$schema" := String("https://json-schema.org/draft/2020-12/schema"),
                           "title" := String("RuleRaven provider answers")]

  function RootSchema(ids: seq<string>, properties: map<string, Json>): Json {
    Object(ANNOTATIONS + StrictObject(["answers"], map["answers" := StrictObject(ids, properties)]).fields)
  }

  lemma RootAdmits(questions: Questions, ids: seq<string>, properties: map<string, Json>)
    requires Lists(ids, questions.Keys) && properties.Keys == questions.Keys
    requires forall id :: id in questions ==> Admits(properties[id], Shapes(questions[id]))
    ensures Admits(RootSchema(ids, properties), RootShapes(questions))
  {
    var each := map id | id in questions :: Shapes(questions[id]);
    StrictObjectAdmits(ids, properties, each);
    var inner := StrictObject(ids, properties);
    RootObjectAdmits(inner, Objects(each));
    RootSets(questions);
    AnnotationsAreNotKeywords();
    AnnotationsAdmit(ANNOTATIONS, StrictObject(["answers"], map["answers" := inner]).fields, RootShapes(questions));
  }

  lemma AnnotationsAreNotKeywords()
    ensures ANNOTATIONS.Keys !! KEYWORDS
  {
    assert "title"[0] != "const"[0] && "$schema"[0] != "minimum"[0] && "$schema"[0] != "maximum"[0];
  }

  lemma RootObjectAdmits(inner: Json, values: iset<Json>)
    requires Admits(inner, values)
    ensures Admits(StrictObject(["answers"], map["answers" := inner]), Objects(map["answers" := values]))
  {
    StrictObjectAdmits(["answers"], map["answers" := inner], map["answers" := values]);
  }

  lemma RootSets(questions: Questions)
    ensures Objects(map["answers" := Objects(map id | id in questions :: Shapes(questions[id]))])
         == RootShapes(questions)
  {
    var each := map id | id in questions :: Shapes(questions[id]);
    var whole := map["answers" := Objects(each)];
    assert whole.Keys == {"answers"};
    forall v: Json ensures v in Objects(whole) <==> v in RootShapes(questions) {
      if v.Object? && v.fields.Keys == {"answers"} {
        EachIn(questions, v.fields["answers"]);
      }
    }
  }

  lemma EachIn(questions: Questions, v: Json)
    ensures v in Objects(map id | id in questions :: Shapes(questions[id]))
       <==> v.Object? && v.fields.Keys == questions.Keys
            && forall id :: id in questions ==> Shape(questions[id], v.fields[id])
  {
  }

  ghost predicate AllAdmit(questions: Questions, properties: map<string, Json>) {
    forall id :: id in properties ==> id in questions && Admits(properties[id], Shapes(questions[id]))
  }

  lemma AddProperty(questions: Questions, properties: map<string, Json>, id: string, property: Json)
    requires AllAdmit(questions, properties) && id in questions && Admits(property, Shapes(questions[id]))
    ensures AllAdmit(questions, properties[id := property])
  {
  }

  // The properties of the inner object: each question's own schema under its ID.
  method AnswerProperties(questions: Questions, ids: seq<string>) returns (properties: map<string, Json>)
    requires ValidQuestions(questions) && Lists(ids, questions.Keys)
    ensures properties.Keys == questions.Keys
    ensures forall id :: id in questions ==> Admits(properties[id], Shapes(questions[id]))
  {
    properties := map[];
    for i := 0 to |ids|
      invariant properties.Keys == set id | id in ids[..i]
      invariant AllAdmit(questions, properties)
    {
      assert ids[..i + 1] == ids[..i] + [ids[i]];
      var property := AnswerSchemaFor(questions[ids[i]], ids[i]);
      AddProperty(questions, properties, ids[i], property);
      properties := properties[ids[i] := property];
    }
    assert ids[..|ids|] == ids;
  }

  // The strict schema for a set of questions; None is the error of invalid questions.
  method AnswerJsonSchema(questions: Questions) returns (schema: Option<Json>)
    ensures schema.Some? <==> ValidQuestions(questions)
    ensures schema.Some? ==> forall v :: Conforms(schema.value, v) <==> RootShape(questions, v)
    ensures schema.Some? ==> forall answers ::
      ValidAnswers(questions, answers) <==>
      Conforms(schema.value, EncodeAll(answers)) && AllCoherent(questions, answers)
  {
    var valid := ValidateQuestions(questions);
    if !valid { return None; }
    var ids := Order.ListKeys(questions.Keys);
    var properties := AnswerProperties(questions, ids);
    schema := Some(RootSchema(ids, properties));
    RootAdmits(questions, ids, properties);
    SchemaAgrees(questions, schema.value);
  }

  // Any schema that admits the root shapes agrees with the validator.
  lemma SchemaAgrees(questions: Questions, schema: Json)
    requires ValidQuestions(questions) && Admits(schema, RootShapes(questions))
    ensures forall v :: Conforms(schema, v) <==> RootShape(questions, v)
    ensures forall answers :: ValidAnswers(questions, answers) <==>
              Conforms(schema, EncodeAll(answers)) && AllCoherent(questions, answers)
  {
    forall answers ensures ValidAnswers(questions, answers) <==>
      Conforms(schema, EncodeAll(answers)) && AllCoherent(questions, answers)
    {
      ValidIffShape(questions, answers);
    }
  }
}
