/**
 Policy composition (internal/decision): from a rule result and provider evidence to a decision.
 Numbers the thresholds are compared with are the answers' own reals.
 */
module Composer {
  import opened Domain
  import opened Answers
  import opened Rules
  import Order

  const COMPOSITION_POLICY_VERSION := "operational-composer-v1"

  const INCIDENT_FAMILY := "incident_family"
  const OPERATIONAL_IMPACT := "operational_impact"
  const IMMEDIATE_ATTENTION := "requires_immediate_attention"
  const LIKELY_TRANSIENT := "likely_transient"

  const FAMILY := Question(CHOICE, "Which incident family best explains the observed operational state?",
    map["application" := "Application process, runtime, or workload behavior",
        "configuration" := "Invalid or incompatible workload or cluster configuration",
        "dependency" := "A required internal or external dependency is failing",
        "infrastructure" := "Cluster, node, storage, or networking infrastructure",
        "security" := "A suspected security or access-control issue",
        "unknown" := "The bounded evidence does not support another family"], [])

  const IMPACT := Question(SCORE, "Rate the current operational impact from the bounded evidence.", map[],
    ["No current user-visible impact", "Limited degradation or a working workaround",
     "Material degradation affecting multiple users or a critical workload",
     "Broad outage, data-loss risk, or security impact"])

  const IMMEDIATE := Question(NOUL, "Does the incident require immediate human attention?",
    map["true" := "Delay is likely to materially increase operational harm",
        "false" := "The incident can safely wait for normal triage"], [])

  const TRANSIENT := Question(NOUL, "Is the observed condition likely to clear without intervention?",
    map["true" := "The evidence indicates a short-lived or self-healing condition",
        "false" := "The condition is likely persistent or requires intervention"], [])

  const TRIAGE: Questions := Rubric(FAMILY, IMPACT, IMMEDIATE, TRANSIENT)

  // All that composition relies on: the wording of the questions plays no part.
  ghost predicate IsRubric(q: Questions) {
    && ValidQuestions(q)
    && q.Keys == {INCIDENT_FAMILY, OPERATIONAL_IMPACT, IMMEDIATE_ATTENTION, LIKELY_TRANSIENT}
    && q[INCIDENT_FAMILY].kind == CHOICE
    && q[OPERATIONAL_IMPACT].kind == SCORE && |q[OPERATIONAL_IMPACT].levels| == 4
    && q[IMMEDIATE_ATTENTION].kind == NOUL && q[LIKELY_TRANSIENT].kind == NOUL
  }

  const FALLBACK := Decision(Warning, Notify, "Provider evidence unavailable; manual triage required",
                             ["provider_unavailable"], [])

  /** The versioned rubric is itself valid, so only answers can be refused */

  lemma NotBlank(s: string)
    requires s != "" && !IsSpace(s[|s| - 1])
    ensures !Blank(s)
  {
  }

  lemma FamilyIsValid()
    ensures ValidQuestion(INCIDENT_FAMILY, FAMILY)
  {
    NotBlank(INCIDENT_FAMILY);
    NotBlank(FAMILY.instructions);
    forall c | c in FAMILY.criteria ensures !Blank(c) { NotBlank(c); }
    assert {"application", "configuration"} <= FAMILY.criteria.Keys;
    Order.SubsetSize({"application", "configuration"}, FAMILY.criteria.Keys);
  }

  lemma ImpactIsValid()
    ensures ValidQuestion(OPERATIONAL_IMPACT, IMPACT)
  {
    NotBlank(OPERATIONAL_IMPACT);
    NotBlank(IMPACT.instructions);
    var s := IMPACT.levels;
    assert |s[0]| == 30 && |s[1]| == 43 && |s[2]| == 68 && |s[3]| == 48;
    forall l | l in s ensures !Blank(l) { NotBlank(l); }
  }

  lemma NoulIsValid(id: string, instructions: string, yes: string, no: string)
    requires !Blank(id) && !Blank(instructions)
    ensures ValidQuestion(id, Question(NOUL, instructions, map["true" := yes, "false" := no], []))
  {
    assert map["true" := yes, "false" := no].Keys == {"true", "false"};
  }

  lemma ImmediateIsValid()
    ensures ValidQuestion(IMMEDIATE_ATTENTION, IMMEDIATE)
  {
    NotBlank(IMMEDIATE_ATTENTION);
    NotBlank(IMMEDIATE.instructions);
    NoulIsValid(IMMEDIATE_ATTENTION, IMMEDIATE.instructions, IMMEDIATE.criteria["true"], IMMEDIATE.criteria["false"]);
  }

  lemma TransientIsValid()
    ensures ValidQuestion(LIKELY_TRANSIENT, TRANSIENT)
  {
    NotBlank(LIKELY_TRANSIENT);
    NotBlank(TRANSIENT.instructions);
    NoulIsValid(LIKELY_TRANSIENT, TRANSIENT.instructions, TRANSIENT.criteria["true"], TRANSIENT.criteria["false"]);
  }

  function Rubric(family: Question, impact: Question, immediate: Question, transient: Question): Questions {
    map[INCIDENT_FAMILY := family, OPERATIONAL_IMPACT := impact, IMMEDIATE_ATTENTION := immediate,
        LIKELY_TRANSIENT := transient]
  }

  lemma RubricIsValid(family: Question, impact: Question, immediate: Question, transient: Question)
    requires ValidQuestion(INCIDENT_FAMILY, family) && ValidQuestion(OPERATIONAL_IMPACT, impact)
    requires ValidQuestion(IMMEDIATE_ATTENTION, immediate) && ValidQuestion(LIKELY_TRANSIENT, transient)
    ensures var r := Rubric(family, impact, immediate, transient);
            && ValidQuestions(r)
            && r.Keys == {INCIDENT_FAMILY, OPERATIONAL_IMPACT, IMMEDIATE_ATTENTION, LIKELY_TRANSIENT}
            && r[INCIDENT_FAMILY] == family && r[OPERATIONAL_IMPACT] == impact
            && r[IMMEDIATE_ATTENTION] == immediate && r[LIKELY_TRANSIENT] == transient
  {
    var r := Rubric(family, impact, immediate, transient);
    assert INCIDENT_FAMILY in r;
    assert |INCIDENT_FAMILY| == 15 && |OPERATIONAL_IMPACT| == 18 && |IMMEDIATE_ATTENTION| == 28
           && |LIKELY_TRANSIENT| == 16;
    assert r[INCIDENT_FAMILY] == family && r[OPERATIONAL_IMPACT] == impact
           && r[IMMEDIATE_ATTENTION] == immediate && r[LIKELY_TRANSIENT] == transient;
  }

  lemma TriageIsRubric()
    ensures IsRubric(TRIAGE)
    ensures TRIAGE[INCIDENT_FAMILY] == FAMILY && TRIAGE[OPERATIONAL_IMPACT] == IMPACT
    ensures TRIAGE[IMMEDIATE_ATTENTION] == IMMEDIATE && TRIAGE[LIKELY_TRANSIENT] == TRANSIENT
  {
    FamilyIsValid();
    ImpactIsValid();
    ImmediateIsValid();
    TransientIsValid();
    RubricIsValid(FAMILY, IMPACT, IMMEDIATE, TRANSIENT);
  }

  /** Evidence */

  datatype Evidence = Evidence(family: string, impact: real, immediate: real, transient: real)

  // The fields composition dereferences.
  predicate Complete(answers: AnswerSet) {
    && {INCIDENT_FAMILY, OPERATIONAL_IMPACT, IMMEDIATE_ATTENTION, LIKELY_TRANSIENT} <= answers.Keys
    && answers[OPERATIONAL_IMPACT].score.Some?
    && answers[IMMEDIATE_ATTENTION].noul.Some? && answers[LIKELY_TRANSIENT].noul.Some?
  }

  function Read(answers: AnswerSet): Evidence
    requires Complete(answers)
  {
    Evidence(answers[INCIDENT_FAMILY].choice, answers[OPERATIONAL_IMPACT].score.value,
             answers[IMMEDIATE_ATTENTION].noul.value, answers[LIKELY_TRANSIENT].noul.value)
  }

  // They are there in every accepted answer set, within the ranges the rubric names.
  lemma AcceptedAnswersAreComplete(rubric: Questions, answers: AnswerSet)
    requires IsRubric(rubric) && ValidAnswers(rubric, answers)
    ensures Complete(answers)
    ensures Read(answers).family in rubric[INCIDENT_FAMILY].criteria
    ensures 0.0 <= Read(answers).impact <= 3.0
    ensures Unit(Read(answers).immediate) && Unit(Read(answers).transient)
    ensures Read(answers).family == answers["incident_family"].choice
    ensures Some(Read(answers).impact) == answers["operational_impact"].score
    ensures Some(Read(answers).immediate) == answers["requires_immediate_attention"].noul
    ensures Some(Read(answers).transient) == answers["likely_transient"].noul
  {
    assert Answered(rubric[INCIDENT_FAMILY], answers, INCIDENT_FAMILY);
    assert Answered(rubric[OPERATIONAL_IMPACT], answers, OPERATIONAL_IMPACT);
    assert Answered(rubric[IMMEDIATE_ATTENTION], answers, IMMEDIATE_ATTENTION);
    assert Answered(rubric[LIKELY_TRANSIENT], answers, LIKELY_TRANSIENT);
  }

  function Triage(e: Evidence): Decision {
    var summary := "Provider evidence classifies the incident as " + e.family;
    var reasons := ["provider_evidence", "incident_family_" + e.family];
    if e.impact >= 2.5 || e.immediate >= 0.85 then
      Decision(Critical, Page, summary, reasons + ["semantic_critical"], [])
    else if e.impact >= 1.0 || e.immediate >= 0.5 || e.transient < 0.7 then
      Decision(Warning, Notify, summary, reasons + ["semantic_warning"], [])
    else
      Decision(Info, Record, summary, reasons + ["semantic_low_impact"], [])
  }

  /** The deterministic floor */

  predicate Increasing(s: seq<string>) {
    forall i, j :: 0 <= i < j < |s| ==> Order.StringLess(s[i], s[j])
  }

  // The non-empty strings of both lists, each once, in increasing order.
  ghost predicate Merges(merged: seq<string>, left: seq<string>, right: seq<string>) {
    Increasing(merged) && forall x :: x in merged <==> x != "" && (x in left || x in right)
  }

  // Which is one list only.
  lemma MergeIsUnique(a: seq<string>, b: seq<string>, left: seq<string>, right: seq<string>)
    requires Merges(a, left, right) && Merges(b, left, right)
    ensures a == b
  {
    Order.StringsAreOrdered();
    IncreasingIsSorted(a);
    IncreasingIsSorted(b);
    forall x ensures multiset(a)[x] == multiset(b)[x] {
      assert x in a <==> x in b;
      assert x in a <==> x in multiset(a);
      assert x in b <==> x in multiset(b);
    }
    assert multiset(a) == multiset(b);
    Order.SortedUnique(a, b, Order.StringLess);
  }

  lemma IncreasingIsSorted(s: seq<string>)
    requires Increasing(s)
    ensures Order.Sorted(s, Order.StringLess)
    ensures forall x :: multiset(s)[x] <= 1
  {
    Order.StringsAreOrdered();
    Order.TotalIsWeak(Order.StringLess);
    assert forall i, j :: 0 <= i < j < |s| ==> s[i] != s[j];
    Order.NoRepeats(s);
  }

  method MergeStrings(left: seq<string>, right: seq<string>) returns (merged: seq<string>)
    ensures Merges(merged, left, right)
  {
    var seen := AddNonEmpty({}, left);
    seen := AddNonEmpty(seen, right);
    merged := Order.SortedKeys(seen);
    Order.StringsAreOrdered();
  }

  method AddNonEmpty(start: set<string>, values: seq<string>) returns (seen: set<string>)
    ensures forall x :: x in seen <==> x in start || (x != "" && x in values)
  {
    seen := start;
    for i := 0 to |values|
      invariant forall x :: x in seen <==> x in start || (x != "" && x in values[..i])
    {
      if values[i] != "" { seen := seen + {values[i]}; }
      assert values[..i + 1] == values[..i] + [values[i]];
    }
    assert values[..|values|] == values;
  }

  // decision raised to floor where the floor is higher.
  ghost predicate Floored(d: Decision, floor: Option<Decision>, r: Decision) {
    match floor
    case None => r == d
    case Some(f) =>
      && r.severity == (if SeverityRank(f.severity) > SeverityRank(d.severity) then f.severity else d.severity)
      && r.action == (if ActionRank(f.action) > ActionRank(d.action) then f.action else d.action)
      && Merges(r.ruleIds, d.ruleIds, f.ruleIds) && Merges(r.reasonCodes, d.reasonCodes, f.reasonCodes)
      && r.summary == (if (r.severity != d.severity || r.action != d.action) && f.summary != "" then f.summary
                       else d.summary)
  }

  method ApplyDeterministicFloor(d: Decision, floor: Option<Decision>) returns (r: Decision)
    ensures Floored(d, floor, r)
  {
    if floor.None? { return d; }
    var f := floor.value;
    var severity, action, won := d.severity, d.action, false;
    if SeverityRank(f.severity) > SeverityRank(severity) { severity, won := f.severity, true; }
    if ActionRank(f.action) > ActionRank(action) { action, won := f.action, true; }
    var ruleIds := MergeStrings(d.ruleIds, f.ruleIds);
    var reasons := MergeStrings(d.reasonCodes, f.reasonCodes);
    r := Decision(severity, action, if won && f.summary != "" then f.summary else d.summary, reasons, ruleIds);
  }

  /** Compose */

  // What the evidence alone says; anything unusable fails closed to the fallback.
  // Complete adds nothing under a rubric: AcceptedAnswersAreComplete.
  ghost function Proposed(rubric: Questions, r: Result, answers: AnswerSet, failed: bool): Decision {
    if failed || r.questionSet != OPERATIONAL_TRIAGE || !ValidAnswers(rubric, answers) || !Complete(answers)
    then FALLBACK
    else Triage(Read(answers))
  }

  ghost predicate Composed(r: Result, proposed: Decision, d: Decision) {
    if r.disposition != Semantic && r.decision.Some? then d == r.decision.value
    else exists ids ::
      Merges(ids, proposed.ruleIds, RuleIds(r.matches)) && Floored(proposed.(ruleIds := ids), r.decision, d)
  }

  method Compose(rubric: Questions, r: Result, answers: AnswerSet, failed: bool) returns (d: Decision)
    requires IsRubric(rubric)
    ensures Composed(r, Proposed(rubric, r, answers, failed), d)
    ensures Consults(r) && !failed && ValidAnswers(rubric, answers) ==> DecidedBy(answers, d)
    ensures Consults(r) && (failed || !ValidAnswers(rubric, answers)) ==>
      d.severity == Warning && d.action == Notify
      && d.summary == "Provider evidence unavailable; manual triage required"
  {
    if r.disposition != Semantic && r.decision.Some? { return r.decision.value; }
    var composed := FALLBACK;
    if !failed && r.questionSet == OPERATIONAL_TRIAGE {
      var valid := ValidateAnswers(rubric, answers);
      if valid {
        AcceptedAnswersAreComplete(rubric, answers);
        composed := Triage(Read(answers));
      }
    }
    var ids := MergeStrings(composed.ruleIds, RuleIds(r.matches));
    d := ApplyDeterministicFloor(composed.(ruleIds := ids), r.decision);
    assert Composed(r, Proposed(rubric, r, answers, failed), d);
    if Consults(r) && !failed && ValidAnswers(rubric, answers) { AnswersDecide(rubric, r, answers, d); }
  }

  // A result that is left to the evidence, as the engine makes them.
  predicate Consults(r: Result) {
    r.disposition == Semantic && r.decision.None? && r.questionSet == "operational-triage-v1"
  }

  // The decision, read off the four answers.
  predicate DecidedBy(answers: AnswerSet, d: Decision) {
    && "incident_family" in answers && "operational_impact" in answers
    && "requires_immediate_attention" in answers && "likely_transient" in answers
    && var impact := answers["operational_impact"].score;
       var immediate := answers["requires_immediate_attention"].noul;
       var transient := answers["likely_transient"].noul;
       var family := answers["incident_family"].choice;
       && impact.Some? && immediate.Some? && transient.Some?
       && var page := impact.value >= 2.5 || immediate.value >= 0.85;
          var record := impact.value < 1.0 && immediate.value < 0.5 && transient.value >= 0.7;
          && (d.action == Page <==> page) && (d.severity == Critical <==> page)
          && (d.action == Record <==> record) && (d.severity == Info <==> record)
          && (!page && !record ==> d.action == Notify && d.severity == Warning)
          && d.summary == "Provider evidence classifies the incident as " + family
          && d.reasonCodes == ["provider_evidence", "incident_family_" + family,
                               if page then "semantic_critical" else if record then "semantic_low_impact"
                               else "semantic_warning"]
  }

  // Composition follows the answers to the questions by name.
  lemma AnswersDecide(rubric: Questions, r: Result, answers: AnswerSet, d: Decision)
    requires IsRubric(rubric) && Consults(r) && ValidAnswers(rubric, answers)
    requires Composed(r, Proposed(rubric, r, answers, false), d)
    ensures DecidedBy(answers, d)
  {
    AcceptedAnswersAreComplete(rubric, answers);
    var proposed := Proposed(rubric, r, answers, false);
    var ids :| Merges(ids, proposed.ruleIds, RuleIds(r.matches)) && Floored(proposed.(ruleIds := ids), r.decision, d);
    assert d == Triage(Read(answers)).(ruleIds := ids);
    TriageDecides(answers, d);
  }

  lemma TriageDecides(answers: AnswerSet, d: Decision)
    requires Complete(answers) && d == Triage(Read(answers)).(ruleIds := d.ruleIds)
    ensures DecidedBy(answers, d)
  {
  }

  // Every semantic result of the engine is one that consults.
  lemma EngineConsults(f: Finding, previous: Option<Incident>)
    ensures Judge(f, previous).disposition == Semantic <==> Consults(Judge(f, previous))
  {
  }

  /** What composition guarantees */

  // One decision for each result and evidence.
  lemma CompositionIsDetermined(r: Result, proposed: Decision, a: Decision, b: Decision)
    requires Composed(r, proposed, a) && Composed(r, proposed, b)
    ensures a == b
  {
    if r.disposition == Semantic || r.decision.None? {
      var i :| Merges(i, proposed.ruleIds, RuleIds(r.matches)) && Floored(proposed.(ruleIds := i), r.decision, a);
      var j :| Merges(j, proposed.ruleIds, RuleIds(r.matches)) && Floored(proposed.(ruleIds := j), r.decision, b);
      MergeIsUnique(i, j, proposed.ruleIds, RuleIds(r.matches));
      if r.decision.Some? {
        MergeIsUnique(a.ruleIds, b.ruleIds, i, r.decision.value.ruleIds);
        MergeIsUnique(a.reasonCodes, b.reasonCodes, proposed.reasonCodes, r.decision.value.reasonCodes);
      }
    }
  }

  // A deterministic decision is a floor, and its rule IDs and reason codes are never lost.
  lemma NeverBelowTheFloor(r: Result, proposed: Decision, d: Decision)
    requires Composed(r, proposed, d) && r.decision.Some?
    ensures SeverityRank(d.severity) >= SeverityRank(r.decision.value.severity)
    ensures ActionRank(d.action) >= ActionRank(r.decision.value.action)
    ensures forall x :: x in r.decision.value.ruleIds && x != "" ==> x in d.ruleIds
    ensures forall x :: x in r.decision.value.reasonCodes && x != "" ==> x in d.reasonCodes
  {
  }

  // Every rule that matched is named whenever the evidence is consulted.
  lemma MatchesAreNamed(r: Result, proposed: Decision, d: Decision, m: Match)
    requires Composed(r, proposed, d) && m in r.matches && m.ruleId != ""
    requires r.disposition == Semantic || r.decision.None?
    ensures m.ruleId in d.ruleIds
  {
    var ids :| Merges(ids, proposed.ruleIds, RuleIds(r.matches)) && Floored(proposed.(ruleIds := ids), r.decision, d);
    var k :| 0 <= k < |r.matches| && r.matches[k] == m;
    assert RuleIds(r.matches)[k] == m.ruleId;
    assert m.ruleId in ids;
  }

  predicate AtLeast(e: Evidence, f: Evidence) {
    e.impact >= f.impact && e.immediate >= f.immediate && e.transient <= f.transient
  }

  // More impact, more urgency or less hope of clearing never lowers the decision, floor or not.
  lemma Monotone(r: Result, e: Evidence, f: Evidence, d: Decision, c: Decision)
    requires AtLeast(e, f) && Composed(r, Triage(e), d) && Composed(r, Triage(f), c)
    ensures SeverityRank(d.severity) >= SeverityRank(c.severity)
    ensures ActionRank(d.action) >= ActionRank(c.action)
  {
    if r.disposition != Semantic && r.decision.Some? {
      assert d == c;
    }
  }

  // Without usable evidence nothing is quieter than a warning that notifies.
  lemma FailsClosed(rubric: Questions, r: Result, answers: AnswerSet, failed: bool, d: Decision)
    requires Composed(r, Proposed(rubric, r, answers, failed), d)
    requires r.disposition == Semantic || r.decision.None?
    requires failed || r.questionSet != OPERATIONAL_TRIAGE || !ValidAnswers(rubric, answers)
    ensures SeverityRank(d.severity) >= SeverityRank(Warning) && ActionRank(d.action) >= ActionRank(Notify)
    ensures "provider_unavailable" in d.reasonCodes
  {
    assert "provider_unavailable" in FALLBACK.reasonCodes;
  }

  // For a result of the engine a deterministic decision is passed through, and a relapsed result,
  // where nothing matches, takes the fallback and notifies.
  lemma DeterministicResultsCompose(f: Finding, previous: Option<Incident>, proposed: Decision, d: Decision)
    requires Composed(Judge(f, previous), proposed, d)
    ensures Judge(f, previous).decision.Some? ==> d == Judge(f, previous).decision.value
    ensures Judge(f, previous).disposition == Unmatched && proposed == FALLBACK ==> d == FALLBACK
  {
    var r := Judge(f, previous);
    if r.disposition == Unmatched && proposed == FALLBACK {
      var ids :| Merges(ids, proposed.ruleIds, RuleIds(r.matches)) && Floored(proposed.(ruleIds := ids), r.decision, d);
      assert RuleIds(r.matches) == [] && Merges([], [], []);
      MergeIsUnique(ids, [], [], []);
    }
  }

  lemma RelapseNotifies(rubric: Questions, f: Finding, previous: Option<Incident>, answers: AnswerSet, failed: bool,
                        d: Decision)
    requires Judge(f, previous).disposition == Unmatched
    requires Composed(Judge(f, previous), Proposed(rubric, Judge(f, previous), answers, failed), d)
    ensures d == FALLBACK
  {
    assert Judge(f, previous).questionSet == "";
    DeterministicResultsCompose(f, previous, Proposed(rubric, Judge(f, previous), answers, failed), d);
  }

  // A semantic result is decided by the evidence bands.
  lemma EvidenceDecides(f: Finding, previous: Option<Incident>, e: Evidence, d: Decision)
    requires Judge(f, previous).disposition == Semantic && Composed(Judge(f, previous), Triage(e), d)
    ensures d.action == Page <==> e.impact >= 2.5 || e.immediate >= 0.85
    ensures d.action == Record <==> e.impact < 1.0 && e.immediate < 0.5 && e.transient >= 0.7
    ensures d.action in {Page, Notify, Record} && d.ruleIds == ["warning-event"]
  {
    var r := Judge(f, previous);
    var ids :| Merges(ids, [], RuleIds(r.matches)) && Floored(Triage(e).(ruleIds := ids), r.decision, d);
    assert RuleIds(r.matches) == ["warning-event"];
    assert Merges(["warning-event"], [], ["warning-event"]);
    MergeIsUnique(ids, ["warning-event"], [], ["warning-event"]);
  }
}
