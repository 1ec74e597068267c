/**
 The deterministic rule engine (internal/rules) and the ordering step of the normalizer that
 feeds it. Evaluate is split in two: Examine looks at the snapshot and the clock only, Judge
 turns what it found into a Result and is the only part that sees the previous incident.
 */
module Rules {
  import opened Domain
  import opened Order

  const POLICY_VERSION := "deterministic-triage-v1"
  const OPERATIONAL_TRIAGE := "operational-triage-v1"

  datatype Disposition = Terminal | Semantic | Suppressing | Unmatched

  datatype Match = Match(ruleId: string, reason: string, severity: Severity)

  datatype Result = Result(matches: seq<Match>, disposition: Disposition, decision: Option<Decision>,
                           questionSet: string, policyVersion: string)

  datatype Options = Options(restartThreshold: int, criticalThreshold: int, minimumAge: int,
                             eventQuietPeriod: int, ignoredNamespaces: seq<string>, ignoredLabels: seq<string>)

  // What the rules see in a snapshot, before the previous incident is consulted.
  datatype Finding = Ignored(reason: string) | Matched(matches: seq<Match>)

  /** Text helpers */

  function LowerChar(c: char): char {
    if 'A' <= c <= 'Z' then (c as int + 32) as char else c
  }

  function Lower(s: string): string {
    seq(|s|, i requires 0 <= i < |s| => LowerChar(s[i]))
  }

  predicate EqualFold(a: string, b: string) { Lower(a) == Lower(b) }

  // The part of a selector before its first '='.
  function CutKey(s: string): string {
    if s == "" || s[0] == '=' then "" else [s[0]] + CutKey(s[1..])
  }

  predicate LabelIgnored(labels: map<string, string>, selector: string) {
    var key := CutKey(selector);
    && key in labels
    && ('=' in selector ==> |key| < |selector| && labels[key] == selector[|key| + 1..])
  }

  function IgnoredNamespace(ns: string, names: seq<string>): Option<string> {
    if names == [] then None
    else if names[0] == ns then Some("ignored namespace " + ns)
    else IgnoredNamespace(ns, names[1..])
  }

  function IgnoredLabel(labels: map<string, string>, selectors: seq<string>): Option<string> {
    if selectors == [] then None
    else if LabelIgnored(labels, selectors[0]) then Some("ignored label " + selectors[0])
    else IgnoredLabel(labels, selectors[1..])
  }

  // The options hold both lists sorted, as NewEngine leaves them.
  function IgnoredReason(o: Options, s: Snapshot): Option<string> {
    var byNamespace := IgnoredNamespace(s.source.ns, o.ignoredNamespaces);
    if byNamespace.Some? then byNamespace else IgnoredLabel(s.labels, o.ignoredLabels)
  }

  /** Rules */

  // At most one match, under the rule's own ID, and never mere information.
  predicate Only(ms: seq<Match>, id: string) {
    |ms| <= 1 && forall m :: m in ms ==> m.ruleId == id && (m.severity == Warning || m.severity == Critical)
  }

  function ConditionTransition(cs: seq<Condition>, kind: string, status: string, reason: string): Option<Time> {
    if cs == [] then None
    else if cs[0].kind == kind && cs[0].status == status && (reason == "" || cs[0].reason == reason)
            && cs[0].lastTransition.Some?
    then cs[0].lastTransition
    else ConditionTransition(cs[1..], kind, status, reason)
  }

  predicate Aged(o: Options, now: Time, since: Option<Time>) {
    since.Some? && now - since.value >= o.minimumAge
  }

  predicate CrashLooping(o: Options, c: Container) {
    c.state == "waiting" && c.reason == "CrashLoopBackOff" && c.restartCount >= o.restartThreshold
  }

  function CrashLoopSeverity(o: Options, cs: seq<Container>): Severity {
    if exists c :: c in cs && CrashLooping(o, c) && c.restartCount >= o.criticalThreshold then Critical
    else if exists c :: c in cs && CrashLooping(o, c) then Warning
    else NoSeverity
  }

  function PodCrashLoop(o: Options, now: Time, s: Snapshot): (ms: seq<Match>)
    ensures Only(ms, "pod-crash-loop")
  {
    if !EqualFold(s.source.kind, "Pod") || !Aged(o, now, ConditionTransition(s.conditions, "Ready", "False", ""))
       || CrashLoopSeverity(o, s.containers) == NoSeverity then []
    else [Match("pod-crash-loop", "one or more containers are crash looping", CrashLoopSeverity(o, s.containers))]
  }

  function PodUnschedulable(o: Options, now: Time, s: Snapshot): (ms: seq<Match>)
    ensures Only(ms, "pod-unschedulable")
  {
    if !EqualFold(s.source.kind, "Pod")
       || !Aged(o, now, ConditionTransition(s.conditions, "PodScheduled", "False", "Unschedulable")) then []
    else [Match("pod-unschedulable", "pod has remained unschedulable", Warning)]
  }

  predicate PullFailing(c: Container) {
    c.state == "waiting" && (c.reason == "ErrImagePull" || c.reason == "ImagePullBackOff")
  }

  function ImagePullFailure(o: Options, now: Time, s: Snapshot): (ms: seq<Match>)
    ensures Only(ms, "image-pull-failure")
  {
    if EqualFold(s.source.kind, "Pod") && Aged(o, now, ConditionTransition(s.conditions, "Ready", "False", ""))
       && exists c :: c in s.containers && PullFailing(c)
    then [Match("image-pull-failure", "one or more containers cannot pull their image", Warning)]
    else []
  }

  function FailedJob(s: Snapshot): (ms: seq<Match>)
    ensures Only(ms, "job-failed")
  {
    if !EqualFold(s.source.kind, "Job") || s.job.None? then []
    else
      var failedCondition := exists c :: c in s.conditions && c.kind == "Failed" && c.status == "True";
      var threshold := if s.job.value.backoffLimit < 1 then 1 else s.job.value.backoffLimit;
      if !failedCondition && s.job.value.failed < threshold then []
      else [Match("job-failed", "job has failed", Critical)]
  }

  predicate IsWorkloadKind(kind: string) {
    Lower(kind) == "deployment" || Lower(kind) == "statefulset" || Lower(kind) == "daemonset"
  }

  function UnavailableTransition(cs: seq<Condition>): Option<Time> {
    if cs == [] then None
    else if cs[0].status == "False" && cs[0].lastTransition.Some?
            && (cs[0].kind == "Available" || cs[0].kind == "Ready" || cs[0].kind == "Progressing")
    then cs[0].lastTransition
    else UnavailableTransition(cs[1..])
  }

  function WorkloadUnavailable(o: Options, now: Time, s: Snapshot): (ms: seq<Match>)
    ensures Only(ms, "workload-unavailable")
  {
    if s.workload.None? || !IsWorkloadKind(s.source.kind) then []
    else
      var w := s.workload.value;
      if w.desired <= 0 || w.available >= w.desired || w.unavailable <= 0 then []
      else if !Aged(o, now, UnavailableTransition(s.conditions)) then []
      else [Match("workload-unavailable", "workload has unavailable replicas",
                  if w.available == 0 then Critical else Warning)]
  }

  predicate SemanticReason(reason: string) {
    reason in {"FailedAttachVolume", "FailedCreate", "FailedDelete", "FailedMount", "FailedUpdate", "Unhealthy"}
  }

  predicate EventIsQuiet(o: Options, now: Time, s: Snapshot) {
    && s.event.Some? && o.eventQuietPeriod > 0 && s.event.value.lastObserved.Some?
    && now >= s.event.value.lastObserved.value + o.eventQuietPeriod
  }

  function WarningEvent(o: Options, now: Time, s: Snapshot): (ms: seq<Match>)
    ensures Only(ms, "warning-event")
  {
    if !EqualFold(s.source.kind, "Event") || s.event.None? || !EqualFold(s.event.value.kind, "Warning")
       || EventIsQuiet(o, now, s) || !SemanticReason(s.event.value.reason) then []
    else [Match("warning-event", "selected Warning Event requires semantic triage", Warning)]
  }

  /** Evaluation */

  predicate MatchLess(a: Match, b: Match) { StringLess(a.ruleId, b.ruleId) }

  // Each rule that measures an age reads the clock for itself.
  datatype Readings = Readings(crashLoop: Time, unschedulable: Time, imagePull: Time, workload: Time, event: Time)

  function AllMatches(o: Options, at: Readings, s: Snapshot): seq<Match> {
    PodCrashLoop(o, at.crashLoop, s) + PodUnschedulable(o, at.unschedulable, s)
    + ImagePullFailure(o, at.imagePull, s) + FailedJob(s) + WorkloadUnavailable(o, at.workload, s)
    + WarningEvent(o, at.event, s)
  }

  function Examine(o: Options, at: Readings, s: Snapshot): Finding {
    var ignored := IgnoredReason(o, s);
    if ignored.Some? then Ignored(ignored.value) else Matched(Sort(AllMatches(o, at, s), MatchLess))
  }

  function HighestSeverity(ms: seq<Match>): Match
    requires ms != []
  {
    if |ms| == 1 then ms[0]
    else
      var winning := HighestSeverity(ms[..|ms| - 1]);
      if SeverityRank(ms[|ms| - 1].severity) > SeverityRank(winning.severity) then ms[|ms| - 1] else winning
  }

  function RuleIds(ms: seq<Match>): seq<string> {
    seq(|ms|, i requires 0 <= i < |ms| => ms[i].ruleId)
  }

  function DecisionFor(ms: seq<Match>): Decision
    requires ms != []
  {
    var winning := HighestSeverity(ms);
    Decision(winning.severity, if winning.severity == Critical then Page else Notify, winning.reason,
             RuleIds(ms), RuleIds(ms))
  }

  const RECOVERED := Match("recovered", "previously open incident no longer matches", Info)

  function Judge(f: Finding, previous: Option<Incident>): Result {
    match f
    case Ignored(reason) =>
      Result([Match("ignored", reason, Info)], Suppressing,
             Some(Decision(Info, Suppress, reason, ["ignored"], ["ignored"])), "", POLICY_VERSION)
    case Matched(ms) =>
      if ms == [] then
        if previous.Some? && previous.value.status == Open then
          Result([RECOVERED], Terminal,
                 Some(Decision(Info, Record, RECOVERED.reason, ["recovered"], ["recovered"])), "", POLICY_VERSION)
        else Result([], Unmatched, None, "", POLICY_VERSION)
      else if |ms| == 1 && ms[0].ruleId == "warning-event" then
        Result(ms, Semantic, None, OPERATIONAL_TRIAGE, POLICY_VERSION)
      else Result(ms, Terminal, Some(DecisionFor(ms)), "", POLICY_VERSION)
  }

  function Evaluate(o: Options, at: Readings, s: Snapshot, previous: Option<Incident>): Result {
    Judge(Examine(o, at, s), previous)
  }

  predicate IsRecovery(r: Result) {
    exists m :: m in r.matches && (m.ruleId == "recovered" || m.ruleId == "resource-deleted")
  }

  // No rule reports one of the two IDs that mean "resolved".
  predicate Genuine(f: Finding) {
    f.Matched? ==> forall m :: m in f.matches ==> m.ruleId != "recovered" && m.ruleId != "resource-deleted"
  }

  // A Result resolves the incident exactly when nothing matches any more and it was open.
  lemma RecoveryExactly(f: Finding, previous: Option<Incident>)
    requires Genuine(f)
    ensures IsRecovery(Judge(f, previous))
       <==> f == Matched([]) && previous.Some? && previous.value.status == Open
    ensures Judge(f, previous).disposition == Unmatched
       <==> f == Matched([]) && !(previous.Some? && previous.value.status == Open)
  {
    if f == Matched([]) && previous.Some? && previous.value.status == Open {
      assert RECOVERED in Judge(f, previous).matches;
    }
  }

  /** Properties of the engine */

  ghost predicate Increasing(ms: seq<Match>) {
    forall i, j :: 0 <= i < j < |ms| ==> StringLess(ms[i].ruleId, ms[j].ruleId)
  }

  lemma {:induction false} InsertIncreases(m: Match, ms: seq<Match>)
    requires Increasing(ms) && forall x :: x in ms ==> x.ruleId != m.ruleId
    ensures Increasing(Insert(m, ms, MatchLess))
    ensures forall x :: x in Insert(m, ms, MatchLess) ==> x == m || x in ms
  {
    StringsAreOrdered();
    if ms == [] {
    } else if MatchLess(ms[0], m) {
      InsertIncreases(m, ms[1..]);
      var rest := Insert(m, ms[1..], MatchLess);
      assert forall i :: 0 <= i < |rest| ==> rest[i] in rest;
      assert Insert(m, ms, MatchLess) == [ms[0]] + rest;
    } else {
      assert MatchLess(m, ms[0]);
    }
  }

  ghost predicate DistinctIds(ms: seq<Match>) {
    forall i, j :: 0 <= i < j < |ms| ==> ms[i].ruleId != ms[j].ruleId
  }

  lemma {:induction false} SortIncreases(ms: seq<Match>)
    requires DistinctIds(ms)
    ensures Increasing(Sort(ms, MatchLess))
    ensures forall x :: x in Sort(ms, MatchLess) ==> x in ms
  {
    if ms != [] {
      assert DistinctIds(ms[1..]);
      SortIncreases(ms[1..]);
      forall x | x in Sort(ms[1..], MatchLess) ensures x.ruleId != ms[0].ruleId {
        var i :| 0 <= i < |ms[1..]| && ms[1..][i] == x;
        assert ms[i + 1] == x;
      }
      InsertIncreases(ms[0], Sort(ms[1..], MatchLess));
    }
  }

  lemma AppendRule(ms: seq<Match>, rule: seq<Match>, id: string)
    requires DistinctIds(ms) && Only(rule, id) && forall m :: m in ms ==> m.ruleId != id
    ensures DistinctIds(ms + rule)
  {
    var all := ms + rule;
    assert forall i :: 0 <= i < |ms| ==> all[i] == ms[i] && ms[i] in ms;
    assert forall i :: |ms| <= i < |all| ==> all[i] == rule[i - |ms|] && all[i] in rule;
  }

  lemma RulesAreDistinct(a: seq<Match>, b: seq<Match>, c: seq<Match>, d: seq<Match>, e: seq<Match>, f: seq<Match>)
    requires Only(a, "pod-crash-loop") && Only(b, "pod-unschedulable") && Only(c, "image-pull-failure")
    requires Only(d, "job-failed") && Only(e, "workload-unavailable") && Only(f, "warning-event")
    ensures DistinctIds(a + b + c + d + e + f) && Genuine(Matched(a + b + c + d + e + f))
  {
    AppendRule(a, b, "pod-unschedulable");
    AppendRule(a + b, c, "image-pull-failure");
    AppendRule(a + b + c, d, "job-failed");
    AppendRule(a + b + c + d, e, "workload-unavailable");
    AppendRule(a + b + c + d + e, f, "warning-event");
  }

  lemma ExamineIsGenuine(o: Options, at: Readings, s: Snapshot)
    ensures Genuine(Examine(o, at, s))
    ensures Examine(o, at, s).Matched? ==> Increasing(Examine(o, at, s).matches)
  {
    RulesAreDistinct(PodCrashLoop(o, at.crashLoop, s), PodUnschedulable(o, at.unschedulable, s),
                     ImagePullFailure(o, at.imagePull, s), FailedJob(s), WorkloadUnavailable(o, at.workload, s),
                     WarningEvent(o, at.event, s));
    SortIncreases(AllMatches(o, at, s));
  }

  predicate FirstHighest(ms: seq<Match>, k: int) {
    && 0 <= k < |ms|
    && (forall i :: 0 <= i < |ms| ==> SeverityRank(ms[i].severity) <= SeverityRank(ms[k].severity))
    && (forall i :: 0 <= i < k ==> SeverityRank(ms[i].severity) < SeverityRank(ms[k].severity))
  }

  // HighestSeverity returns the first of the most severe matches.
  lemma {:induction false} HighestIsMaximal(ms: seq<Match>)
    requires ms != []
    ensures exists k :: FirstHighest(ms, k) && HighestSeverity(ms) == ms[k]
  {
    var n := |ms| - 1;
    if n == 0 {
      assert FirstHighest(ms, 0);
    } else {
      HighestIsMaximal(ms[..n]);
      var k :| FirstHighest(ms[..n], k) && HighestSeverity(ms[..n]) == ms[..n][k];
      assert forall i :: 0 <= i < n ==> ms[..n][i] == ms[i];
      assert FirstHighest(ms, if SeverityRank(ms[n].severity) > SeverityRank(ms[k].severity) then n else k);
    }
  }

  lemma DecisionIsMaximal(ms: seq<Match>)
    requires ms != []
    ensures
      var d := DecisionFor(ms);
      && (forall m :: m in ms ==> SeverityRank(m.severity) <= SeverityRank(d.severity))
      && (exists m :: m in ms && m.severity == d.severity && m.reason == d.summary)
      && (d.action == Page <==> exists m :: m in ms && m.severity == Critical)
  {
    HighestIsMaximal(ms);
    var k :| FirstHighest(ms, k) && HighestSeverity(ms) == ms[k];
    assert ms[k] in ms;
    if m :| m in ms && m.severity == Critical {
      assert SeverityRank(ms[k].severity) == 3;
    }
  }

  // A terminal decision made from rule matches: severity is the maximum, it pages exactly
  // when some match is critical, and it lists the matched rules in strictly increasing order.
  lemma TerminalDecision(o: Options, at: Readings, s: Snapshot, previous: Option<Incident>)
    requires Evaluate(o, at, s, previous).disposition == Terminal
    requires !IsRecovery(Evaluate(o, at, s, previous))
    ensures
      var r := Evaluate(o, at, s, previous);
      && r.decision.Some?
      && (forall m :: m in r.matches ==> SeverityRank(m.severity) <= SeverityRank(r.decision.value.severity))
      && (exists m :: m in r.matches && m.severity == r.decision.value.severity
                      && m.reason == r.decision.value.summary)
      && (r.decision.value.action == Page <==> exists m :: m in r.matches && m.severity == Critical)
      && r.decision.value.action in {Page, Notify}
      && r.decision.value.ruleIds == RuleIds(r.matches) == r.decision.value.reasonCodes
      && Increasing(r.matches)
  {
    ExamineIsGenuine(o, at, s);
    RecoveryExactly(Examine(o, at, s), previous);
    DecisionIsMaximal(Evaluate(o, at, s, previous).matches);
  }

  /** Independence from listing order */

  function ConditionKey(c: Condition): seq<string> { [c.kind, c.status, c.reason] }

  predicate ConditionLess(a: Condition, b: Condition) { KeysLess(ConditionKey(a), ConditionKey(b)) }

  function ContainerName(c: Container): seq<string> { [c.name] }

  predicate ContainerLess(a: Container, b: Container) { KeysLess(ContainerName(a), ContainerName(b)) }

  // n is some outcome of sorting s: sort.Slice does not say which among equals.
  ghost predicate Normalizes(s: Snapshot, n: Snapshot) {
    && n == s.(conditions := n.conditions, containers := n.containers)
    && multiset(n.conditions) == multiset(s.conditions) && Sorted(n.conditions, ConditionLess)
    && multiset(n.containers) == multiset(s.containers) && Sorted(n.containers, ContainerLess)
  }

  ghost predicate DistinctKinds(cs: seq<Condition>) {
    forall i, j :: 0 <= i < j < |cs| ==> cs[i].kind != cs[j].kind
  }

  ghost predicate SameUpToListing(s: Snapshot, t: Snapshot) {
    && t == s.(conditions := t.conditions, containers := t.containers)
    && multiset(t.conditions) == multiset(s.conditions)
    && multiset(t.containers) == multiset(s.containers)
  }

  lemma DistinctKindsSeparate(cs: seq<Condition>)
    requires DistinctKinds(cs)
    ensures Separates(multiset(cs), ConditionLess)
  {
    KeysAreOrdered();
    forall x, y | x in multiset(cs) && y in multiset(cs) && x != y
      ensures ConditionLess(x, y) || ConditionLess(y, x)
    {
      var i :| 0 <= i < |cs| && cs[i] == x;
      var j :| 0 <= j < |cs| && cs[j] == y;
      assert ConditionKey(x)[0] != ConditionKey(y)[0];
    }
  }

  // However the API server lists the conditions (one per type) and the containers, and
  // however the sort breaks ties, the same Result comes out.
  lemma OrderFree(o: Options, at: Readings, s: Snapshot, t: Snapshot, n: Snapshot, m: Snapshot,
                  previous: Option<Incident>)
    requires SameUpToListing(s, t) && DistinctKinds(s.conditions)
    requires Normalizes(s, n) && Normalizes(t, m)
    ensures Evaluate(o, at, n, previous) == Evaluate(o, at, m, previous)
  {
    DistinctKindsSeparate(s.conditions);
    SortedUnique(n.conditions, m.conditions, ConditionLess);
    SameMembers(n.containers, m.containers);
    ContainersOrderFree(o, at, n, m);
  }

  lemma SameMembers<T>(a: seq<T>, b: seq<T>)
    requires multiset(a) == multiset(b)
    ensures forall x :: x in a <==> x in b
  {
    forall x ensures x in a <==> x in b {
      assert x in a <==> x in multiset(a);
      assert x in b <==> x in multiset(b);
    }
  }

  lemma ContainerRulesOrderFree(o: Options, at: Readings, n: Snapshot, m: Snapshot)
    requires m == n.(containers := m.containers)
    requires forall c :: c in n.containers <==> c in m.containers
    ensures PodCrashLoop(o, at.crashLoop, n) == PodCrashLoop(o, at.crashLoop, m)
    ensures ImagePullFailure(o, at.imagePull, n) == ImagePullFailure(o, at.imagePull, m)
  {
    assert CrashLoopSeverity(o, n.containers) == CrashLoopSeverity(o, m.containers);
  }

  lemma OtherRulesOrderFree(o: Options, at: Readings, n: Snapshot, m: Snapshot)
    requires m == n.(containers := m.containers)
    ensures PodUnschedulable(o, at.unschedulable, n) == PodUnschedulable(o, at.unschedulable, m)
    ensures FailedJob(n) == FailedJob(m)
    ensures WorkloadUnavailable(o, at.workload, n) == WorkloadUnavailable(o, at.workload, m)
    ensures WarningEvent(o, at.event, n) == WarningEvent(o, at.event, m)
  {
  }

  lemma ContainersOrderFree(o: Options, at: Readings, n: Snapshot, m: Snapshot)
    requires m == n.(containers := m.containers)
    requires forall c :: c in n.containers <==> c in m.containers
    ensures Examine(o, at, n) == Examine(o, at, m)
  {
    assert AllMatches(o, at, n) == AllMatches(o, at, m) by {
      ContainerRulesOrderFree(o, at, n, m);
      OtherRulesOrderFree(o, at, n, m);
    }
    assert IgnoredReason(o, n) == IgnoredReason(o, m);
  }
}
