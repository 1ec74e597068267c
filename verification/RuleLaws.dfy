/**
 What the rules report, said of the snapshot's fields and the result of Evaluate only: when each
 rule is among the matches and how severe it is, what is ignored, and that a worse observation
 never gets a milder decision.
 */
module RuleLaws {
  import opened Domain
  import opened Order
  import opened Rules

  /** Text */

  // Equal up to the case of ASCII letters.
  ghost predicate SameLetters(a: string, b: string) {
    |a| == |b| && forall i :: 0 <= i < |a| ==> SameLetter(a[i], b[i])
  }

  predicate SameLetter(c: char, d: char) {
    || c == d
    || ('A' <= c <= 'Z' && d as int == c as int + 32)
    || ('A' <= d <= 'Z' && c as int == d as int + 32)
  }

  lemma FoldIff(a: string, b: string)
    ensures EqualFold(a, b) <==> SameLetters(a, b)
  {
    assert |Lower(a)| == |a| && |Lower(b)| == |b|;
    if |a| == |b| {
      assert forall i :: 0 <= i < |a| ==> (Lower(a)[i] == Lower(b)[i] <==> SameLetter(a[i], b[i]));
    }
  }

  lemma LowerCase(s: string)
    requires forall i :: 0 <= i < |s| ==> !('A' <= s[i] <= 'Z')
    ensures Lower(s) == s
  {
  }

  lemma WorkloadKindIff(kind: string)
    ensures IsWorkloadKind(kind)
       <==> SameLetters(kind, "deployment") || SameLetters(kind, "statefulset") || SameLetters(kind, "daemonset")
  {
    LowerCase("deployment");
    LowerCase("statefulset");
    LowerCase("daemonset");
    FoldIff(kind, "deployment");
    FoldIff(kind, "statefulset");
    FoldIff(kind, "daemonset");
  }

  /** Ages */

  predicate Stamped(says: Condition -> bool, c: Condition) { says(c) && c.lastTransition.Some? }

  predicate IsFirst(cs: seq<Condition>, says: Condition -> bool, i: int) {
    0 <= i < |cs| && Stamped(says, cs[i]) && forall j :: 0 <= j < i ==> !Stamped(says, cs[j])
  }

  // The first condition that says so and has a transition time has had it for at least the age.
  ghost predicate AgedSince(cs: seq<Condition>, says: Condition -> bool, now: Time, age: int) {
    exists i :: IsFirst(cs, says, i) && now - cs[i].lastTransition.value >= age
  }

  lemma AgedHead(cs: seq<Condition>, says: Condition -> bool, now: Time, age: int)
    requires cs != []
    ensures AgedSince(cs, says, now, age)
       <==> if Stamped(says, cs[0]) then now - cs[0].lastTransition.value >= age else AgedSince(cs[1..], says, now, age)
  {
    if Stamped(says, cs[0]) {
      assert IsFirst(cs, says, 0);
      assert forall i :: IsFirst(cs, says, i) ==> i == 0;
    } else {
      if i :| IsFirst(cs, says, i) && now - cs[i].lastTransition.value >= age {
        assert forall j :: 0 <= j < i - 1 ==> cs[1..][j] == cs[j + 1];
        assert IsFirst(cs[1..], says, i - 1);
      }
      if i :| IsFirst(cs[1..], says, i) && now - cs[1..][i].lastTransition.value >= age {
        forall j | 0 <= j < i + 1 ensures !Stamped(says, cs[j]) {
          if j > 0 { assert cs[1..][j - 1] == cs[j]; }
        }
        assert IsFirst(cs, says, i + 1);
      }
    }
  }

  lemma {:induction false} TransitionAged(o: Options, now: Time, cs: seq<Condition>, kind: string, status: string,
                                          reason: string)
    ensures var says := (c: Condition) => c.kind == kind && c.status == status && (reason == "" || c.reason == reason);
            Aged(o, now, ConditionTransition(cs, kind, status, reason)) <==> AgedSince(cs, says, now, o.minimumAge)
  {
    var says := (c: Condition) => c.kind == kind && c.status == status && (reason == "" || c.reason == reason);
    if cs != [] {
      AgedHead(cs, says, now, o.minimumAge);
      TransitionAged(o, now, cs[1..], kind, status, reason);
    }
  }

  predicate SaysUnavailable(c: Condition) {
    c.status == "False" && (c.kind == "Available" || c.kind == "Ready" || c.kind == "Progressing")
  }

  lemma {:induction false} UnavailableAged(o: Options, now: Time, cs: seq<Condition>)
    ensures Aged(o, now, UnavailableTransition(cs)) <==> AgedSince(cs, SaysUnavailable, now, o.minimumAge)
  {
    if cs != [] {
      AgedHead(cs, SaysUnavailable, now, o.minimumAge);
      UnavailableAged(o, now, cs[1..]);
    }
  }

  predicate SaysNotReady(c: Condition) { c.kind == "Ready" && c.status == "False" }

  predicate SaysUnschedulable(c: Condition) {
    c.kind == "PodScheduled" && c.status == "False" && c.reason == "Unschedulable"
  }

  lemma AgedOnlyBySaying(cs: seq<Condition>, says: Condition -> bool, means: Condition -> bool, now: Time, age: int)
    requires forall c :: says(c) == means(c)
    ensures AgedSince(cs, says, now, age) <==> AgedSince(cs, means, now, age)
  {
    if i :| IsFirst(cs, says, i) && now - cs[i].lastTransition.value >= age { assert IsFirst(cs, means, i); }
    if i :| IsFirst(cs, means, i) && now - cs[i].lastTransition.value >= age { assert IsFirst(cs, says, i); }
  }

  lemma NotReadyAged(o: Options, now: Time, cs: seq<Condition>)
    ensures Aged(o, now, ConditionTransition(cs, "Ready", "False", ""))
       <==> AgedSince(cs, SaysNotReady, now, o.minimumAge)
  {
    TransitionAged(o, now, cs, "Ready", "False", "");
    AgedOnlyBySaying(cs, (c: Condition) => c.kind == "Ready" && c.status == "False" && ("" == "" || c.reason == ""),
                     SaysNotReady, now, o.minimumAge);
  }

  lemma UnschedulableAged(o: Options, now: Time, cs: seq<Condition>)
    ensures Aged(o, now, ConditionTransition(cs, "PodScheduled", "False", "Unschedulable"))
       <==> AgedSince(cs, SaysUnschedulable, now, o.minimumAge)
  {
    TransitionAged(o, now, cs, "PodScheduled", "False", "Unschedulable");
    AgedOnlyBySaying(cs, (c: Condition) => c.kind == "PodScheduled" && c.status == "False"
                                           && ("Unschedulable" == "" || c.reason == "Unschedulable"),
                     SaysUnschedulable, now, o.minimumAge);
  }

  /** What is ignored */

  // A selector is a label key, or a key and its value joined by the first '='.
  ghost predicate Selects(labels: map<string, string>, selector: string) {
    || ('=' !in selector && selector in labels)
    || exists key :: key in labels && '=' !in key && selector == key + "=" + labels[key]
  }

  ghost predicate Ignores(o: Options, s: Snapshot) {
    || s.source.ns in o.ignoredNamespaces
    || exists i :: 0 <= i < |o.ignoredLabels| && Selects(s.labels, o.ignoredLabels[i])
  }

  lemma {:induction false} CutAt(selector: string, key: string, rest: string)
    requires '=' !in key && selector == key + "=" + rest
    ensures CutKey(selector) == key
  {
    if key != "" {
      assert selector[0] == key[0] && key[0] in key;
      assert selector[1..] == key[1..] + "=" + rest;
      CutAt(selector[1..], key[1..], rest);
    }
  }

  lemma {:induction false} CutIs(selector: string)
    ensures var key := CutKey(selector);
            '=' !in key && |key| <= |selector| && selector[..|key|] == key
            && (|key| < |selector| ==> selector[|key|] == '=') && (|key| == |selector| <==> '=' !in selector)
  {
    if selector != "" && selector[0] != '=' {
      CutIs(selector[1..]);
      assert selector == [selector[0]] + selector[1..];
    }
  }

  lemma SelectsIff(labels: map<string, string>, selector: string)
    ensures LabelIgnored(labels, selector) <==> Selects(labels, selector)
  {
    CutIs(selector);
    var key := CutKey(selector);
    assert selector[..|selector|] == selector;
    if LabelIgnored(labels, selector) && '=' in selector {
      assert selector == key + "=" + selector[|key| + 1..];
    }
    if k :| k in labels && '=' !in k && selector == k + "=" + labels[k] {
      CutAt(selector, k, labels[k]);
      assert selector[|k|] == '=';
      assert selector[|k| + 1..] == labels[k];
    }
  }

  lemma {:induction false} NamespaceIff(ns: string, names: seq<string>)
    ensures IgnoredNamespace(ns, names) == if ns in names then Some("ignored namespace " + ns) else None
  {
    if names != [] { NamespaceIff(ns, names[1..]); }
  }

  ghost predicate FirstSelected(labels: map<string, string>, selectors: seq<string>, i: int) {
    0 <= i < |selectors| && Selects(labels, selectors[i]) && forall j :: 0 <= j < i ==> !Selects(labels, selectors[j])
  }

  // The reason names the first selector that selects.
  ghost predicate NamesSelector(labels: map<string, string>, selectors: seq<string>, reason: string) {
    exists i :: FirstSelected(labels, selectors, i) && reason == "ignored label " + selectors[i]
  }

  lemma {:induction false} LabelsIff(labels: map<string, string>, selectors: seq<string>)
    ensures IgnoredLabel(labels, selectors).Some? <==>
            exists i :: 0 <= i < |selectors| && Selects(labels, selectors[i])
    ensures IgnoredLabel(labels, selectors).Some? ==>
            NamesSelector(labels, selectors, IgnoredLabel(labels, selectors).value)
  {
    if selectors != [] {
      SelectsIff(labels, selectors[0]);
      LabelsIff(labels, selectors[1..]);
      if LabelIgnored(labels, selectors[0]) { assert FirstSelected(labels, selectors, 0); }
      if i :| FirstSelected(labels, selectors[1..], i) && !LabelIgnored(labels, selectors[0]) {
        assert FirstSelected(labels, selectors, i + 1);
      }
      if i :| 0 <= i < |selectors[1..]| && Selects(labels, selectors[1..][i]) {
        assert Selects(labels, selectors[i + 1]);
      }
      if i :| 0 < i < |selectors| && Selects(labels, selectors[i]) { assert Selects(labels, selectors[1..][i - 1]); }
    }
  }

  ghost predicate SaysWhyIgnored(o: Options, s: Snapshot, reason: string) {
    if s.source.ns in o.ignoredNamespaces then reason == "ignored namespace " + s.source.ns
    else NamesSelector(s.labels, o.ignoredLabels, reason)
  }

  lemma IgnoredIff(o: Options, s: Snapshot)
    ensures IgnoredReason(o, s).Some? <==> Ignores(o, s)
    ensures IgnoredReason(o, s).Some? ==> SaysWhyIgnored(o, s, IgnoredReason(o, s).value)
  {
    NamespaceIff(s.source.ns, o.ignoredNamespaces);
    LabelsIff(s.labels, o.ignoredLabels);
  }

  // An ignored namespace or label always suppresses, and nothing else does.
  lemma SuppressesIff(o: Options, at: Readings, s: Snapshot, previous: Option<Incident>)
    ensures var r := Evaluate(o, at, s, previous);
            && (r.disposition == Suppressing <==> Ignores(o, s))
            && (r.decision.Some? && r.decision.value.action == Suppress <==> Ignores(o, s))
            && (Ignores(o, s) ==>
                  && r.decision.Some? && r.decision.value.severity == Info
                  && SaysWhyIgnored(o, s, r.decision.value.summary)
                  && r.decision.value.reasonCodes == r.decision.value.ruleIds == ["ignored"])
  {
    IgnoredIff(o, s);
    if !Ignores(o, s) && Examine(o, at, s).matches != [] {
      assert DecisionFor(Examine(o, at, s).matches).action in {Page, Notify};
    }
  }

  // An open incident recovers exactly when nothing is ignored and nothing is reported any more.
  lemma RecoversIff(o: Options, at: Readings, s: Snapshot, previous: Option<Incident>)
    ensures var r := Evaluate(o, at, s, previous);
            && (IsRecovery(r) <==>
                  !Ignores(o, s) && AllMatches(o, at, s) == [] && previous.Some? && previous.value.status == Open)
            && (IsRecovery(r) ==>
                  && r.matches == [Match("recovered", "previously open incident no longer matches", Info)]
                  && r.decision == Some(Decision(Info, Record, "previously open incident no longer matches",
                                                 ["recovered"], ["recovered"])))
  {
    IgnoredIff(o, s);
    ExamineIsGenuine(o, at, s);
    RecoveryExactly(Examine(o, at, s), previous);
    SortMembers(AllMatches(o, at, s));
    var ms := AllMatches(o, at, s);
    if ms != [] { assert ms[0] in Sort(ms, MatchLess); }
  }

  /** What each rule reports */

  // The result reports the rule exactly under the condition, and then once, as said.
  ghost predicate Reports(r: Result, id: string, condition: bool, reason: string, severity: Severity) {
    && (condition <==> exists m :: m in r.matches && m.ruleId == id)
    && forall m :: m in r.matches && m.ruleId == id ==> m.reason == reason && m.severity == severity
  }

  lemma InMatches(o: Options, at: Readings, s: Snapshot, previous: Option<Incident>, m: Match)
    requires !Ignores(o, s) && m.ruleId != "recovered"
    ensures m in Evaluate(o, at, s, previous).matches <==> m in AllMatches(o, at, s)
  {
    IgnoredIff(o, s);
    SortMembers(AllMatches(o, at, s));
    JudgeMatches(Examine(o, at, s), previous, m);
  }

  lemma SortMembers(ms: seq<Match>)
    ensures forall m :: m in Sort(ms, MatchLess) <==> m in ms
  {
    StringsAreOrdered();
    SortSorts(ms, MatchLess);
    SameMembers(Sort(ms, MatchLess), ms);
  }

  lemma JudgeMatches(f: Finding, previous: Option<Incident>, m: Match)
    requires f.Matched? && m.ruleId != "recovered"
    ensures m in Judge(f, previous).matches <==> m in f.matches
  {
  }

  // The part of the matches that carries the rule's ID is what the rule returned.
  ghost predicate Part(r: Result, id: string, rule: seq<Match>) {
    forall m: Match :: m.ruleId == id ==> (m in r.matches <==> m in rule)
  }

  lemma Parts(o: Options, at: Readings, s: Snapshot, previous: Option<Incident>)
    requires !Ignores(o, s)
    ensures var r := Evaluate(o, at, s, previous);
            && Part(r, "pod-crash-loop", PodCrashLoop(o, at.crashLoop, s))
            && Part(r, "pod-unschedulable", PodUnschedulable(o, at.unschedulable, s))
            && Part(r, "image-pull-failure", ImagePullFailure(o, at.imagePull, s))
            && Part(r, "job-failed", FailedJob(s))
            && Part(r, "workload-unavailable", WorkloadUnavailable(o, at.workload, s))
            && Part(r, "warning-event", WarningEvent(o, at.event, s))
  {
    forall m: Match | m.ruleId != "recovered"
      ensures m in Evaluate(o, at, s, previous).matches <==> m in AllMatches(o, at, s)
    {
      InMatches(o, at, s, previous, m);
    }
    SixParts(PodCrashLoop(o, at.crashLoop, s), PodUnschedulable(o, at.unschedulable, s),
             ImagePullFailure(o, at.imagePull, s), FailedJob(s), WorkloadUnavailable(o, at.workload, s),
             WarningEvent(o, at.event, s));
  }

  lemma SixParts(a: seq<Match>, b: seq<Match>, c: seq<Match>, d: seq<Match>, e: seq<Match>, f: seq<Match>)
    requires Only(a, "pod-crash-loop") && Only(b, "pod-unschedulable") && Only(c, "image-pull-failure")
    requires Only(d, "job-failed") && Only(e, "workload-unavailable") && Only(f, "warning-event")
    ensures forall m :: m in a + b + c + d + e + f <==> m in a || m in b || m in c || m in d || m in e || m in f
    ensures forall m :: m in a + b + c + d + e + f ==> m.severity == Warning || m.severity == Critical
    ensures forall m :: m in a + b + c + d + e + f && m.ruleId == "pod-crash-loop" ==> m in a
    ensures forall m :: m in a + b + c + d + e + f && m.ruleId == "pod-unschedulable" ==> m in b
    ensures forall m :: m in a + b + c + d + e + f && m.ruleId == "image-pull-failure" ==> m in c
    ensures forall m :: m in a + b + c + d + e + f && m.ruleId == "job-failed" ==> m in d
    ensures forall m :: m in a + b + c + d + e + f && m.ruleId == "workload-unavailable" ==> m in e
    ensures forall m :: m in a + b + c + d + e + f && m.ruleId == "warning-event" ==> m in f
  {
  }

  lemma FromPart(r: Result, id: string, rule: seq<Match>, condition: bool, reason: string, severity: Severity)
    requires Part(r, id, rule) && Only(rule, id)
    requires condition ==> rule == [Match(id, reason, severity)]
    requires !condition ==> rule == []
    ensures Reports(r, id, condition, reason, severity)
  {
    if condition {
      assert Match(id, reason, severity) in rule;
    }
  }

  predicate CrashLoops(c: Container, restarts: int) {
    c.state == "waiting" && c.reason == "CrashLoopBackOff" && c.restartCount >= restarts
  }

  predicate AnyCrashLoops(cs: seq<Container>, restarts: int) {
    exists i :: 0 <= i < |cs| && CrashLoops(cs[i], restarts)
  }

  // Both thresholds are reached by one container.
  predicate AnyCritical(cs: seq<Container>, restarts: int, critical: int) {
    exists i :: 0 <= i < |cs| && CrashLoops(cs[i], restarts) && cs[i].restartCount >= critical
  }

  lemma CrashSeverity(o: Options, cs: seq<Container>)
    ensures CrashLoopSeverity(o, cs) ==
            if AnyCritical(cs, o.restartThreshold, o.criticalThreshold) then Critical
            else if AnyCrashLoops(cs, o.restartThreshold) then Warning else NoSeverity
  {
    if c :| c in cs && CrashLooping(o, c) {
      var i :| 0 <= i < |cs| && cs[i] == c;
      assert CrashLoops(cs[i], o.restartThreshold);
    }
    if c :| c in cs && CrashLooping(o, c) && c.restartCount >= o.criticalThreshold {
      var i :| 0 <= i < |cs| && cs[i] == c;
      assert CrashLoops(cs[i], o.restartThreshold) && cs[i].restartCount >= o.criticalThreshold;
    }
    if i :| 0 <= i < |cs| && CrashLoops(cs[i], o.restartThreshold) { assert CrashLooping(o, cs[i]); }
    if i :| 0 <= i < |cs| && CrashLoops(cs[i], o.restartThreshold) && cs[i].restartCount >= o.criticalThreshold {
      assert CrashLooping(o, cs[i]);
    }
  }

  // A Pod not ready for the minimum age, with a container in crash loop at or above the restart
  // threshold; critical if one of them is at or above the critical threshold.
  lemma CrashLoopReports(o: Options, at: Readings, s: Snapshot, previous: Option<Incident>)
    requires !Ignores(o, s)
    ensures Reports(Evaluate(o, at, s, previous), "pod-crash-loop",
                    SameLetters(s.source.kind, "Pod")
                    && AgedSince(s.conditions, SaysNotReady, at.crashLoop, o.minimumAge)
                    && AnyCrashLoops(s.containers, o.restartThreshold),
                    "one or more containers are crash looping",
                    if AnyCritical(s.containers, o.restartThreshold, o.criticalThreshold) then Critical else Warning)
  {
    Parts(o, at, s, previous);
    FoldIff(s.source.kind, "Pod");
    NotReadyAged(o, at.crashLoop, s.conditions);
    CrashSeverity(o, s.containers);
    FromPart(Evaluate(o, at, s, previous), "pod-crash-loop", PodCrashLoop(o, at.crashLoop, s),
             SameLetters(s.source.kind, "Pod") && AgedSince(s.conditions, SaysNotReady, at.crashLoop, o.minimumAge)
             && AnyCrashLoops(s.containers, o.restartThreshold),
             "one or more containers are crash looping",
             if AnyCritical(s.containers, o.restartThreshold, o.criticalThreshold) then Critical else Warning);
  }

  lemma UnschedulableReports(o: Options, at: Readings, s: Snapshot, previous: Option<Incident>)
    requires !Ignores(o, s)
    ensures Reports(Evaluate(o, at, s, previous), "pod-unschedulable",
                    SameLetters(s.source.kind, "Pod")
                    && AgedSince(s.conditions, SaysUnschedulable, at.unschedulable, o.minimumAge),
                    "pod has remained unschedulable", Warning)
  {
    Parts(o, at, s, previous);
    FoldIff(s.source.kind, "Pod");
    UnschedulableAged(o, at.unschedulable, s.conditions);
    FromPart(Evaluate(o, at, s, previous), "pod-unschedulable", PodUnschedulable(o, at.unschedulable, s),
             SameLetters(s.source.kind, "Pod")
             && AgedSince(s.conditions, SaysUnschedulable, at.unschedulable, o.minimumAge),
             "pod has remained unschedulable", Warning);
  }

  lemma ImagePullReports(o: Options, at: Readings, s: Snapshot, previous: Option<Incident>)
    requires !Ignores(o, s)
    ensures Reports(Evaluate(o, at, s, previous), "image-pull-failure",
                    SameLetters(s.source.kind, "Pod")
                    && AgedSince(s.conditions, SaysNotReady, at.imagePull, o.minimumAge)
                    && (exists c :: c in s.containers && c.state == "waiting"
                                    && c.reason in {"ErrImagePull", "ImagePullBackOff"}),
                    "one or more containers cannot pull their image", Warning)
  {
    Parts(o, at, s, previous);
    FoldIff(s.source.kind, "Pod");
    NotReadyAged(o, at.imagePull, s.conditions);
    assert forall c: Container ::
      PullFailing(c) <==> c.state == "waiting" && c.reason in {"ErrImagePull", "ImagePullBackOff"};
    FromPart(Evaluate(o, at, s, previous), "image-pull-failure", ImagePullFailure(o, at.imagePull, s),
             SameLetters(s.source.kind, "Pod") && AgedSince(s.conditions, SaysNotReady, at.imagePull, o.minimumAge)
             && (exists c :: c in s.containers && c.state == "waiting"
                             && c.reason in {"ErrImagePull", "ImagePullBackOff"}),
             "one or more containers cannot pull their image", Warning);
  }

  // A Job that says it failed, or whose failed pods reach its backoff limit, but at least one.
  lemma JobReports(o: Options, at: Readings, s: Snapshot, previous: Option<Incident>)
    requires !Ignores(o, s)
    ensures Reports(Evaluate(o, at, s, previous), "job-failed",
                    SameLetters(s.source.kind, "Job") && s.job.Some?
                    && ((exists c :: c in s.conditions && c.kind == "Failed" && c.status == "True")
                        || (s.job.value.failed >= 1 && s.job.value.failed >= s.job.value.backoffLimit)),
                    "job has failed", Critical)
  {
    Parts(o, at, s, previous);
    FoldIff(s.source.kind, "Job");
    FromPart(Evaluate(o, at, s, previous), "job-failed", FailedJob(s),
             SameLetters(s.source.kind, "Job") && s.job.Some?
             && ((exists c :: c in s.conditions && c.kind == "Failed" && c.status == "True")
                 || (s.job.value.failed >= 1 && s.job.value.failed >= s.job.value.backoffLimit)),
             "job has failed", Critical);
  }

  // A workload short of replicas for the minimum age; critical when none is available.
  lemma WorkloadReports(o: Options, at: Readings, s: Snapshot, previous: Option<Incident>)
    requires !Ignores(o, s)
    ensures Reports(Evaluate(o, at, s, previous), "workload-unavailable",
                    (SameLetters(s.source.kind, "deployment") || SameLetters(s.source.kind, "statefulset")
                     || SameLetters(s.source.kind, "daemonset"))
                    && s.workload.Some? && s.workload.value.desired > 0
                    && s.workload.value.available < s.workload.value.desired && s.workload.value.unavailable > 0
                    && AgedSince(s.conditions, SaysUnavailable, at.workload, o.minimumAge),
                    "workload has unavailable replicas",
                    if s.workload.Some? && s.workload.value.available == 0 then Critical else Warning)
  {
    Parts(o, at, s, previous);
    WorkloadKindIff(s.source.kind);
    UnavailableAged(o, at.workload, s.conditions);
    FromPart(Evaluate(o, at, s, previous), "workload-unavailable", WorkloadUnavailable(o, at.workload, s),
             (SameLetters(s.source.kind, "deployment") || SameLetters(s.source.kind, "statefulset")
              || SameLetters(s.source.kind, "daemonset"))
             && s.workload.Some? && s.workload.value.desired > 0
             && s.workload.value.available < s.workload.value.desired && s.workload.value.unavailable > 0
             && AgedSince(s.conditions, SaysUnavailable, at.workload, o.minimumAge),
             "workload has unavailable replicas",
             if s.workload.Some? && s.workload.value.available == 0 then Critical else Warning);
  }

  // A Warning Event with a selected reason that is not quiet yet.
  lemma EventReports(o: Options, at: Readings, s: Snapshot, previous: Option<Incident>)
    requires !Ignores(o, s)
    ensures Reports(Evaluate(o, at, s, previous), "warning-event",
                    SameLetters(s.source.kind, "Event") && s.event.Some? && SameLetters(s.event.value.kind, "Warning")
                    && s.event.value.reason in {"FailedAttachVolume", "FailedCreate", "FailedDelete", "FailedMount",
                                                "FailedUpdate", "Unhealthy"}
                    && (o.eventQuietPeriod > 0 && s.event.value.lastObserved.Some? ==>
                          at.event < s.event.value.lastObserved.value + o.eventQuietPeriod),
                    "selected Warning Event requires semantic triage", Warning)
  {
    Parts(o, at, s, previous);
    FoldIff(s.source.kind, "Event");
    if s.event.Some? { FoldIff(s.event.value.kind, "Warning"); }
    FromPart(Evaluate(o, at, s, previous), "warning-event", WarningEvent(o, at.event, s),
             SameLetters(s.source.kind, "Event") && s.event.Some? && SameLetters(s.event.value.kind, "Warning")
             && s.event.value.reason in {"FailedAttachVolume", "FailedCreate", "FailedDelete", "FailedMount",
                                         "FailedUpdate", "Unhealthy"}
             && (o.eventQuietPeriod > 0 && s.event.value.lastObserved.Some? ==>
                   at.event < s.event.value.lastObserved.value + o.eventQuietPeriod),
             "selected Warning Event requires semantic triage", Warning);
  }

  // A result is left to the evidence exactly when the Event rule, and no other, reports.
  lemma SemanticIff(o: Options, at: Readings, s: Snapshot, previous: Option<Incident>)
    ensures var r := Evaluate(o, at, s, previous);
            && (r.disposition == Semantic <==>
                  !Ignores(o, s) && r.matches != [] && forall m :: m in r.matches ==> m.ruleId == "warning-event")
            && (r.disposition == Semantic <==> r.questionSet == "operational-triage-v1")
            && (r.disposition == Semantic ==> r.decision.None?)
  {
    IgnoredIff(o, s);
    ExamineIsGenuine(o, at, s);
    if !Ignores(o, s) { JudgedSemantic(Examine(o, at, s).matches, previous); }
  }

  lemma JudgedSemantic(ms: seq<Match>, previous: Option<Incident>)
    requires Increasing(ms)
    ensures var r := Judge(Matched(ms), previous);
            && (r.disposition == Semantic <==>
                  r.matches != [] && forall m :: m in r.matches ==> m.ruleId == "warning-event")
            && (r.disposition == Semantic <==> r.questionSet == "operational-triage-v1")
            && (r.disposition == Semantic ==> r.decision.None?)
  {
    StringsAreOrdered();
    if |ms| > 1 { assert ms[0] in ms && ms[1] in ms && StringLess(ms[0].ruleId, ms[1].ruleId); }
    if |ms| > 0 { assert ms[0] in ms; }
    if ms == [] { assert RECOVERED in [RECOVERED]; }
  }

  /** A worse observation never gets a milder decision */

  predicate WorseWorkload(v: Workload, w: Workload) {
    // No count of replicas is negative; -1 would not be taken for none.
    w == v.(available := w.available) && w.available <= v.available && !(v.available == 0 && w.available < 0)
  }

  predicate WorseContainer(a: Container, b: Container) {
    b == a.(restartCount := b.restartCount) && b.restartCount >= a.restartCount
  }

  // The same condition, longer ago.
  predicate LongerAgo(a: Condition, b: Condition) {
    && b == a.(lastTransition := b.lastTransition) && a.lastTransition.Some? == b.lastTransition.Some?
    && (a.lastTransition.Some? ==> b.lastTransition.value <= a.lastTransition.value)
  }

  // Fewer replicas available, more restarts, more failed pods, longer ago; all else the same.
  predicate Worse(s: Snapshot, t: Snapshot) {
    && t == s.(workload := t.workload, containers := t.containers, job := t.job, conditions := t.conditions)
    && s.workload.Some? == t.workload.Some?
    && (s.workload.Some? ==> WorseWorkload(s.workload.value, t.workload.value))
    && |s.containers| == |t.containers|
    && (forall i :: 0 <= i < |s.containers| ==> WorseContainer(s.containers[i], t.containers[i]))
    && s.job.Some? == t.job.Some?
    && (s.job.Some? ==> t.job.value == s.job.value.(failed := t.job.value.failed)
                        && t.job.value.failed >= s.job.value.failed)
    && |s.conditions| == |t.conditions|
    && (forall i :: 0 <= i < |s.conditions| ==> LongerAgo(s.conditions[i], t.conditions[i]))
  }

  // Where one list reports a rule, the other reports it no less severely.
  predicate AtLeast(ms: seq<Match>, ns: seq<Match>) {
    forall m :: m in ms ==>
      exists n :: n in ns && n.ruleId == m.ruleId && SeverityRank(n.severity) >= SeverityRank(m.severity)
  }

  lemma AgedLonger(cs: seq<Condition>, ds: seq<Condition>, says: Condition -> bool, now: Time, age: int)
    requires |cs| == |ds| && forall i :: 0 <= i < |cs| ==> LongerAgo(cs[i], ds[i])
    requires forall c, t :: says(c) == says(c.(lastTransition := t))
    requires AgedSince(cs, says, now, age)
    ensures AgedSince(ds, says, now, age)
  {
    var i :| IsFirst(cs, says, i) && now - cs[i].lastTransition.value >= age;
    forall j | 0 <= j < |cs| ensures Stamped(says, ds[j]) == Stamped(says, cs[j]) {
      assert ds[j] == cs[j].(lastTransition := ds[j].lastTransition);
    }
    assert IsFirst(ds, says, i);
  }

  lemma CrashLoopWorse(o: Options, now: Time, s: Snapshot, t: Snapshot)
    requires Worse(s, t)
    ensures AtLeast(PodCrashLoop(o, now, s), PodCrashLoop(o, now, t))
  {
    if PodCrashLoop(o, now, s) != [] {
      NotReadyAged(o, now, s.conditions);
      NotReadyAged(o, now, t.conditions);
      AgedLonger(s.conditions, t.conditions, SaysNotReady, now, o.minimumAge);
      RestartsWorse(o, s.containers, t.containers);
      var n := PodCrashLoop(o, now, t)[0];
      assert n in PodCrashLoop(o, now, t);
    }
  }

  lemma RestartsWorse(o: Options, cs: seq<Container>, ds: seq<Container>)
    requires |cs| == |ds| && forall i :: 0 <= i < |cs| ==> WorseContainer(cs[i], ds[i])
    ensures SeverityRank(CrashLoopSeverity(o, ds)) >= SeverityRank(CrashLoopSeverity(o, cs))
  {
    CrashSeverity(o, cs);
    CrashSeverity(o, ds);
    if i :| 0 <= i < |cs| && CrashLoops(cs[i], o.restartThreshold) {
      assert CrashLoops(ds[i], o.restartThreshold);
    }
    if i :| 0 <= i < |cs| && CrashLoops(cs[i], o.restartThreshold) && cs[i].restartCount >= o.criticalThreshold {
      assert CrashLoops(ds[i], o.restartThreshold) && ds[i].restartCount >= o.criticalThreshold;
    }
  }

  lemma UnschedulableWorse(o: Options, now: Time, s: Snapshot, t: Snapshot)
    requires Worse(s, t)
    ensures AtLeast(PodUnschedulable(o, now, s), PodUnschedulable(o, now, t))
  {
    if PodUnschedulable(o, now, s) != [] {
      UnschedulableAged(o, now, s.conditions);
      UnschedulableAged(o, now, t.conditions);
      AgedLonger(s.conditions, t.conditions, SaysUnschedulable, now, o.minimumAge);
      assert PodUnschedulable(o, now, t)[0] in PodUnschedulable(o, now, t);
    }
  }

  lemma ImagePullWorse(o: Options, now: Time, s: Snapshot, t: Snapshot)
    requires Worse(s, t)
    ensures AtLeast(ImagePullFailure(o, now, s), ImagePullFailure(o, now, t))
  {
    if ImagePullFailure(o, now, s) != [] {
      NotReadyAged(o, now, s.conditions);
      NotReadyAged(o, now, t.conditions);
      AgedLonger(s.conditions, t.conditions, SaysNotReady, now, o.minimumAge);
      var c :| c in s.containers && PullFailing(c);
      var i :| 0 <= i < |s.containers| && s.containers[i] == c;
      assert t.containers[i] in t.containers && PullFailing(t.containers[i]);
      assert ImagePullFailure(o, now, t)[0] in ImagePullFailure(o, now, t);
    }
  }

  lemma JobWorse(s: Snapshot, t: Snapshot)
    requires Worse(s, t)
    ensures AtLeast(FailedJob(s), FailedJob(t))
  {
    if FailedJob(s) != [] {
      if c :| c in s.conditions && c.kind == "Failed" && c.status == "True" {
        var i :| 0 <= i < |s.conditions| && s.conditions[i] == c;
        assert t.conditions[i] in t.conditions;
      }
      assert FailedJob(t) != [];
      assert FailedJob(t)[0] in FailedJob(t);
    }
  }

  lemma WorkloadWorse(o: Options, now: Time, s: Snapshot, t: Snapshot)
    requires Worse(s, t)
    ensures AtLeast(WorkloadUnavailable(o, now, s), WorkloadUnavailable(o, now, t))
  {
    if WorkloadUnavailable(o, now, s) != [] {
      UnavailableAged(o, now, s.conditions);
      UnavailableAged(o, now, t.conditions);
      AgedLonger(s.conditions, t.conditions, SaysUnavailable, now, o.minimumAge);
      assert WorkloadUnavailable(o, now, t)[0] in WorkloadUnavailable(o, now, t);
    }
  }

  lemma AtLeastJoins(a: seq<Match>, b: seq<Match>, c: seq<Match>, d: seq<Match>)
    requires AtLeast(a, b) && AtLeast(c, d)
    ensures AtLeast(a + c, b + d)
  {
    forall m | m in a + c
      ensures exists n :: n in b + d && n.ruleId == m.ruleId && SeverityRank(n.severity) >= SeverityRank(m.severity)
    {
      if m in a {
        var n :| n in b && n.ruleId == m.ruleId && SeverityRank(n.severity) >= SeverityRank(m.severity);
        assert n in b + d;
      } else {
        var n :| n in d && n.ruleId == m.ruleId && SeverityRank(n.severity) >= SeverityRank(m.severity);
        assert n in b + d;
      }
    }
  }

  lemma MatchesWorse(o: Options, at: Readings, s: Snapshot, t: Snapshot)
    requires Worse(s, t)
    ensures AtLeast(AllMatches(o, at, s), AllMatches(o, at, t))
  {
    CrashLoopWorse(o, at.crashLoop, s, t);
    UnschedulableWorse(o, at.unschedulable, s, t);
    ImagePullWorse(o, at.imagePull, s, t);
    JobWorse(s, t);
    WorkloadWorse(o, at.workload, s, t);
    SixAtLeast(PodCrashLoop(o, at.crashLoop, s), PodUnschedulable(o, at.unschedulable, s),
               ImagePullFailure(o, at.imagePull, s), FailedJob(s), WorkloadUnavailable(o, at.workload, s),
               PodCrashLoop(o, at.crashLoop, t), PodUnschedulable(o, at.unschedulable, t),
               ImagePullFailure(o, at.imagePull, t), FailedJob(t), WorkloadUnavailable(o, at.workload, t),
               WarningEvent(o, at.event, s));
    assert WarningEvent(o, at.event, s) == WarningEvent(o, at.event, t);
  }

  lemma SixAtLeast(a: seq<Match>, b: seq<Match>, c: seq<Match>, d: seq<Match>, e: seq<Match>, a': seq<Match>,
                   b': seq<Match>, c': seq<Match>, d': seq<Match>, e': seq<Match>, f: seq<Match>)
    requires AtLeast(a, a') && AtLeast(b, b') && AtLeast(c, c') && AtLeast(d, d') && AtLeast(e, e')
    ensures AtLeast(a + b + c + d + e + f, a' + b' + c' + d' + e' + f)
  {
    AtLeastJoins(a, a', b, b');
    AtLeastJoins(a + b, a' + b', c, c');
    AtLeastJoins(a + b + c, a' + b' + c', d, d');
    AtLeastJoins(a + b + c + d, a' + b' + c' + d', e, e');
    AtLeastJoins(a + b + c + d + e, a' + b' + c' + d' + e', f, f);
  }

  predicate Milder(r: Option<Decision>, q: Option<Decision>) {
    r.Some? ==> q.Some? && SeverityRank(r.value.severity) <= SeverityRank(q.value.severity)
                && ActionRank(r.value.action) <= ActionRank(q.value.action)
  }

  predicate Warns(ms: seq<Match>) { exists m :: m in ms && m.ruleId == "warning-event" }

  lemma DecisionsWorse(ms: seq<Match>, ns: seq<Match>)
    requires ms != [] && AtLeast(ms, ns)
    ensures ns != [] && Milder(Some(DecisionFor(ms)), Some(DecisionFor(ns)))
  {
    DecisionIsMaximal(ms);
    var m :| m in ms && m.severity == DecisionFor(ms).severity;
    var n :| n in ns && n.ruleId == m.ruleId && SeverityRank(n.severity) >= SeverityRank(m.severity);
    DecisionIsMaximal(ns);
  }

  lemma JudgementsWorse(ms: seq<Match>, ns: seq<Match>, previous: Option<Incident>)
    requires AtLeast(ms, ns) && Warns(ns) == Warns(ms) && Increasing(ms)
    requires forall n :: n in ns ==> SeverityRank(n.severity) >= SeverityRank(Info)
    ensures Milder(Judge(Matched(ms), previous).decision, Judge(Matched(ns), previous).decision)
  {
    if ms == [] && ns != [] {
      DecisionIsMaximal(ns);
      assert ns[0] in ns;
    } else if ms != [] {
      DecisionsWorse(ms, ns);
      if Judge(Matched(ms), previous).decision.Some? { NotOnlyAnEvent(ms, ns); }
    }
  }

  lemma NotOnlyAnEvent(ms: seq<Match>, ns: seq<Match>)
    requires ms != [] && Increasing(ms) && !(|ms| == 1 && ms[0].ruleId == "warning-event") && AtLeast(ms, ns)
    ensures !(|ns| == 1 && ns[0].ruleId == "warning-event")
  {
    StringsAreOrdered();
    var m := if ms[0].ruleId == "warning-event" then ms[1] else ms[0];
    assert m in ms && (|ms| > 1 ==> StringLess(ms[0].ruleId, ms[1].ruleId));
    var n :| n in ns && n.ruleId == m.ruleId && SeverityRank(n.severity) >= SeverityRank(m.severity);
  }

  lemma RulesReportSomething(o: Options, at: Readings, s: Snapshot)
    ensures forall m :: m in AllMatches(o, at, s) ==> SeverityRank(m.severity) >= SeverityRank(Info)
    ensures Warns(AllMatches(o, at, s)) <==> WarningEvent(o, at.event, s) != []
  {
    SixWarn(PodCrashLoop(o, at.crashLoop, s), PodUnschedulable(o, at.unschedulable, s),
            ImagePullFailure(o, at.imagePull, s), FailedJob(s), WorkloadUnavailable(o, at.workload, s),
            WarningEvent(o, at.event, s));
  }

  lemma SixWarn(a: seq<Match>, b: seq<Match>, c: seq<Match>, d: seq<Match>, e: seq<Match>, f: seq<Match>)
    requires Only(a, "pod-crash-loop") && Only(b, "pod-unschedulable") && Only(c, "image-pull-failure")
    requires Only(d, "job-failed") && Only(e, "workload-unavailable") && Only(f, "warning-event")
    ensures forall m :: m in a + b + c + d + e + f ==> SeverityRank(m.severity) >= SeverityRank(Info)
    ensures Warns(a + b + c + d + e + f) <==> f != []
  {
    SixParts(a, b, c, d, e, f);
    if f != [] { assert f[0] in a + b + c + d + e + f; }
  }

  lemma AtLeastSorted(ms: seq<Match>, ns: seq<Match>)
    requires AtLeast(ms, ns)
    ensures AtLeast(Sort(ms, MatchLess), Sort(ns, MatchLess))
  {
    SortMembers(ms);
    SortMembers(ns);
    forall m | m in Sort(ms, MatchLess)
      ensures exists n :: n in Sort(ns, MatchLess) && n.ruleId == m.ruleId
                          && SeverityRank(n.severity) >= SeverityRank(m.severity)
    {
      var n :| n in ns && n.ruleId == m.ruleId && SeverityRank(n.severity) >= SeverityRank(m.severity);
      assert n in Sort(ns, MatchLess);
    }
  }

  // A worse observation keeps every match, no less severe, and its decision ranks no lower.
  lemma NeverMilder(o: Options, at: Readings, s: Snapshot, t: Snapshot, previous: Option<Incident>)
    requires Worse(s, t) && !Ignores(o, s)
    ensures Keeps(Evaluate(o, at, s, previous), Evaluate(o, at, t, previous))
    ensures Milder(Evaluate(o, at, s, previous).decision, Evaluate(o, at, t, previous).decision)
  {
    IgnoredIff(o, s);
    IgnoredIff(o, t);
    MatchesWorse(o, at, s, t);
    var ms, ns := AllMatches(o, at, s), AllMatches(o, at, t);
    AtLeastSorted(ms, ns);
    ExamineIsGenuine(o, at, s);
    RulesReportSomething(o, at, s);
    RulesReportSomething(o, at, t);
    SortMembers(ms);
    SortMembers(ns);
    SameWarns(ms, ns);
    JudgementsWorse(Sort(ms, MatchLess), Sort(ns, MatchLess), previous);
    KeptMatches(Sort(ms, MatchLess), Sort(ns, MatchLess), previous);
  }

  // Every rule the one result reports the other reports too, no less severely.
  predicate Keeps(r: Result, q: Result) {
    forall m :: m in r.matches && m.ruleId != "recovered" ==>
      exists n :: n in q.matches && n.ruleId == m.ruleId && SeverityRank(n.severity) >= SeverityRank(m.severity)
  }

  lemma KeptMatches(ms: seq<Match>, ns: seq<Match>, previous: Option<Incident>)
    requires AtLeast(ms, ns)
    ensures Keeps(Judge(Matched(ms), previous), Judge(Matched(ns), previous))
  {
    var r, q := Judge(Matched(ms), previous), Judge(Matched(ns), previous);
    forall m | m in r.matches && m.ruleId != "recovered"
      ensures exists n :: n in q.matches && n.ruleId == m.ruleId && SeverityRank(n.severity) >= SeverityRank(m.severity)
    {
      JudgeMatches(Matched(ms), previous, m);
      var n :| n in ns && n.ruleId == m.ruleId && SeverityRank(n.severity) >= SeverityRank(m.severity);
      JudgeMatches(Matched(ns), previous, n);
    }
  }

  lemma SameWarns(ms: seq<Match>, ns: seq<Match>)
    requires Warns(ms) == Warns(ns)
    ensures Warns(Sort(ms, MatchLess)) == Warns(Sort(ns, MatchLess))
  {
    SortMembers(ms);
    SortMembers(ns);
    if m :| m in ms && m.ruleId == "warning-event" { assert m in Sort(ms, MatchLess); }
    if m :| m in ns && m.ruleId == "warning-event" { assert m in Sort(ns, MatchLess); }
  }

  // Why the count must not fall below none: -1 available is taken for some.
  lemma NegativeIsMilder(o: Options, now: Time, s: Snapshot)
    requires s.workload == Some(Workload(1, 0, 0, 0, 0, 1)) && WorkloadUnavailable(o, now, s) != []
    ensures WorkloadUnavailable(o, now, s)[0].severity == Critical
    ensures var t := s.(workload := Some(Workload(1, 0, 0, -1, 0, 1)));
            WorkloadUnavailable(o, now, t) != [] && WorkloadUnavailable(o, now, t)[0].severity == Warning
  {
  }
}
