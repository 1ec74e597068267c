/**
 The rule engine's loops, proved to compute the functions of module Rules.
 */
module Engine {
  import opened Domain
  import opened Order
  import R = Rules

  method CrashLoopSeverity(o: R.Options, cs: seq<Container>) returns (severity: Severity)
    ensures severity == R.CrashLoopSeverity(o, cs)
  {
    severity := NoSeverity;
    for i := 0 to |cs|
      invariant severity == R.CrashLoopSeverity(o, cs[..i])
    {
      assert cs[..i + 1] == cs[..i] + [cs[i]];
      OneMore(o, cs[..i], cs[i]);
      var c := cs[i];
      if c.state == "waiting" && c.reason == "CrashLoopBackOff" && c.restartCount >= o.restartThreshold {
        var candidate := Warning;
        if c.restartCount >= o.criticalThreshold { candidate := Critical; }
        if SeverityRank(candidate) > SeverityRank(severity) { severity := candidate; }
      }
    }
    assert cs[..|cs|] == cs;
  }

  lemma OneMore(o: R.Options, cs: seq<Container>, c: Container)
    ensures R.CrashLoopSeverity(o, cs + [c]) ==
            if !R.CrashLooping(o, c) then R.CrashLoopSeverity(o, cs)
            else if c.restartCount >= o.criticalThreshold then Critical
            else if R.CrashLoopSeverity(o, cs) == Critical then Critical else Warning
  {
    var ds := cs + [c];
    assert c in ds && forall x :: x in ds <==> x in cs || x == c;
  }

  method PodCrashLoop(o: R.Options, now: Time, s: Snapshot) returns (ms: seq<R.Match>)
    ensures ms == R.PodCrashLoop(o, now, s)
  {
    if !R.EqualFold(s.source.kind, "Pod") { return []; }
    var transition := R.ConditionTransition(s.conditions, "Ready", "False", "");
    if transition.None? || now - transition.value < o.minimumAge { return []; }
    var severity := CrashLoopSeverity(o, s.containers);
    if severity == NoSeverity { return []; }
    return [R.Match("pod-crash-loop", "one or more containers are crash looping", severity)];
  }

  method HighestSeverity(ms: seq<R.Match>) returns (winning: R.Match)
    requires ms != []
    ensures winning == R.HighestSeverity(ms)
  {
    winning := ms[0];
    for i := 1 to |ms|
      invariant winning == R.HighestSeverity(ms[..i])
    {
      assert ms[..i + 1][..i] == ms[..i];
      if SeverityRank(ms[i].severity) > SeverityRank(winning.severity) { winning := ms[i]; }
    }
    assert ms[..|ms|] == ms;
  }

  method DecisionFor(ms: seq<R.Match>) returns (d: Decision)
    requires ms != []
    ensures d == R.DecisionFor(ms)
  {
    var winning := HighestSeverity(ms);
    var action := Notify;
    if winning.severity == Critical { action := Page; }
    var ids: seq<string> := [];
    for i := 0 to |ms|
      invariant |ids| == i && forall j :: 0 <= j < i ==> ids[j] == ms[j].ruleId
    {
      ids := ids + [ms[i].ruleId];
    }
    assert ids == R.RuleIds(ms);
    d := Decision(winning.severity, action, winning.reason, ids, ids);
  }

  method Evaluate(o: R.Options, at: R.Readings, s: Snapshot, previous: Option<Incident>) returns (r: R.Result)
    ensures r == R.Evaluate(o, at, s, previous)
  {
    var ignored := R.IgnoredReason(o, s);
    if ignored.Some? { return R.Judge(R.Ignored(ignored.value), previous); }
    var ms := PodCrashLoop(o, at.crashLoop, s);
    ms := ms + R.PodUnschedulable(o, at.unschedulable, s);
    ms := ms + R.ImagePullFailure(o, at.imagePull, s);
    ms := ms + R.FailedJob(s);
    ms := ms + R.WorkloadUnavailable(o, at.workload, s);
    ms := ms + R.WarningEvent(o, at.event, s);
    ms := Sort(ms, R.MatchLess);
    if |ms| == 0 {
      if previous.Some? && previous.value.status == Open {
        var reason := R.RECOVERED.reason;
        return R.Result([R.RECOVERED], R.Terminal, Some(Decision(Info, Record, reason, ["recovered"], ["recovered"])),
                        "", R.POLICY_VERSION);
      }
      return R.Result([], R.Unmatched, None, "", R.POLICY_VERSION);
    }
    if |ms| == 1 && ms[0].ruleId == "warning-event" {
      return R.Result(ms, R.Semantic, None, R.OPERATIONAL_TRIAGE, R.POLICY_VERSION);
    }
    var decision := DecisionFor(ms);
    return R.Result(ms, R.Terminal, Some(decision), "", R.POLICY_VERSION);
  }
}
