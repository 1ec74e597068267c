/**
 The content fingerprint (internal/kube/fingerprint.go). The digest of the JSON encoding is taken
 to be injective, so a fingerprint is modelled as the canonical value that is encoded.
 Canonicalises is a relation: sort.Slice may leave elements that compare equal in any order.
 */
module Fingerprint {
  import opened Domain
  import opened Order

  datatype CanonicalSource = CanonicalSource(clusterId: string, apiVersion: string, kind: string, uid: string,
                                             generation: int, owner: Option<Owner>)

  datatype CanonicalEvent = CanonicalEvent(kind: string, reason: string, message: string, regardingUid: string)

  datatype KeyValue = KeyValue(key: string, value: string)

  datatype Canonical = Canonical(source: CanonicalSource, labels: seq<KeyValue>, conditions: seq<Condition>,
                                 containers: seq<Container>, workload: Option<Workload>, job: Option<Job>,
                                 event: Option<CanonicalEvent>)

  function SourceOf(s: Source): CanonicalSource {
    CanonicalSource(s.clusterId, s.apiVersion, s.kind, s.uid, s.generation, s.owner)
  }

  function EventOf(e: Option<Event>): Option<CanonicalEvent> {
    if e.None? then None
    else Some(CanonicalEvent(e.value.kind, e.value.reason, e.value.message, e.value.regardingUid))
  }

  function Timeless(c: Condition): Condition { c.(lastTransition := None) }

  function AllTimeless(cs: seq<Condition>): seq<Condition> {
    seq(|cs|, i requires 0 <= i < |cs| => Timeless(cs[i]))
  }

  /** The three comparisons */

  predicate LabelLess(a: KeyValue, b: KeyValue) { StringLess(a.key, b.key) }

  function ConditionKey(c: Condition): seq<string> { [c.kind, c.status, c.reason, c.message] }

  predicate ConditionLess(a: Condition, b: Condition) { KeysLess(ConditionKey(a), ConditionKey(b)) }

  function ContainerKey(c: Container): seq<string> { [c.name, c.state, c.reason] }

  predicate ContainerLess(a: Container, b: Container) { KeysLess(ContainerKey(a), ContainerKey(b)) }

  /** Canonical forms */

  ghost predicate ListsLabels(listed: seq<KeyValue>, labels: map<string, string>) {
    && Sorted(listed, LabelLess)
    && (forall i, j :: 0 <= i < j < |listed| ==> listed[i].key != listed[j].key)
    && forall kv :: kv in listed <==> kv.key in labels && labels[kv.key] == kv.value
  }

  ghost predicate Arranges<T(!new)>(arranged: seq<T>, s: seq<T>, less: (T, T) -> bool) {
    Sorted(arranged, less) && multiset(arranged) == multiset(s)
  }

  ghost predicate Canonicalises(s: Snapshot, c: Canonical) {
    && c.source == SourceOf(s.source) && c.workload == s.workload && c.job == s.job && c.event == EventOf(s.event)
    && ListsLabels(c.labels, s.labels)
    && Arranges(c.conditions, AllTimeless(s.conditions), ConditionLess)
    && Arranges(c.containers, s.containers, ContainerLess)
  }

  method ListLabels(labels: map<string, string>) returns (listed: seq<KeyValue>)
    ensures ListsLabels(listed, labels)
  {
    var keys := SortedKeys(labels.Keys);
    listed := [];
    for i := 0 to |keys|
      invariant |listed| == i
      invariant forall j :: 0 <= j < i ==> listed[j] == KeyValue(keys[j], labels[keys[j]])
    {
      listed := listed + [KeyValue(keys[i], labels[keys[i]])];
    }
    forall kv: KeyValue | kv.key in labels && labels[kv.key] == kv.value ensures kv in listed {
      var j :| 0 <= j < |keys| && keys[j] == kv.key;
      assert listed[j] == kv;
    }
  }

  method ClearTimes(cs: seq<Condition>) returns (r: seq<Condition>)
    ensures r == AllTimeless(cs)
  {
    r := cs;
    for i := 0 to |cs|
      invariant |r| == |cs|
      invariant forall j :: 0 <= j < |cs| ==> r[j] == if j < i then Timeless(cs[j]) else cs[j]
    {
      r := r[i := r[i].(lastTransition := None)];
    }
  }

  method ContentHash(s: Snapshot) returns (c: Canonical)
    ensures Canonicalises(s, c) && Carries(c, s)
  {
    var labels := ListLabels(s.labels);
    var conditions := ClearTimes(s.conditions);
    ConditionsAreWeak();
    ContainersAreWeak();
    SortSorts(conditions, ConditionLess);
    SortSorts(s.containers, ContainerLess);
    c := Canonical(SourceOf(s.source), labels, Sort(conditions, ConditionLess), Sort(s.containers, ContainerLess),
                   s.workload, s.job, EventOf(s.event));
    CanonicalCarries(s, c);
  }

  lemma ConditionsAreWeak()
    ensures StrictWeak(ConditionLess)
  {
    KeysAreOrdered();
  }

  lemma ContainersAreWeak()
    ensures StrictWeak(ContainerLess)
  {
    KeysAreOrdered();
  }

  /** Uniqueness of each part */

  lemma ConditionsSeparate(m: multiset<Condition>)
    requires forall c :: c in m ==> c.lastTransition.None?
    ensures Separates(m, ConditionLess)
  {
    KeysAreOrdered();
    forall x, y | x in m && y in m && x != y ensures ConditionLess(x, y) || ConditionLess(y, x) {
      var a, b := ConditionKey(x), ConditionKey(y);
      assert a[0] == x.kind && a[1] == x.status && a[2] == x.reason && a[3] == x.message;
      assert b[0] == y.kind && b[1] == y.status && b[2] == y.reason && b[3] == y.message;
      assert a != b;
    }
  }

  // Containers that compare equal are equal.
  ghost predicate KeysIdentify(cs: seq<Container>) {
    forall x, y :: x in cs && y in cs && x.name == y.name && x.state == y.state && x.reason == y.reason ==> x == y
  }

  lemma SameKey(x: Container, y: Container)
    ensures ContainerKey(x) == ContainerKey(y) <==> x.name == y.name && x.state == y.state && x.reason == y.reason
  {
    var a, b := ContainerKey(x), ContainerKey(y);
    assert a[0] == x.name && a[1] == x.state && a[2] == x.reason;
    assert b[0] == y.name && b[1] == y.state && b[2] == y.reason;
  }

  lemma ContainersSeparate(cs: seq<Container>)
    requires KeysIdentify(cs)
    ensures Separates(multiset(cs), ContainerLess)
  {
    KeysAreOrdered();
    forall x, y | x in multiset(cs) && y in multiset(cs) && x != y ensures ContainerLess(x, y) || ContainerLess(y, x) {
      assert x in cs && y in cs;
      SameKey(x, y);
    }
  }

  lemma LabelsAreUnique(a: seq<KeyValue>, b: seq<KeyValue>, labels: map<string, string>)
    requires ListsLabels(a, labels) && ListsLabels(b, labels)
    ensures a == b
  {
    StringsAreOrdered();
    NoRepeats(a);
    NoRepeats(b);
    forall kv ensures multiset(a)[kv] == multiset(b)[kv] {
      assert kv in a <==> kv in b;
      assert kv in a <==> kv in multiset(a);
      assert kv in b <==> kv in multiset(b);
    }
    assert multiset(a) == multiset(b);
    assert Separates(multiset(a), LabelLess) by {
      forall x, y | x in multiset(a) && y in multiset(a) && x != y ensures LabelLess(x, y) || LabelLess(y, x) {
        assert x in a && y in a;
      }
    }
    SortedUnique(a, b, LabelLess);
  }

  lemma LabelsAreRecovered(a: seq<KeyValue>, l: map<string, string>, m: map<string, string>)
    requires ListsLabels(a, l) && ListsLabels(a, m)
    ensures l == m
  {
    forall k ensures k in l <==> k in m {
      if k in l { assert KeyValue(k, l[k]) in a; }
      if k in m { assert KeyValue(k, m[k]) in a; }
    }
    forall k | k in l ensures l[k] == m[k] { assert KeyValue(k, l[k]) in a; }
  }

  lemma TimelessMembers(cs: seq<Condition>)
    ensures forall c :: c in multiset(AllTimeless(cs)) ==> c.lastTransition.None?
  {
  }

  /** The fingerprint is a quotient */

  // How many conditions say this.
  function Saying(cs: seq<Condition>, kind: string, status: string, reason: string, message: string): nat {
    if cs == [] then 0
    else
      Saying(cs[1..], kind, status, reason, message)
      + if cs[0].kind == kind && cs[0].status == status && cs[0].reason == reason && cs[0].message == message then 1
        else 0
  }

  ghost predicate SameConditions(cs: seq<Condition>, ds: seq<Condition>) {
    forall kind, status, reason, message ::
      Saying(cs, kind, status, reason, message) == Saying(ds, kind, status, reason, message)
  }

  // Two observations agree on every material fact, field by field.
  ghost predicate SameFacts(s: Snapshot, t: Snapshot) {
    && s.source.clusterId == t.source.clusterId && s.source.apiVersion == t.source.apiVersion
    && s.source.kind == t.source.kind && s.source.uid == t.source.uid
    && s.source.generation == t.source.generation && s.source.owner == t.source.owner
    && s.labels == t.labels && SameConditions(s.conditions, t.conditions)
    && multiset(s.containers) == multiset(t.containers)
    && s.workload == t.workload && s.job == t.job
    && s.event.Some? == t.event.Some?
    && (s.event.Some? ==>
          && s.event.value.kind == t.event.value.kind && s.event.value.reason == t.event.value.reason
          && s.event.value.message == t.event.value.message
          && s.event.value.regardingUid == t.event.value.regardingUid)
  }

  // What a canonical form carries of a snapshot.
  ghost predicate Carries(c: Canonical, s: Snapshot) {
    && c.source.clusterId == s.source.clusterId && c.source.apiVersion == s.source.apiVersion
    && c.source.kind == s.source.kind && c.source.uid == s.source.uid
    && c.source.generation == s.source.generation && c.source.owner == s.source.owner
    && (forall kv :: kv in c.labels <==> kv.key in s.labels && s.labels[kv.key] == kv.value)
    && SameConditions(c.conditions, s.conditions) && (forall d :: d in c.conditions ==> d.lastTransition.None?)
    && multiset(c.containers) == multiset(s.containers)
    && c.workload == s.workload && c.job == s.job && c.event.Some? == s.event.Some?
    && (c.event.Some? ==>
          && c.event.value.kind == s.event.value.kind && c.event.value.reason == s.event.value.reason
          && c.event.value.message == s.event.value.message
          && c.event.value.regardingUid == s.event.value.regardingUid)
  }

  lemma CanonicalCarries(s: Snapshot, c: Canonical)
    requires Canonicalises(s, c)
    ensures Carries(c, s)
  {
    forall d | d in c.conditions ensures Timeless(d) == d {
      assert d in multiset(AllTimeless(s.conditions));
      assert d in AllTimeless(s.conditions);
    }
    assert AllTimeless(c.conditions) == c.conditions;
    SameConditionsIff(c.conditions, s.conditions);
  }

  // The same, as the canonical form holds it.
  ghost predicate SameMaterial(s: Snapshot, t: Snapshot) {
    && SourceOf(s.source) == SourceOf(t.source) && s.labels == t.labels
    && multiset(AllTimeless(s.conditions)) == multiset(AllTimeless(t.conditions))
    && multiset(s.containers) == multiset(t.containers)
    && s.workload == t.workload && s.job == t.job && EventOf(s.event) == EventOf(t.event)
  }

  lemma {:induction false} SayingCounts(cs: seq<Condition>, c: Condition)
    ensures multiset(AllTimeless(cs))[c]
         == if c.lastTransition.None? then Saying(cs, c.kind, c.status, c.reason, c.message) else 0
  {
    if cs != [] {
      SayingCounts(cs[1..], c);
      assert AllTimeless(cs) == [Timeless(cs[0])] + AllTimeless(cs[1..]);
    }
  }

  lemma SameConditionsIff(cs: seq<Condition>, ds: seq<Condition>)
    ensures SameConditions(cs, ds) <==> multiset(AllTimeless(cs)) == multiset(AllTimeless(ds))
  {
    if SameConditions(cs, ds) {
      forall c ensures multiset(AllTimeless(cs))[c] == multiset(AllTimeless(ds))[c] {
        SayingCounts(cs, c);
        SayingCounts(ds, c);
      }
    } else {
      var kind, status, reason, message :|
        Saying(cs, kind, status, reason, message) != Saying(ds, kind, status, reason, message);
      SayingCounts(cs, Condition(kind, status, reason, message, None));
      SayingCounts(ds, Condition(kind, status, reason, message, None));
    }
  }

  lemma SameFactsIff(s: Snapshot, t: Snapshot)
    ensures SameFacts(s, t) <==> SameMaterial(s, t)
  {
    SameConditionsIff(s.conditions, t.conditions);
  }

  lemma SameFormSameMaterial(s: Snapshot, t: Snapshot, c: Canonical)
    requires Canonicalises(s, c) && Canonicalises(t, c)
    ensures SameMaterial(s, t)
  {
    LabelsAreRecovered(c.labels, s.labels, t.labels);
  }

  lemma SameMaterialSameForm(s: Snapshot, t: Snapshot, c: Canonical, d: Canonical)
    requires Canonicalises(s, c) && Canonicalises(t, d) && SameMaterial(s, t) && KeysIdentify(s.containers)
    ensures c == d
  {
    LabelsAreUnique(c.labels, d.labels, s.labels);
    TimelessMembers(s.conditions);
    ConditionsSeparate(multiset(c.conditions));
    SortedUnique(c.conditions, d.conditions, ConditionLess);
    ContainersSeparate(s.containers);
    SortedUnique(c.containers, d.containers, ContainerLess);
  }

  // Fingerprints agree exactly when the material facts do.
  lemma FingerprintIsQuotient(s: Snapshot, t: Snapshot, c: Canonical, d: Canonical)
    requires Canonicalises(s, c) && Canonicalises(t, d) && KeysIdentify(s.containers)
    ensures c == d <==> SameFacts(s, t)
  {
    SameFactsIff(s, t);
    if c == d {
      SameFormSameMaterial(s, t, c);
    }
    if SameMaterial(s, t) {
      SameMaterialSameForm(s, t, c, d);
    }
  }

  /** Exactly when one snapshot has one fingerprint */

  function Swapped<T>(s: seq<T>, i: nat, j: nat): seq<T>
    requires i < |s| && j < |s|
  {
    s[i := s[j]][j := s[i]]
  }

  lemma SwapKeepsMultiset<T>(s: seq<T>, i: nat, j: nat)
    requires i < j < |s|
    ensures multiset(Swapped(s, i, j)) == multiset(s)
  {
    assert s == s[..i] + [s[i]] + s[i + 1..j] + [s[j]] + s[j + 1..];
    assert Swapped(s, i, j) == s[..i] + [s[j]] + s[i + 1..j] + [s[i]] + s[j + 1..];
  }

  // Exchanging two containers that compare equal leaves the list sorted.
  lemma SwapStaysSorted(cs: seq<Container>, i: nat, j: nat)
    requires Sorted(cs, ContainerLess) && i < j < |cs| && ContainerKey(cs[i]) == ContainerKey(cs[j])
    ensures Sorted(Swapped(cs, i, j), ContainerLess)
  {
    var ds := Swapped(cs, i, j);
    assert forall p :: 0 <= p < |cs| ==> ContainerKey(ds[p]) == ContainerKey(cs[p]);
    forall p, q | 0 <= p < q < |ds| ensures !ContainerLess(ds[q], ds[p]) {
      assert !ContainerLess(cs[q], cs[p]);
    }
  }

  ghost predicate Stable(s: Snapshot) {
    forall c, d :: Canonicalises(s, c) && Canonicalises(s, d) ==> c == d
  }

  lemma AnotherForm(s: Snapshot, c: Canonical, x: Container, y: Container)
    requires Canonicalises(s, c) && x in s.containers && y in s.containers
    requires x != y && x.name == y.name && x.state == y.state && x.reason == y.reason
    ensures exists d :: d != c && Canonicalises(s, d)
  {
    var cs := c.containers;
    assert x in multiset(cs) && y in multiset(cs);
    var p :| 0 <= p < |cs| && cs[p] == x;
    var q :| 0 <= q < |cs| && cs[q] == y;
    var i, j := if p < q then p else q, if p < q then q else p;
    SameKey(x, y);
    SwapKeepsMultiset(cs, i, j);
    SwapStaysSorted(cs, i, j);
    var d := c.(containers := Swapped(cs, i, j));
    assert d.containers[p] == y;
    assert d != c && Canonicalises(s, d);
  }

  // A snapshot's fingerprint is well defined exactly when containers that share name, state and
  // reason are equal; readiness, restart count and exit code are hashed but not compared.
  lemma StableIff(s: Snapshot, c: Canonical)
    requires Canonicalises(s, c)
    ensures Stable(s) <==> KeysIdentify(s.containers)
  {
    if KeysIdentify(s.containers) {
      forall c, d | Canonicalises(s, c) && Canonicalises(s, d) ensures c == d { SameMaterialSameForm(s, s, c, d); }
    } else {
      var x, y :| x in s.containers && y in s.containers && x != y
                  && x.name == y.name && x.state == y.state && x.reason == y.reason;
      AnotherForm(s, c, x, y);
    }
  }

  // Two containers that differ only in restart count: two fingerprints for one snapshot.
  lemma UnstableExample(s: Snapshot, c: Canonical)
    requires s.containers == [Container("a", false, 1, "waiting", "CrashLoopBackOff", 0),
                              Container("a", false, 2, "waiting", "CrashLoopBackOff", 0)]
    requires Canonicalises(s, c)
    ensures !Stable(s)
  {
    StableIff(s, c);
    assert s.containers[0] in s.containers && s.containers[1] in s.containers;
  }

  /** Consequences the reconciler relies on */

  // Fields that change without anything material happening.
  predicate VolatileOnly(s: Snapshot, t: Snapshot) {
    && t.source == s.source.(ns := t.source.ns, name := t.source.name, resourceVersion := t.source.resourceVersion)
    && t.labels == s.labels && t.containers == s.containers && t.workload == s.workload && t.job == s.job
    && |t.conditions| == |s.conditions|
    && (forall i :: 0 <= i < |s.conditions| ==>
          t.conditions[i] == s.conditions[i].(lastTransition := t.conditions[i].lastTransition))
    && t.event.Some? == s.event.Some?
    && (s.event.Some? ==>
          t.event.value == s.event.value.(count := t.event.value.count, lastObserved := t.event.value.lastObserved))
  }

  lemma VolatileFieldsDoNotMatter(s: Snapshot, t: Snapshot, c: Canonical, d: Canonical)
    requires VolatileOnly(s, t) && KeysIdentify(s.containers) && Canonicalises(s, c) && Canonicalises(t, d)
    ensures c == d
  {
    assert AllTimeless(s.conditions) == AllTimeless(t.conditions);
    SameMaterialSameForm(s, t, c, d);
  }

  // The condition appended when an Event falls quiet always yields a different fingerprint.
  lemma AppendedConditionChangesForm(s: Snapshot, added: Condition, c: Canonical, d: Canonical)
    requires Canonicalises(s, c) && Canonicalises(s.(conditions := s.conditions + [added]), d)
    ensures c != d
  {
    assert |multiset(c.conditions)| == |s.conditions| by { assert |AllTimeless(s.conditions)| == |s.conditions|; }
    assert |multiset(d.conditions)| == |s.conditions| + 1 by {
      assert |AllTimeless(s.conditions + [added])| == |s.conditions| + 1;
    }
  }
}
