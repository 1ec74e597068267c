/**
 Values shared by every part of the model: observed resources, incidents, evaluations,
 decisions and notifications.

 Times are integers (nanoseconds on one clock); a zero time.Time is None. IDs made by
 StableID are modelled as the seed they digest, so two IDs are equal exactly when their
 seeds are; BlankId stands for every blank string where an ID is expected.
 */
module Domain {
  datatype Option<+T> = None | Some(value: T)

  type Time = int
  type Hash = string

  const NO_HASH: Hash := ""

  // unicode.IsSpace, as strings.TrimSpace uses it.
  predicate IsSpace(c: char) {
    || '\t' <= c <= '\r' || c == ' ' || c == '\U{0085}' || c == '\U{00A0}' || c == '\U{1680}'
    || '\U{2000}' <= c <= '\U{200A}' || c == '\U{2028}' || c == '\U{2029}' || c == '\U{202F}'
    || c == '\U{205F}' || c == '\U{3000}'
  }

  // strings.TrimSpace(s) == ""
  predicate Blank(s: string) {
    forall i :: 0 <= i < |s| ==> IsSpace(s[i])
  }

  /** Observed resources */

  datatype Owner = Owner(apiVersion: string, kind: string, name: string, uid: string)

  datatype Source = Source(clusterId: string, apiVersion: string, kind: string, ns: string, name: string,
                           uid: string, resourceVersion: string, generation: int, owner: Option<Owner>)

  datatype Condition = Condition(kind: string, status: string, reason: string, message: string,
                                 lastTransition: Option<Time>)

  datatype Container = Container(name: string, ready: bool, restartCount: int, state: string,
                                 reason: string, exitCode: int)

  datatype Workload = Workload(desired: int, current: int, ready: int, available: int, updated: int,
                               unavailable: int)

  datatype Job = Job(active: int, succeeded: int, failed: int, backoffLimit: int)

  datatype Event = Event(kind: string, reason: string, message: string, regardingUid: string, count: int,
                         lastObserved: Option<Time>)

  datatype Snapshot = Snapshot(source: Source, observedAt: Time, labels: map<string, string>,
                               conditions: seq<Condition>, containers: seq<Container>,
                               workload: Option<Workload>, job: Option<Job>, event: Option<Event>,
                               contentHash: Hash)

  /** Identity */

  // The digest of cluster ID and UID.
  datatype IncidentKey = IncidentKey(clusterId: string, uid: string)

  function KeyOf(source: Source): IncidentKey {
    IncidentKey(source.clusterId, source.uid)
  }

  datatype Identity = Identity(incidentId: Id, snapshotHash: Hash, policyVersion: string, rubricVersion: string,
                               providerConfigHash: string)

  datatype EventType = EventOpened | EventUpdated | EventResolved

  datatype Id =
    | BlankId
    | IncidentId(key: IncidentKey)
    | EvaluationId(identity: Identity)
    | DeliveryId(evaluationId: Id, destination: string, eventType: EventType)

  /** Decisions */

  datatype Severity = NoSeverity | Info | Warning | Critical

  datatype Action = NoAction | Suppress | Record | Notify | Page

  datatype Decision = Decision(severity: Severity, action: Action, summary: string, reasonCodes: seq<string>,
                               ruleIds: seq<string>)

  function SeverityRank(s: Severity): nat {
    match s
    case Critical => 3
    case Warning => 2
    case Info => 1
    case NoSeverity => 0
  }

  function ActionRank(a: Action): nat {
    match a
    case Page => 4
    case Notify => 3
    case Record => 2
    case Suppress => 1
    case NoAction => 0
  }

  /** Incidents and evaluations */

  datatype IncidentStatus = Open | Resolved | Suppressed

  datatype Incident = Incident(id: Id, key: IncidentKey, clusterId: string, source: Source,
                               status: IncidentStatus, openedAt: Time, updatedAt: Time,
                               resolvedAt: Option<Time>, contentHash: Hash, version: int)

  datatype Evaluation = Evaluation(id: Id, identity: Identity, decision: Decision, createdAt: Time)

  /** Notifications */

  datatype NotificationStatus = Pending | Delivering | Delivered | Failed

  datatype Payload = Payload(incidentId: Id, evaluationId: Id, status: IncidentStatus, severity: Severity,
                             action: Action, summary: string, resource: Source, ruleIds: seq<string>,
                             reasonCodes: seq<string>, observedAt: Time)

  datatype Notification = Notification(id: Id, evaluationId: Id, destination: string, eventType: EventType,
                                       nextAttemptAt: Time, payload: Payload)
}
