/** Audit events and the vocabulary of their payloads (snapl_orchestrator/models.py). */
module AuditEvents {
  import opened Prelude
  import opened Uuids
  import opened Timestamps
  import opened Reports

  datatype Reason =
    | Succeeded | IntentUnavailable | ApplyFailed | CollectFailed | VerificationFailed
    | AuditFailed | RunCancelled | DeviceNotFound | RemediationFailed

  datatype EventType =
    | WorkflowStarted | ActivityStarted | ActivityCompleted | ActivityFailed
    | WorkflowTerminated | WorkflowCancelled | ScheduleChanged | DriftResponded

  datatype Activity = FetchDesiredState | ApplyConfig | CollectDriftState | CheckDrift

  /** The three outcomes the validator admits. */
  datatype OutcomeWord = Success | Failure | Cancelled

  datatype Mode = Report | Remediate

  datatype Exclusion = UndesiredOnly | ErroredDevice

  /** What a run says became of a device it set out to repair. */
  datatype RepairWord = RepairUnknown | RepairSkipped | RepairSucceeded | RepairFailed

  /** A schedule change; intervals are recorded in whole seconds. */
  datatype Change =
    | Created(intervalSeconds: int, mode: Mode)
    | IntervalChanged(fromSeconds: Option<int>, toSeconds: int)
    | ResponseChanged(before: Mode, after: Mode)
    | Paused(why: string)
    | Resumed(note: Option<string>)
    | Triggered(mode: Mode)
    | Deleted

  /** The payload shapes the workflows and the schedule control write. */
  datatype Payload =
    | NoPayload
    | Detail(text: string)
    | Error(text: string)
    | UndesiredPaths(paths: seq<string>)
    | DriftPaths(paths: seq<string>)
    | Checked(status: DriftStatus, paths: seq<string>, error: Option<string>)
    | ScanTotals(total: int, clean: int, drifted: int, errored: int)
    | Dispatched(devices: nat, duplicates: nat)
    | RepairTotals(total: int, succeeded: int, failed: int, skipped: int)
    | RunMode(mode: Mode)
    | Repaired(scan: string, reconcile: Option<string>, outcome: RepairWord, paths: seq<string>)
    | LeftAlone(why: Exclusion, scan: string, paths: seq<string>, error: Option<string>)
    | UseCase(mode: Mode, scan: string, clean: int, drifted: int, errored: int,
              remediated: nat, undesiredOnly: nat, erroredOnes: nat, reconcile: Option<string>)
    | Changed(change: Change)

  datatype Target = Nothing | Id(id: Uuid) | Name(text: string)

  /** One line of an audit trail, without its identity and time. */
  datatype Entry = Entry(
    target: Target, kind: EventType, activity: Option<Activity>, outcome: Option<OutcomeWord>,
    reason: Option<Reason>, payload: Payload, actor: Option<string>)

  datatype AuditEvent = AuditEvent(eventId: Uuid, workflowId: string, workflowType: string, entry: Entry, at: Aware)

  /** The validator of `AuditEvent`. */
  predicate LegalEntry(e: Entry)
  {
    && (e.kind in {ActivityStarted, ActivityCompleted, ActivityFailed} ==> e.activity.Some?)
    && (e.kind == WorkflowTerminated ==> e.reason.Some?)
    && (e.kind == ScheduleChanged ==> e.actor.Some? && e.actor.value != "" && e.payload.Changed?)
  }
}
