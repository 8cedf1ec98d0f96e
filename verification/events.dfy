/** The event vocabulary of one agent's durable log (controller/events.go,
    controller/fsm.go, controller/revive.go, controller/monitor.go). */
module Events {
  import opened Wrappers

  /** The type of an event together with the payload fields that a projection
      reads: the `at` of a consumption and the verdict of an assessment, None when
      the payload does not decode. Record is every verbatim pi record and notice. */
  datatype Kind =
    | Provisioned
    | Started
    | TurnStarted
    | Settled
    | Paused
    | Revived
    | Reviving
    | Terminated
    | Failed
    | ReviveConsumed(at: Option<nat>)
    | ReviveAbandoned
    | Resumed
    | Assessed(verdict: Option<string>)
    | DaemonBoot
    | Record(name: string)

  function TypeName(k: Kind): string {
    match k
    case Provisioned => "agent.provisioned"
    case Started => "agent.started"
    case TurnStarted => "agent.turn_started"
    case Settled => "agent.settled"
    case Paused => "agent.paused"
    case Revived => "agent.revived"
    case Reviving => "agent.reviving"
    case Terminated => "agent.terminated"
    case Failed => "agent.failed"
    case ReviveConsumed(_) => "agent.revive_consumed"
    case ReviveAbandoned => "agent.revive_abandoned"
    case Resumed => "agent.resumed"
    case Assessed(_) => "agent.assessed"
    case DaemonBoot => "daemon.boot"
    case Record(name) => name
  }

  datatype Event = Event(seqNo: nat, kind: Kind, data: string)

  /** The log is always seqs 1..n. */
  predicate GapFree(log: seq<Event>) {
    forall i :: 0 <= i < |log| ==> log[i].seqNo == i + 1
  }

  function Kinds(log: seq<Event>): seq<Kind> {
    seq(|log|, i requires 0 <= i < |log| => log[i].kind)
  }
}
