/** The FailoverService and FailoverEvent objects as the controllers persist them. */
module Api {

  datatype Option<+T> = None | Some(value: T)

  /** Seconds on one global clock. */
  type Time = int

  /** A target address, classified the way `net.ParseIP` and `To4` classify it. */
  datatype Address = IPv4(text: string) | IPv6(text: string) | Hostname(text: string) {
    predicate IsIP() { !Hostname? }
  }

  datatype Direction = Failover | Failback

  function DirectionOf(failoverActive: bool): Direction {
    if failoverActive then Failover else Failback
  }

  datatype Phase = Idle | ExecutingPreActions | UpdatingResources | FlushingConnections | ExecutingPostActions

  function PhaseOrder(p: Phase): int {
    match p
    case Idle => 0
    case ExecutingPreActions => 1
    case UpdatingResources => 2
    case FlushingConnections => 3
    case ExecutingPostActions => 4
  }

  // ----- Actions -----

  /** Exactly one executor is set on every action. `Untyped` is the executor-less action. */
  datatype ExecutorKind =
    | Http
    | RunJob
    | Scale(waitReady: bool, timeout: Option<int>)
    | WaitReady(timeout: Option<int>)
    | WaitRemote(phase: Option<Phase>, actionName: Option<string>, timeout: Option<int>)
    | Untyped

  datatype Action = Action(name: string, kind: ExecutorKind, ignoreFailure: bool, maxRetries: Option<int>)

  datatype Hooks = Hooks(preActions: seq<Action>, postActions: seq<Action>)

  datatype ActionStatus = Pending | Running | Succeeded | Failed | Skipped

  /** What the free-text message of an action result says. */
  datatype Note = NoNote | Retrying | RetriesExhausted | TimedOut | ForcedByOperator | FromExecutor(text: string)

  datatype ActionResult = ActionResult(
    name: string,
    status: ActionStatus,
    note: Note,
    startedAt: Option<Time>,
    completedAt: Option<Time>,
    jobName: string,
    retryCount: int)

  // ----- Spec -----

  datatype ClusterTarget = ClusterTarget(
    primaryModeAddress: Address,
    failoverModeAddress: Address,
    onFailover: Option<Hooks>,
    onFailback: Option<Hooks>)

  datatype Port = Port(name: string, port: int, protocol: string)

  datatype Spec = Spec(
    failoverActive: bool,
    ports: seq<Port>,
    primaryCluster: ClusterTarget,
    failoverCluster: ClusterTarget)

  // ----- Status -----

  /** FailoverEvents are named after the direction and the start time of their transition. */
  datatype EventName = EventName(direction: Direction, startedAt: Time)

  /** Kill tokens are fresh: every signalling attempt gets a new one. */
  type Token = nat

  datatype ConnectionKill = ConnectionKill(
    signalSent: bool,
    token: Token,
    expectedNodes: seq<string>,
    ackedNodes: seq<string>)

  datatype Transition = Transition(
    phase: Phase,
    direction: Direction,
    oldAddress: Option<Address>,
    newAddress: Option<Address>,
    transitionID: Time,
    index: int,
    pre: seq<ActionResult>,
    post: seq<ActionResult>,
    startedAt: Option<Time>,
    connectionKill: Option<ConnectionKill>,
    eventName: EventName)

  datatype Status = Status(
    lastKnown: Option<bool>,
    specChangeTime: Option<Time>,
    activeGeneration: int,
    activeCluster: string,
    transition: Option<Transition>)

  /** `forceAdvance` and `clusterID` are the two annotations; an empty `clusterID` is an absent one. */
  datatype FailoverService = FailoverService(
    name: string,
    uid: string,
    spec: Spec,
    forceAdvance: bool,
    clusterID: string,
    status: Status)

  // ----- Events -----

  datatype EventOutcome = Unset | InProgress | EventSucceeded | EventFailed | EventForceAdvanced

  datatype Trigger = Manual | RemoteSync

  datatype Event = Event(
    serviceRef: string,
    direction: Direction,
    trigger: Trigger,
    createdAt: Time,
    startedAt: Option<Time>,
    completedAt: Option<Time>,
    outcome: EventOutcome,
    pre: seq<ActionResult>,
    post: seq<ActionResult>,
    generationBefore: int,
    generationAfter: int)
}
