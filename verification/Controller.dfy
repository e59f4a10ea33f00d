/**
 * What one reconcile of a FailoverService does (internal/controller/failoverservice_controller.go),
 * as a function from the persisted state and the environment to the persisted state.
 *
 * The environment decides which API writes succeed and what every outside call answers. A crash is
 * an environment in which all later writes fail; a write against a stale object is a failed write.
 */
module Controller {
  import opened Api
  import SM = ServiceManager

  datatype Role = PrimaryRole | FailoverRole

  /** `signaler` and `syncer` say whether those optional collaborators are configured. */
  datatype Config = Config(role: Role, id: string, signaler: bool, syncer: bool)

  // ----- The environment of one reconcile -----

  datatype ExecResult = ExecError | ExecResult(completed: bool, succeeded: bool, jobName: string, message: string)

  datatype SignalResult = SignalError | Signaled(nodes: seq<string>)

  datatype AckResult = AckError | Acks(allAcked: bool, acked: seq<string>)

  datatype RemoteState = RemoteState(
    failoverActive: bool,
    activeCluster: string,
    activeGeneration: int,
    specChangeTime: Option<Time>)

  datatype SyncResult = SyncError | LocalStands | RemoteWins(state: RemoteState)

  datatype Env = Env(
    now: Time,
    // which writes succeed
    idWrite: bool,          // cluster-ID annotation
    annotationWrite: bool,  // removal of the force-advance annotation
    statusWrite: bool,      // the main status update
    specWrite: bool,        // spec update that adopts the remote value
    adoptWrite: bool,       // status update after adopting
    beginWrite: bool,       // status update that starts a transition
    eventUpdate: bool,      // read and update of the transition's event
    eventCreate: bool,      // creation of a new event
    eventStatus: bool,      // first status update of a new event
    serviceWrites: nat,     // writes of the service manager
    // what the collaborators answer
    exec: ExecResult,
    token: Token,
    signal: SignalResult,
    acks: AckResult,
    sync: SyncResult)

  // ----- State and outcome -----

  datatype Cluster = Cluster(fs: FailoverService, store: SM.Store, events: map<EventName, Event>)

  /** The outside calls a reconcile made, with the arguments it passed; `jobs` are those it asked to delete. */
  datatype ExecCall = ExecCall(action: Action, isPre: bool, index: int, transition: Transition)
  datatype SignalCall = SignalCall(ip: Address, token: Token)
  datatype AckCall = AckCall(token: Token, nodes: seq<string>)
  datatype SyncView = SyncView(failoverActive: bool, activeGeneration: int, specChangeTime: Option<Time>)

  datatype Calls = Calls(
    exec: Option<ExecCall>,
    signal: Option<SignalCall>,
    acks: Option<AckCall>,
    cleanup: bool,
    jobs: Option<seq<string>>,
    sync: Option<SyncView>)

  const NoCalls := Calls(None, None, None, false, None, None)

  /** `completed`: this reconcile persisted the completion of the transition it found in flight. */
  datatype Outcome = Outcome(cluster: Cluster, calls: Calls, completed: bool)

  function Stop(c: Cluster, calls: Calls): Outcome { Outcome(c, calls, false) }

  function SetStatus(c: Cluster, s: Status): Cluster {
    c.(fs := c.fs.(status := s))
  }

  function SetTransition(c: Cluster, t: Transition): Cluster {
    SetStatus(c, c.fs.status.(transition := Some(t)))
  }

  /** A status update that persists `t` if it succeeds. */
  function Save(c: Cluster, t: Transition, ok: bool): Cluster {
    if ok then SetTransition(c, t) else c
  }

  // ----- Lookups -----

  function Target(cfg: Config, spec: Spec): ClusterTarget {
    if cfg.role == PrimaryRole then spec.primaryCluster else spec.failoverCluster
  }

  function HooksFor(cfg: Config, spec: Spec, d: Direction): Hooks {
    var h := if d == Failover then Target(cfg, spec).onFailover else Target(cfg, spec).onFailback;
    if h.Some? then h.value else Hooks([], [])
  }

  function ActionsFor(cfg: Config, spec: Spec, d: Direction, isPre: bool): seq<Action> {
    if isPre then HooksFor(cfg, spec, d).preActions else HooksFor(cfg, spec, d).postActions
  }

  /** The address the managed Service uses for a given failover state. */
  function Resolve(cfg: Config, spec: Spec, failoverActive: bool): Address {
    if failoverActive then Target(cfg, spec).failoverModeAddress else Target(cfg, spec).primaryModeAddress
  }

  function NewAddress(cfg: Config, spec: Spec, t: Transition): Address {
    if t.newAddress.Some? then t.newAddress.value else Resolve(cfg, spec, t.direction == Failover)
  }

  function OldAddress(cfg: Config, spec: Spec, t: Transition): Address {
    if t.oldAddress.Some? then t.oldAddress.value else Resolve(cfg, spec, t.direction == Failback)
  }

  function MaxRetries(a: Action): int {
    if a.maxRetries.Some? then a.maxRetries.value else 5
  }

  /** The controller-level deadline of an action, if its kind has one. */
  function Deadline(a: Action): Option<int> {
    match a.kind
    case WaitReady(timeout) => Some(if timeout.Some? then timeout.value else 300)
    case Scale(waitReady, timeout) => if waitReady then Some(if timeout.Some? then timeout.value else 300) else None
    case WaitRemote(_, _, timeout) => Some(if timeout.Some? then timeout.value else 300)
    case _ => None
  }

  predicate Overdue(a: Action, r: ActionResult, now: Time) {
    Deadline(a).Some? && r.startedAt.Some? && now > r.startedAt.value + Deadline(a).value
  }

  // ----- Events -----

  predicate Replaces(current: EventOutcome, outcome: EventOutcome) {
    || current == Unset || current == InProgress
    || (current == EventFailed && outcome == EventForceAdvanced)
    || (current == EventForceAdvanced && outcome in {EventFailed, EventSucceeded})
  }

  function UpdateEvent(
    events: map<EventName, Event>, t: Transition, outcome: EventOutcome, generation: int, e: Env): map<EventName, Event>
  {
    if t.eventName !in events || !e.eventUpdate || !Replaces(events[t.eventName].outcome, outcome) then events
    else
      var event := events[t.eventName];
      var kept := outcome == EventSucceeded && event.outcome == EventForceAdvanced;
      events[t.eventName := event.(
        pre := t.pre,
        post := t.post,
        outcome := if kept then EventForceAdvanced else outcome,
        generationAfter := generation,
        completedAt := if outcome == EventForceAdvanced then event.completedAt else Some(e.now))]
  }

  function CreateEvent(c: Cluster, t: Transition, trigger: Trigger, e: Env): map<EventName, Event> {
    if t.eventName in c.events || !e.eventCreate then c.events
    else
      var created := Event(c.fs.name, t.direction, trigger, e.now, None, None, Unset, [], [], 0, 0);
      c.events[t.eventName :=
        if e.eventStatus then
          created.(startedAt := Some(e.now), outcome := InProgress, generationBefore := c.fs.status.activeGeneration)
        else created]
  }

  // ----- Starting a transition -----

  function NewResults(actions: seq<Action>): (r: seq<ActionResult>)
    ensures |r| == |actions|
  {
    seq(|actions|, i requires 0 <= i < |actions| => ActionResult(actions[i].name, Pending, NoNote, None, None, "", 0))
  }

  function NewTransition(cfg: Config, spec: Spec, now: Time): Transition {
    var d := DirectionOf(spec.failoverActive);
    var hooks := HooksFor(cfg, spec, d);
    Transition(
      if hooks.preActions != [] then ExecutingPreActions else UpdatingResources,
      d,
      Some(Resolve(cfg, spec, !spec.failoverActive)),
      Some(Resolve(cfg, spec, spec.failoverActive)),
      now,
      0,
      NewResults(hooks.preActions),
      NewResults(hooks.postActions),
      Some(now),
      None,
      EventName(d, now))
  }

  /** `status` is the in-memory status that the starting write persists. */
  function Begin(cfg: Config, c: Cluster, status: Status, trigger: Trigger, e: Env): Cluster {
    if !e.beginWrite then c
    else
      var t := NewTransition(cfg, c.fs.spec, e.now);
      var started := SetStatus(c, status.(transition := Some(t)));
      started.(events := CreateEvent(started, t, trigger, e))
  }

  // ----- Action phases -----

  function Results(t: Transition, isPre: bool): seq<ActionResult> {
    if isPre then t.pre else t.post
  }

  function SetResult(t: Transition, isPre: bool, i: int, r: ActionResult): Transition
    requires 0 <= i < |Results(t, isPre)|
  {
    if isPre then t.(pre := t.pre[i := r]) else t.(post := t.post[i := r])
  }

  datatype Decision =
    | Commit(transition: Transition)
    | Execute(action: Action)
    | HaltOnFailure(transition: Transition)
    | Finish

  /** What an action phase does next, before any executor is called. */
  function Decide(actions: seq<Action>, t: Transition, isPre: bool, now: Time): Decision {
    var u := if t.index < 0 then t.(index := 0) else t;
    var i := u.index;
    if i >= |actions| || i >= |Results(u, isPre)| then
      if isPre then Commit(u.(phase := UpdatingResources, index := 0)) else Finish
    else
      var r := Results(u, isPre)[i];
      match r.status
      case Succeeded => Commit(u.(index := i + 1))
      case Skipped => Commit(u.(index := i + 1))
      case Failed =>
        if actions[i].ignoreFailure then
          Commit(SetResult(u, isPre, i, r.(status := Skipped, completedAt := Some(now))).(index := i + 1))
        else HaltOnFailure(u)
      case Pending => Commit(SetResult(u, isPre, i, r.(status := Running, startedAt := Some(now))))
      case Running =>
        if Overdue(actions[i], r, now) then
          Commit(SetResult(u, isPre, i, r.(status := Failed, completedAt := Some(now), note := TimedOut)))
        else Execute(actions[i])
  }

  /** The action's result after the executor answered. */
  function Executed(a: Action, r: ActionResult, x: ExecResult, now: Time): ActionResult {
    match x
    case ExecError =>
      if r.retryCount + 1 > MaxRetries(a) then
        r.(retryCount := r.retryCount + 1, status := Failed, completedAt := Some(now), note := RetriesExhausted)
      else r.(retryCount := r.retryCount + 1, note := Retrying)
    case ExecResult(completed, succeeded, jobName, message) =>
      var s := r.(jobName := jobName, note := FromExecutor(message));
      if !completed then s
      else s.(completedAt := Some(now), status := if succeeded then Succeeded else Failed)
  }

  function AfterExecution(t: Transition, isPre: bool, a: Action, x: ExecResult, now: Time): Transition
    requires 0 <= t.index < |Results(t, isPre)|
  {
    var r := Executed(a, Results(t, isPre)[t.index], x, now);
    var u := SetResult(t, isPre, t.index, r);
    if r.status == Succeeded then u.(index := t.index + 1) else u
  }

  function ExecuteActionPhase(cfg: Config, c: Cluster, isPre: bool, e: Env): Outcome
    requires c.fs.status.transition.Some?
  {
    var t := c.fs.status.transition.value;
    Act(cfg, c, t, isPre, Decide(ActionsFor(cfg, c.fs.spec, t.direction, isPre), t, isPre, e.now), e)
  }

  function Act(cfg: Config, c: Cluster, t: Transition, isPre: bool, d: Decision, e: Env): Outcome
    requires d.Execute? ==> t.index < |Results(t, isPre)| && Results(t, isPre) != []
  {
    match d
    case Commit(u) => Stop(Save(c, u, e.statusWrite), NoCalls)
    case HaltOnFailure(u) =>
      var noted := c.(events := UpdateEvent(c.events, t, EventFailed, c.fs.status.activeGeneration, e));
      Stop(Save(noted, u, e.statusWrite), NoCalls)
    case Execute(a) =>
      var u := if t.index < 0 then t.(index := 0) else t;
      Stop(Save(c, AfterExecution(u, isPre, a, e.exec, e.now), e.statusWrite),
           NoCalls.(exec := Some(ExecCall(a, isPre, u.index, u))))
    case Finish => Complete(cfg, c, t, NoCalls, e)
  }

  // ----- Resource update and connection flush -----

  function UpdateResources(cfg: Config, c: Cluster, e: Env): Outcome
    requires c.fs.status.transition.Some?
  {
    var t := c.fs.status.transition.value;
    var attempt := SM.ReconcileWithAddress(c.fs.uid, c.fs.spec.ports, c.store, NewAddress(cfg, c.fs.spec, t), e.serviceWrites);
    var written := c.(store := attempt.store);
    if !attempt.ok then Stop(written, NoCalls)
    else Stop(Save(written, t.(phase := FlushingConnections, index := 0), e.statusWrite), NoCalls)
  }

  predicate KillApplies(cfg: Config, spec: Spec, t: Transition) {
    cfg.signaler && OldAddress(cfg, spec, t).IsIP()
  }

  predicate SignalPending(t: Transition) {
    t.connectionKill.None? || !t.connectionKill.value.signalSent
  }

  function FlushConnections(cfg: Config, c: Cluster, e: Env): Outcome
    requires c.fs.status.transition.Some?
  {
    var t := c.fs.status.transition.value;
    if !KillApplies(cfg, c.fs.spec, t) then AfterFlush(cfg, c, t, NoCalls, e)
    else if SignalPending(t) then
      var calls := NoCalls.(signal := Some(SignalCall(OldAddress(cfg, c.fs.spec, t), e.token)));
      match e.signal
      case SignalError => Stop(c, calls)
      case Signaled(nodes) =>
        if nodes == [] then AfterFlush(cfg, c, t.(connectionKill := None), calls, e)
        else Stop(Save(c, t.(connectionKill := Some(ConnectionKill(true, e.token, nodes, []))), e.statusWrite), calls)
    else
      var ck := t.connectionKill.value;
      var calls := NoCalls.(acks := Some(AckCall(ck.token, ck.expectedNodes)));
      match e.acks
      case AckError => Stop(c, calls)
      case Acks(allAcked, acked) =>
        var u := t.(connectionKill := Some(ck.(ackedNodes := acked)));
        if allAcked then AfterFlush(cfg, c, u, calls, e)
        else Stop(Save(c, u, e.statusWrite), calls)
  }

  /** `t` is the in-memory transition. */
  function AfterFlush(cfg: Config, c: Cluster, t: Transition, calls: Calls, e: Env): Outcome {
    if ActionsFor(cfg, c.fs.spec, t.direction, false) != [] then
      Stop(Save(c, t.(phase := ExecutingPostActions, index := 0), e.statusWrite), calls)
    else Complete(cfg, c, t, calls, e)
  }

  // ----- Completion, remote adoption and steady state -----

  /** Status after adopting the remote winner; `previous` keeps transition detection alive. */
  function Adopted(s: Status, r: RemoteState, previous: bool): Status {
    s.(lastKnown := Some(previous),
       specChangeTime := r.specChangeTime,
       activeGeneration := r.activeGeneration,
       activeCluster := if r.activeCluster != "" then r.activeCluster else s.activeCluster)
  }

  function SetFailoverActive(c: Cluster, active: bool): Cluster {
    c.(fs := c.fs.(spec := c.fs.spec.(failoverActive := active)))
  }

  /** The jobs recorded in a list of results. */
  function JobNames(rs: seq<ActionResult>): seq<string> {
    if rs == [] then []
    else
      var init, last := rs[..|rs| - 1], rs[|rs| - 1];
      JobNames(init) + if last.jobName != "" then [last.jobName] else []
  }

  function Complete(cfg: Config, c: Cluster, t: Transition, calls: Calls, e: Env): Outcome {
    var done := t.direction == Failover;
    var s := c.fs.status.(
      lastKnown := Some(done),
      transition := None,
      activeGeneration := c.fs.status.activeGeneration + 1,
      activeCluster := cfg.id);
    var view := SyncView(c.fs.spec.failoverActive, s.activeGeneration, s.specChangeTime);
    var made := calls.(
      cleanup := cfg.signaler, jobs := Some(JobNames(t.pre + t.post)), sync := if cfg.syncer then Some(view) else None);
    if cfg.syncer && e.sync.RemoteWins? then CompleteAdopting(cfg, c, t, made, e)
    else CompleteLocally(c, t, s, made, e)
  }

  /** `s` is the in-memory status that the completing write persists. */
  function CompleteLocally(c: Cluster, t: Transition, s: Status, calls: Calls, e: Env): Outcome {
    if !e.statusWrite then Stop(c, calls)
    else
      var saved := SetStatus(c, s);
      Outcome(saved.(events := UpdateEvent(saved.events, t, EventSucceeded, s.activeGeneration, e)), calls, true)
  }

  function CompleteAdopting(cfg: Config, c: Cluster, t: Transition, calls: Calls, e: Env): Outcome
    requires e.sync.RemoteWins?
  {
    var done := t.direction == Failover;
    var r := e.sync.state;
    if !e.specWrite then Stop(c, calls)
    else
      var flipped := SetFailoverActive(c, r.failoverActive);
      var s := Adopted(flipped.fs.status, r, done).(transition := None);
      if !e.adoptWrite then Stop(flipped, calls)
      else
        var adopted := SetStatus(flipped, s);
        var noted := adopted.(events := UpdateEvent(adopted.events, t, EventSucceeded, s.activeGeneration, e));
        Outcome(if done != r.failoverActive then Begin(cfg, noted, s, RemoteSync, e) else noted, calls, true)
  }

  function SteadyState(cfg: Config, c: Cluster, e: Env): Outcome {
    var current := c.fs.spec.failoverActive;
    var view := SyncView(current, c.fs.status.activeGeneration, c.fs.status.specChangeTime);
    var calls := NoCalls.(sync := if cfg.syncer then Some(view) else None);
    if cfg.syncer && e.sync.RemoteWins? then
      if !e.specWrite then Stop(c, calls)
      else
        var flipped := SetFailoverActive(c, e.sync.state.failoverActive);
        var s := Adopted(flipped.fs.status, e.sync.state, current);
        if !e.adoptWrite then Stop(flipped, calls)
        else
          var adopted := SetStatus(flipped, s);
          Stop(if current != e.sync.state.failoverActive then Begin(cfg, adopted, s, RemoteSync, e) else adopted, calls)
    else if !e.statusWrite then Stop(c, calls)
    else Stop(SetStatus(c, c.fs.status.(lastKnown := Some(current))), calls)
  }

  predicate FlipPending(fs: FailoverService) {
    fs.status.lastKnown.Some? && fs.status.lastKnown.value != fs.spec.failoverActive
  }

  function ReconcileIdle(cfg: Config, c: Cluster, e: Env): Outcome {
    if FlipPending(c.fs) then
      Stop(Begin(cfg, c, c.fs.status.(specChangeTime := Some(e.now)), Manual, e), NoCalls)
    else
      var address := Resolve(cfg, c.fs.spec, c.fs.spec.failoverActive);
      var attempt := SM.ReconcileWithAddress(c.fs.uid, c.fs.spec.ports, c.store, address, e.serviceWrites);
      var written := c.(store := attempt.store);
      if !attempt.ok then Stop(written, NoCalls) else SteadyState(cfg, written, e)
  }

  // ----- Force-advance -----

  function SkipCurrent(t: Transition, isPre: bool, now: Time): Transition {
    if 0 <= t.index < |Results(t, isPre)| then
      var r := Results(t, isPre)[t.index].(status := Skipped, completedAt := Some(now), note := ForcedByOperator);
      SetResult(t, isPre, t.index, r).(index := t.index + 1)
    else t
  }

  function Advanced(t: Transition, now: Time): Transition {
    match t.phase
    case Idle => t
    case ExecutingPreActions => SkipCurrent(t, true, now)
    case UpdatingResources => t.(phase := FlushingConnections, index := 0)
    case FlushingConnections => t.(phase := ExecutingPostActions, index := 0)
    case ExecutingPostActions => SkipCurrent(t, false, now)
  }

  function ForceAdvance(c: Cluster, e: Env): Cluster {
    if c.fs.status.transition.None? then c.(fs := c.fs.(forceAdvance := !e.annotationWrite))
    else
      var t := c.fs.status.transition.value;
      var noted := c.(events := UpdateEvent(c.events, t, EventForceAdvanced, c.fs.status.activeGeneration, e));
      if !e.statusWrite then noted
      else
        var saved := SetTransition(noted, Advanced(t, e.now));
        saved.(fs := saved.fs.(forceAdvance := !e.annotationWrite))
  }

  // ----- One reconcile -----

  function Dispatch(cfg: Config, c: Cluster, e: Env): Outcome {
    if c.fs.status.transition.None? then ReconcileIdle(cfg, c, e)
    else
      match c.fs.status.transition.value.phase
      case Idle => ReconcileIdle(cfg, c, e)
      case ExecutingPreActions => ExecuteActionPhase(cfg, c, true, e)
      case UpdatingResources => UpdateResources(cfg, c, e)
      case FlushingConnections => FlushConnections(cfg, c, e)
      case ExecutingPostActions => ExecuteActionPhase(cfg, c, false, e)
  }

  function Reconcile(cfg: Config, c: Cluster, e: Env): Outcome {
    if c.fs.clusterID != cfg.id && !e.idWrite then Stop(c, NoCalls)
    else
      var stamped := c.(fs := c.fs.(clusterID := cfg.id));
      if stamped.fs.forceAdvance then Stop(ForceAdvance(stamped, e), NoCalls)
      else Dispatch(cfg, stamped, e)
  }

  // ----- Runs of one cluster -----

  /**
   * What happens to a cluster between two looks at it: its controller reconciles, or somebody else
   * (a user, or the other cluster's controller) writes the spec or the force-advance annotation.
   */
  datatype Label = Reconciles(env: Env) | Edits(spec: Spec, forceAdvance: bool)

  function Step(cfg: Config, c: Cluster, l: Label): Cluster {
    match l
    case Reconciles(e) => Reconcile(cfg, c, e).cluster
    case Edits(spec, forceAdvance) => c.(fs := c.fs.(spec := spec, forceAdvance := forceAdvance))
  }

  predicate IsRun(cfg: Config, cs: seq<Cluster>, ls: seq<Label>) {
    |cs| == |ls| + 1 && forall i {:trigger ls[i]} :: 0 <= i < |ls| ==> cs[i + 1] == Step(cfg, cs[i], ls[i])
  }
}
