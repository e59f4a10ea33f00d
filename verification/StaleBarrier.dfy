/**
 * A run in which the barrier is passed on a remote transition that began before the local one, because the
 * write of its start was lost.
 */
module StaleBarrier {
  import opened Api
  import opened Controller
  import opened Progress
  import opened Syncer
  import opened Pair
  import Barrier
  import Traffic
  import Wait = WaitRemote
  import SM = ServiceManager

  // ----- The two clusters -----

  const HERE := Hostname("here.example")
  const THERE := Hostname("there.example")
  const WAIT := Action("wait", WaitRemote(Some(UpdatingResources), None, None), false, None)
  const EARLY := EventName(Failover, 1)

  function East(): Config { Config(PrimaryRole, "east", false, true) }
  function West(): Config { Config(FailoverRole, "west", false, true) }
  function Both(): Setup { Setup(East(), West()) }

  function Shared(): Spec {
    Spec(true, [], ClusterTarget(HERE, THERE, Some(Hooks([WAIT], [])), None), ClusterTarget(HERE, THERE, None, None))
  }

  function StoreAt(a: Address): SM.Store {
    SM.Store(Some(SM.Service(SM.ExternalName, a.text, [], ["uid"])), None)
  }

  /** The waiting cluster; its transition starts at 3. */
  function Waiting(phase: Phase, index: int, r: ActionResult): Cluster {
    EastOf(Some(3), Some(Transition(phase, Failover, Some(HERE), Some(THERE), 3, index, [r], [], Some(3), None, EventName(Failover, 3))))
  }

  function EastOf(changed: Option<Time>, t: Option<Transition>): Cluster {
    Cluster(FailoverService("db", "uid", Shared(), false, "east", Status(Some(false), changed, 0, "", t)), StoreAt(HERE), map[])
  }

  function Result(status: ActionStatus, note: Note, start: Option<Time>, end: Option<Time>): ActionResult {
    ActionResult("wait", status, note, start, end, "", 0)
  }

  /** The remote cluster; its transition starts at 1. */
  function Moving(phase: Phase, at: Address): Cluster {
    var t := Transition(phase, Failover, Some(HERE), Some(THERE), 1, 0, [], [], Some(1), None, EARLY);
    WestOf(Status(Some(false), Some(1), 0, "", Some(t)), at, map[EARLY := Unstarted()])
  }

  function WestOf(s: Status, at: Address, events: map<EventName, Event>): Cluster {
    Cluster(FailoverService("db", "uid", Shared(), false, "west", s), StoreAt(at), events)
  }

  /** The event as it is created; the write of its start is lost. */
  function Unstarted(): Event {
    Event("db", Failover, Manual, 1, None, None, Unset, [], [], 0, 0)
  }

  function Ended(): Event {
    Unstarted().(completedAt := Some(5), outcome := EventSucceeded, generationAfter := 1)
  }

  function Done(): Cluster {
    WestOf(Status(Some(true), Some(1), 1, "west", None), THERE, map[EARLY := Ended()])
  }

  /** Everything succeeds, except that a new event does not get its start. */
  function EnvAt(now: Time, createEvent: bool, x: ExecResult): Env {
    Env(now, true, true, true, true, true, true, true, createEvent, false, 4, x, 0, SignalError, AckError, LocalStands)
  }

  function Fulfilled(): ExecResult { ExecResult(true, true, "", "done") }

  // ----- The reconciles -----

  lemma WestMoves()
    ensures var o := Reconcile(West(), WestOf(Status(Some(false), None, 0, "", None), HERE, map[]), EnvAt(1, true, ExecError));
            o.calls == NoCalls && o.cluster == Moving(UpdatingResources, HERE)
    ensures var o := Reconcile(West(), Moving(UpdatingResources, HERE), EnvAt(4, true, ExecError));
            o.calls == NoCalls && o.cluster == Moving(FlushingConnections, THERE)
  {
    assert NewResults([]) == [];
  }

  lemma WestCompletes()
    ensures var o := Reconcile(West(), Moving(FlushingConnections, THERE), EnvAt(5, true, ExecError));
            && o.calls == NoCalls.(jobs := Some([]), sync := Some(SyncView(true, 1, Some(1))))
            && o.cluster == Done()
  {
    var none: seq<ActionResult> := [];
    assert none + none == none && JobNames(none) == [];
  }

  lemma EastMoves()
    ensures var o := Reconcile(East(), EastOf(None, None), EnvAt(3, false, ExecError));
            o.calls == NoCalls && o.cluster == Waiting(ExecutingPreActions, 0, Result(Pending, NoNote, None, None))
    ensures var o := Reconcile(East(), Waiting(ExecutingPreActions, 0, Result(Pending, NoNote, None, None)), EnvAt(6, false, ExecError));
            o.calls == NoCalls && o.cluster == Waiting(ExecutingPreActions, 0, Result(Running, NoNote, Some(6), None))
  {
    assert NewResults([]) == [];
    assert NewResults([WAIT]) == [Result(Pending, NoNote, None, None)];
    assert [Result(Pending, NoNote, None, None)][0 := Result(Running, NoNote, Some(6), None)] == [Result(Running, NoNote, Some(6), None)];
  }

  function Passed(): ActionResult { Result(Succeeded, FromExecutor("done"), Some(6), Some(7)) }

  lemma EastPasses()
    ensures var c := Waiting(ExecutingPreActions, 0, Result(Running, NoNote, Some(6), None));
            var o := Reconcile(East(), c, EnvAt(7, false, Fulfilled()));
            && o.calls == NoCalls.(exec := Some(ExecCall(WAIT, true, 0, c.fs.status.transition.value)))
            && o.cluster == Waiting(ExecutingPreActions, 1, Passed())
    ensures var o := Reconcile(East(), Waiting(ExecutingPreActions, 1, Passed()), EnvAt(8, false, ExecError));
            o.calls == NoCalls && o.cluster == Waiting(UpdatingResources, 0, Passed())
  {
    assert [Result(Running, NoNote, Some(6), None)][0 := Passed()] == [Passed()];
  }

  // ----- The run -----

  function Net(events: seq<Event>): Network { Network(true, true, true, events) }

  function Worlds(): seq<World> {
    var pending := Waiting(ExecutingPreActions, 0, Result(Pending, NoNote, None, None));
    [ World(EastOf(None, None), WestOf(Status(Some(false), None, 0, "", None), HERE, map[])),
      World(EastOf(None, None), Moving(UpdatingResources, HERE)),
      World(pending, Moving(UpdatingResources, HERE)),
      World(pending, Moving(FlushingConnections, THERE)),
      World(pending, Done()),
      World(Waiting(ExecutingPreActions, 0, Result(Running, NoNote, Some(6), None)), Done()),
      World(Waiting(ExecutingPreActions, 1, Passed()), Done()),
      World(Waiting(UpdatingResources, 0, Passed()), Done()) ]
  }

  function Labels(): seq<WorldLabel> {
    [ Reconciling(SideB, EnvAt(1, true, ExecError), Net([])),
      Reconciling(SideA, EnvAt(3, false, ExecError), Net([Unstarted()])),
      Reconciling(SideB, EnvAt(4, true, ExecError), Net([])),
      Reconciling(SideB, EnvAt(5, true, ExecError), Net([])),
      Reconciling(SideA, EnvAt(6, false, ExecError), Net([Ended()])),
      Reconciling(SideA, EnvAt(7, false, Fulfilled()), Net([Ended()])),
      Reconciling(SideA, EnvAt(8, false, ExecError), Net([Ended()])) ]
  }

  lemma ListsOne(e: Event)
    ensures Lists([e], map[EARLY := e]) && Lists([], map[])
  {
    var events := map[EARLY := e];
    assert EARLY in events && events[EARLY] == e;
    assert e in events.Values;
  }

  /** A reconcile without outside calls. */
  lemma QuietStep(w: World, s: Side, e: Env, net: Network)
    requires Reconcile(Both().Of(s), w.Of(s), e).calls == NoCalls && Lists(net.events, w.Of(Other(s)).events)
    ensures Enabled(Both(), w, Reconciling(s, e, net))
    ensures WorldStep(Both(), w, Reconciling(s, e, net)) == Put(s, Reconcile(Both().Of(s), w.Of(s), e).cluster, w.Of(Other(s)))
  {
    hide Reconcile;
  }

  lemma StepsBefore()
    ensures forall i :: 0 <= i < 3 ==>
              Enabled(Both(), Worlds()[i], Labels()[i]) && Worlds()[i + 1] == WorldStep(Both(), Worlds()[i], Labels()[i])
  {
    WestMoves();
    EastMoves();
    ListsOne(Unstarted());
    hide Reconcile, Lists, Enabled, WorldStep;
    var ws, ls := Worlds(), Labels();
    QuietStep(ws[0], SideB, ls[0].env, ls[0].net);
    QuietStep(ws[1], SideA, ls[1].env, ls[1].net);
    QuietStep(ws[2], SideB, ls[2].env, ls[2].net);
  }

  lemma StepCompletes()
    ensures Enabled(Both(), Worlds()[3], Labels()[3]) && Worlds()[4] == WorldStep(Both(), Worlds()[3], Labels()[3])
  {
    WestCompletes();
    ListsOne(Unstarted());
    hide Reconcile, Lists;
  }

  /** The idle remote shows an event without a start, completed at 5: late enough for a start at 3. */
  lemma WaitIsFulfilled()
    ensures Wait.Execute(WAIT.kind, true, Done().fs, [Ended()], Some(3), Some(Failover)) == Wait.Fulfilled
  {
    assert [Ended()][..0] == [];
  }

  lemma StepPasses()
    ensures Enabled(Both(), Worlds()[5], Labels()[5]) && Worlds()[6] == WorldStep(Both(), Worlds()[5], Labels()[5])
  {
    EastPasses();
    WaitIsFulfilled();
    ListsOne(Ended());
    hide Reconcile, Lists, Wait.Execute;
  }

  lemma StepsAround()
    ensures forall i :: i in {4, 6} ==>
              Enabled(Both(), Worlds()[i], Labels()[i]) && Worlds()[i + 1] == WorldStep(Both(), Worlds()[i], Labels()[i])
  {
    EastMoves();
    EastPasses();
    ListsOne(Ended());
    hide Reconcile, Lists, Enabled, WorldStep;
    var ws, ls := Worlds(), Labels();
    QuietStep(ws[4], SideA, ls[4].env, ls[4].net);
    QuietStep(ws[6], SideA, ls[6].env, ls[6].net);
  }

  lemma IsBarrierRun()
    ensures Barrier.BarrierRun(Both(), Worlds(), Labels(), SideA, Failover, 0)
  {
    StepsBefore();
    StepCompletes();
    StepsAround();
    StepPasses();
    hide Enabled, WorldStep, Reconcile;
    var ws, ls := Worlds(), Labels();
    assert forall i {:trigger ls[i]} :: 0 <= i < |ls| ==> i < 3 || i == 3 || i in {4, 6} || i == 5;
    StartIsFit();
  }

  lemma StartIsFit()
    ensures var w := Worlds()[0];
            && Barrier.StartsAtRest(w.a) && Barrier.StartsAtRest(w.b)
            && Traffic.TrafficInv(East(), w.a) && Barrier.WaitsIn(East(), w.a.fs.spec, Failover, 0)
  {
  }

  /** The waiting cluster, started at 3, leaves its pre-actions, and no remote transition began that late. */
  lemma BarrierIsPassedEarly()
    ensures Barrier.BarrierRun(Both(), Worlds(), Labels(), SideA, Failover, 0)
    ensures var t := Worlds()[7].a.fs.status.transition;
            t.Some? && t.value.phase == UpdatingResources && t.value.startedAt == Some(3)
    ensures forall n :: Barrier.CrossedBy(Worlds(), SideB, 7, n) ==> n.startedAt < 3
  {
    IsBarrierRun();
    forall n | Barrier.CrossedBy(Worlds(), SideB, 7, n) ensures n.startedAt < 3 {
      var j :| 0 <= j <= 7 && Barrier.Crossed(Worlds()[j].b, n);
    }
  }
}
