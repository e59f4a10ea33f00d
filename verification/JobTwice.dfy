/** A run in which an action runs its job twice: its hook list is emptied and restored around a lost write. */
module JobTwice {
  import opened Api
  import opened Controller
  import opened Progress
  import opened Jobs
  import SM = ServiceManager

  ghost predicate Reaches(h: Digest, w: World, v: World) {
    exists ws, ls :: IsJobRun(h, Cfg(), ws, ls) && ws[0] == w && ws[|ls|] == v
  }

  lemma ReachesItself(h: Digest, w: World)
    ensures Reaches(h, w, w)
  {
    assert IsJobRun(h, Cfg(), [w], []);
  }

  lemma ReachesNext(h: Digest, w: World, v: World, l: WorldLabel)
    requires Reaches(h, w, v) && Enabled(h, Cfg(), v, l)
    ensures Reaches(h, w, Next(h, Cfg(), v, l))
  {
    hide Enabled, Next;
    var ws, ls :| IsJobRun(h, Cfg(), ws, ls) && ws[0] == w && ws[|ls|] == v;
    var ws', ls' := ws + [Next(h, Cfg(), v, l)], ls + [l];
    forall i | 0 <= i < |ls'| ensures StepAt(h, Cfg(), ws', ls', i) {
      if i < |ls| {
        assert StepAt(h, Cfg(), ws, ls, i);
      }
    }
    assert IsJobRun(h, Cfg(), ws', ls');
  }

  // ----- The cluster -----

  const HERE := Hostname("here.example")
  const THERE := Hostname("there.example")
  const MIGRATE := Action("migrate", RunJob, false, None)

  function Cfg(): Config { Config(PrimaryRole, "east", false, false) }

  function SpecWith(hooked: bool): Spec {
    var target := ClusterTarget(HERE, THERE, Some(Hooks([], if hooked then [MIGRATE] else [])), None);
    Spec(true, [], target, target)
  }

  function ClusterOf(hooked: bool, at: Address, t: Option<Transition>): Cluster {
    var s := Status(Some(false), if t.Some? then Some(1) else None, 0, "", t);
    Cluster(FailoverService("db", "uid", SpecWith(hooked), false, "east", s),
            SM.Store(Some(SM.Service(SM.ExternalName, at.text, [], ["uid"])), None), map[])
  }

  function Moving(phase: Phase, r: ActionResult): Option<Transition> {
    Some(Transition(phase, Failover, Some(HERE), Some(THERE), 1, 0, [], [r], Some(1), None, EventName(Failover, 1)))
  }

  function Waiting(): ActionResult { ActionResult("migrate", Pending, NoNote, None, None, "", 0) }
  function Started(): ActionResult { ActionResult("migrate", Running, NoNote, Some(4), None, "", 0) }
  function Created(h: Digest): ActionResult {
    ActionResult("migrate", Running, FromExecutor("Job created"), Some(4), None, Name(h), 0)
  }

  function Name(h: Digest): string { JobName(h, NamePrefix("db", Failover, 1), 0) }

  function EnvAt(now: Time, x: ExecResult, statusWrite: bool): Env {
    Env(now, true, true, statusWrite, true, true, true, false, false, false, 4, x, 0, SignalError, AckError, SyncError)
  }

  function Fresh(h: Digest): ExecResult { ExecResult(false, false, Name(h), "Job created") }

  // ----- The reconciles -----

  lemma ToPost()
    ensures var o := Reconcile(Cfg(), ClusterOf(true, HERE, None), EnvAt(1, ExecError, true));
            o.calls == NoCalls && o.cluster == ClusterOf(true, HERE, Moving(UpdatingResources, Waiting()))
    ensures var o := Reconcile(Cfg(), ClusterOf(true, HERE, Moving(UpdatingResources, Waiting())), EnvAt(2, ExecError, true));
            o.calls == NoCalls && o.cluster == ClusterOf(true, THERE, Moving(FlushingConnections, Waiting()))
    ensures var o := Reconcile(Cfg(), ClusterOf(true, THERE, Moving(FlushingConnections, Waiting())), EnvAt(3, ExecError, true));
            o.calls == NoCalls && o.cluster == ClusterOf(true, THERE, Moving(ExecutingPostActions, Waiting()))
    ensures var o := Reconcile(Cfg(), ClusterOf(true, THERE, Moving(ExecutingPostActions, Waiting())), EnvAt(4, ExecError, true));
            o.calls == NoCalls && o.cluster == ClusterOf(true, THERE, Moving(ExecutingPostActions, Started()))
  {
    assert NewResults([MIGRATE]) == [Waiting()];
    assert NewResults([]) == [];
    assert [Waiting()][0 := Started()] == [Started()];
  }

  lemma Runs(h: Digest, r: ActionResult, now: Time)
    requires r == Started() || r == Created(h)
    ensures var t := Moving(ExecutingPostActions, r);
            var o := Reconcile(Cfg(), ClusterOf(true, THERE, t), EnvAt(now, Fresh(h), true));
            && o.calls == NoCalls.(exec := Some(ExecCall(MIGRATE, false, 0, t.value)))
            && o.cluster == ClusterOf(true, THERE, Moving(ExecutingPostActions, Created(h)))
  {
    hide JobName, NamePrefix;
    assert [r][0 := Created(h)] == [Created(h)];
  }

  /** The name is longer than nothing, so that the cleanup sees it. */
  lemma NameIsSomething(h: Digest)
    ensures Name(h) != ""
  {
    hide NamePrefix;
  }

  lemma CompletionIsLost(h: Digest)
    ensures var t := Moving(ExecutingPostActions, Created(h));
            var o := Reconcile(Cfg(), ClusterOf(false, THERE, t), EnvAt(6, ExecError, false));
            && o.calls == NoCalls.(jobs := Some([Name(h)]))
            && o.cluster == ClusterOf(false, THERE, t)
  {
    OneName(h);
    hide JobName, NamePrefix, JobNames;
    assert [] + [Created(h)] == [Created(h)];
  }

  lemma OneName(h: Digest)
    ensures JobNames([Created(h)]) == [Name(h)]
  {
    NameIsSomething(h);
    hide JobName, NamePrefix;
    assert [Created(h)][..0] == [];
    assert JobNames([Created(h)][..0]) == [];
  }

  // ----- The run -----

  function Quiet(now: Time): WorldLabel { Controls(EnvAt(now, ExecError, true), Fate(true, true, true), {}) }

  lemma QuietStep(h: Digest, v: World, now: Time)
    requires Reconcile(Cfg(), v.c, Quiet(now).env).calls == NoCalls
    ensures Enabled(h, Cfg(), v, Quiet(now))
    ensures Next(h, Cfg(), v, Quiet(now)) == v.(c := Reconcile(Cfg(), v.c, Quiet(now).env).cluster)
  {
    hide Reconcile;
  }

  function Executing(h: Digest, now: Time): WorldLabel { Controls(EnvAt(now, Fresh(h), true), Fate(true, true, true), {}) }

  /** Without the job there, the running action creates it. */
  lemma CreatingStep(h: Digest, v: World, r: ActionResult, now: Time)
    requires v.c == ClusterOf(true, THERE, Moving(ExecutingPostActions, r)) && (r == Started() || r == Created(h))
    requires v.jobs == map[]
    ensures Enabled(h, Cfg(), v, Executing(h, now))
    ensures var u := Next(h, Cfg(), v, Executing(h, now));
            && u.c == ClusterOf(true, THERE, Moving(ExecutingPostActions, Created(h)))
            && u.jobs.Keys == {Name(h)} && u.created == v.created + [Name(h)]
  {
    Runs(h, r, now);
    hide Reconcile, Shorten, NamePrefix;
  }

  function Losing(h: Digest): WorldLabel { Controls(EnvAt(6, ExecError, false), Fate(true, true, true), {Name(h)}) }

  lemma LosingStep(h: Digest, v: World)
    requires v.c == ClusterOf(false, THERE, Moving(ExecutingPostActions, Created(h))) && v.jobs.Keys == {Name(h)}
    ensures Enabled(h, Cfg(), v, Losing(h))
    ensures Next(h, Cfg(), v, Losing(h)) == v.(jobs := map[])
  {
    CompletionIsLost(h);
    hide Reconcile, Shorten, NamePrefix;
    assert v.jobs - {Name(h)} == map[];
  }

  function Start(): World { World(ClusterOf(true, HERE, None), map[], []) }

  lemma ToRunning(h: Digest)
    ensures Reaches(h, Start(), World(ClusterOf(true, THERE, Moving(ExecutingPostActions, Started())), map[], []))
  {
    ToPost();
    hide Reconcile, Reaches, Enabled, Next;
    var w := Start();
    ReachesItself(h, w);
    QuietStep(h, w, 1);
    ReachesNext(h, w, w, Quiet(1));
    var v1 := w.(c := ClusterOf(true, HERE, Moving(UpdatingResources, Waiting())));
    QuietStep(h, v1, 2);
    ReachesNext(h, w, v1, Quiet(2));
    var v2 := w.(c := ClusterOf(true, THERE, Moving(FlushingConnections, Waiting())));
    QuietStep(h, v2, 3);
    ReachesNext(h, w, v2, Quiet(3));
    var v3 := w.(c := ClusterOf(true, THERE, Moving(ExecutingPostActions, Waiting())));
    QuietStep(h, v3, 4);
    ReachesNext(h, w, v3, Quiet(4));
  }

  /** One transition, one action, one name, two jobs. */
  lemma TheSameJobTwice(h: Digest)
    ensures exists v :: Reaches(h, Start(), v) && v.created == [Name(h), Name(h)]
    ensures Inv(Start().c) && Start().created == []
  {
    hide Reconcile, Reaches, JobName;
    var w := Start();
    ToRunning(h);
    var v0 := World(ClusterOf(true, THERE, Moving(ExecutingPostActions, Started())), map[], []);
    CreatingStep(h, v0, Started(), 5);
    ReachesNext(h, w, v0, Executing(h, 5));
    var v1 := Next(h, Cfg(), v0, Executing(h, 5));
    ReachesNext(h, w, v1, EditsSpec(SpecWith(false), false));
    var v2 := Next(h, Cfg(), v1, EditsSpec(SpecWith(false), false));
    LosingStep(h, v2);
    ReachesNext(h, w, v2, Losing(h));
    var v3 := v2.(jobs := map[]);
    ReachesNext(h, w, v3, EditsSpec(SpecWith(true), false));
    var v4 := Next(h, Cfg(), v3, EditsSpec(SpecWith(true), false));
    CreatingStep(h, v4, Created(h), 7);
    ReachesNext(h, w, v4, Executing(h, 7));
    assert Next(h, Cfg(), v4, Executing(h, 7)).created == [Name(h), Name(h)];
  }
}
