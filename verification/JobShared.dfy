/** A run in which a post-action is answered with the job of the pre-action that shares its index. */
module JobShared {
  import opened Api
  import opened Controller
  import opened Progress
  import opened Jobs
  import JobTwice
  import SM = ServiceManager

  const HERE := Hostname("here.example")
  const THERE := Hostname("there.example")
  const DRAIN := Action("drain", RunJob, false, None)
  const WARM := Action("warm", RunJob, false, None)

  function Cfg(): Config { JobTwice.Cfg() }

  function Shared(): Spec {
    var target := ClusterTarget(HERE, THERE, Some(Hooks([DRAIN], [WARM])), None);
    Spec(true, [], target, target)
  }

  function ClusterOf(at: Address, t: Option<Transition>): Cluster {
    var s := Status(Some(false), if t.Some? then Some(1) else None, 0, "", t);
    Cluster(FailoverService("db", "uid", Shared(), false, "east", s),
            SM.Store(Some(SM.Service(SM.ExternalName, at.text, [], ["uid"])), None), map[])
  }

  function Moving(phase: Phase, index: int, pre: ActionResult, post: ActionResult): Option<Transition> {
    Some(Transition(phase, Failover, Some(HERE), Some(THERE), 1, index, [pre], [post], Some(1), None, EventName(Failover, 1)))
  }

  function Name(h: Digest): string { JobName(h, NamePrefix("db", Failover, 1), 0) }

  function Waiting(name: string): ActionResult { ActionResult(name, Pending, NoNote, None, None, "", 0) }
  function Started(name: string, now: Time): ActionResult { ActionResult(name, Running, NoNote, Some(now), None, "", 0) }
  function Created(h: Digest): ActionResult {
    ActionResult("drain", Running, FromExecutor("Job created"), Some(2), None, Name(h), 0)
  }
  function Ended(h: Digest, name: string, start: Time, end: Time): ActionResult {
    ActionResult(name, Succeeded, FromExecutor("Job completed successfully"), Some(start), Some(end), Name(h), 0)
  }

  function EnvAt(now: Time, x: ExecResult): Env {
    JobTwice.EnvAt(now, x, true)
  }

  function JustCreated(h: Digest): ExecResult { ExecResult(false, false, Name(h), "Job created") }
  function Complete(h: Digest): ExecResult { ExecResult(true, true, Name(h), "Job completed successfully") }

  // ----- The reconciles -----

  lemma ToDrain()
    ensures var o := Reconcile(Cfg(), ClusterOf(HERE, None), EnvAt(1, ExecError));
            o.calls == NoCalls && o.cluster == ClusterOf(HERE, Moving(ExecutingPreActions, 0, Waiting("drain"), Waiting("warm")))
    ensures var c := ClusterOf(HERE, Moving(ExecutingPreActions, 0, Waiting("drain"), Waiting("warm")));
            var o := Reconcile(Cfg(), c, EnvAt(2, ExecError));
            o.calls == NoCalls && o.cluster == ClusterOf(HERE, Moving(ExecutingPreActions, 0, Started("drain", 2), Waiting("warm")))
  {
    assert NewResults([DRAIN]) == [Waiting("drain")] && NewResults([WARM]) == [Waiting("warm")];
    assert [Waiting("drain")][0 := Started("drain", 2)] == [Started("drain", 2)];
  }

  lemma DrainRuns(h: Digest, r: ActionResult, x: ExecResult, now: Time, next: ActionResult)
    requires (r == Started("drain", 2) && x == JustCreated(h) && next == Created(h))
          || (r == Created(h) && x == Complete(h) && next == Ended(h, "drain", 2, now))
    ensures var t := Moving(ExecutingPreActions, 0, r, Waiting("warm"));
            var o := Reconcile(Cfg(), ClusterOf(HERE, t), EnvAt(now, x));
            && o.calls == NoCalls.(exec := Some(ExecCall(DRAIN, true, 0, t.value)))
            && o.cluster == ClusterOf(HERE, Moving(ExecutingPreActions, if x.completed then 1 else 0, next, Waiting("warm")))
  {
    hide JobName, NamePrefix;
    assert [r][0 := next] == [next];
  }

  lemma ToWarm(h: Digest, done: ActionResult)
    ensures var o := Reconcile(Cfg(), ClusterOf(HERE, Moving(ExecutingPreActions, 1, done, Waiting("warm"))), EnvAt(5, ExecError));
            o.calls == NoCalls && o.cluster == ClusterOf(HERE, Moving(UpdatingResources, 0, done, Waiting("warm")))
    ensures var o := Reconcile(Cfg(), ClusterOf(HERE, Moving(UpdatingResources, 0, done, Waiting("warm"))), EnvAt(6, ExecError));
            o.calls == NoCalls && o.cluster == ClusterOf(THERE, Moving(FlushingConnections, 0, done, Waiting("warm")))
    ensures var o := Reconcile(Cfg(), ClusterOf(THERE, Moving(FlushingConnections, 0, done, Waiting("warm"))), EnvAt(7, ExecError));
            o.calls == NoCalls && o.cluster == ClusterOf(THERE, Moving(ExecutingPostActions, 0, done, Waiting("warm")))
    ensures var o := Reconcile(Cfg(), ClusterOf(THERE, Moving(ExecutingPostActions, 0, done, Waiting("warm"))), EnvAt(8, ExecError));
            o.calls == NoCalls && o.cluster == ClusterOf(THERE, Moving(ExecutingPostActions, 0, done, Started("warm", 8)))
  {
    assert [Waiting("warm")][0 := Started("warm", 8)] == [Started("warm", 8)];
  }

  lemma WarmRuns(h: Digest, done: ActionResult)
    ensures var t := Moving(ExecutingPostActions, 0, done, Started("warm", 8));
            var o := Reconcile(Cfg(), ClusterOf(THERE, t), EnvAt(9, Complete(h)));
            && o.calls == NoCalls.(exec := Some(ExecCall(WARM, false, 0, t.value)))
            && o.cluster == ClusterOf(THERE, Moving(ExecutingPostActions, 1, done, Ended(h, "warm", 8, 9)))
  {
    hide JobName, NamePrefix;
    assert [Started("warm", 8)][0 := Ended(h, "warm", 8, 9)] == [Ended(h, "warm", 8, 9)];
  }

  // ----- The run -----

  function Executing(now: Time, x: ExecResult): WorldLabel { Controls(EnvAt(now, x), Fate(true, true, true), {}) }

  /** A reconcile that executes a job action, with the answer that the jobs give. */
  lemma ExecutingStep(h: Digest, v: World, now: Time, x: ExecResult, call: ExecCall)
    requires Reconcile(Cfg(), v.c, EnvAt(now, x)).calls == NoCalls.(exec := Some(call)) && call.action.kind.RunJob?
    requires call.index == 0 && call.transition.direction == Failover && call.transition.transitionID == 1 && v.c.fs.name == "db"
    requires x == Answer(v.jobs, Name(h), Fate(true, true, true))
    ensures Enabled(h, Cfg(), v, Executing(now, x))
    ensures var u := Next(h, Cfg(), v, Executing(now, x));
            && u.c == Reconcile(Cfg(), v.c, EnvAt(now, x)).cluster
            && (Name(h) in v.jobs ==> u == v.(c := u.c))
            && (Name(h) !in v.jobs ==> u.created == v.created + [Name(h)] && u.jobs.Keys == v.jobs.Keys + {Name(h)})
  {
    hide Reconcile, JobName, NamePrefix, Shorten, Verdict;
    assert v.jobs - {} == v.jobs;
  }

  function Start(): World { World(ClusterOf(HERE, None), map[], []) }

  function Finished(): Job { Job("", [Condition(JobComplete, true, "")]) }

  lemma JobSucceeds(h: Digest, jobs: JobMap)
    requires Name(h) in jobs && jobs[Name(h)] == Finished()
    ensures Answer(jobs, Name(h), Fate(true, true, true)) == Complete(h)
  {
    hide JobName, NamePrefix;
  }

  lemma QuietStep(h: Digest, w: World, v: World, now: Time)
    requires JobTwice.Reaches(h, w, v) && Reconcile(Cfg(), v.c, EnvAt(now, ExecError)).calls == NoCalls
    ensures JobTwice.Reaches(h, w, v.(c := Reconcile(Cfg(), v.c, EnvAt(now, ExecError)).cluster))
  {
    hide Reconcile, JobTwice.Reaches;
    JobTwice.QuietStep(h, v, now);
    JobTwice.ReachesNext(h, w, v, JobTwice.Quiet(now));
  }

  /** The pre-action's job is created, ends and succeeds. */
  lemma ToDrained(h: Digest) returns (v: World)
    ensures JobTwice.Reaches(h, Start(), v) && v.created == [Name(h)]
    ensures v.jobs == map[Name(h) := Finished()]
    ensures v.c == ClusterOf(HERE, Moving(ExecutingPreActions, 1, Ended(h, "drain", 2, 4), Waiting("warm")))
  {
    hide Reconcile, JobTwice.Reaches, JobName, NamePrefix, Enabled, Next, Answer;
    ToDrain();
    var w := Start();
    JobTwice.ReachesItself(h, w);
    QuietStep(h, w, w, 1);
    QuietStep(h, w, w.(c := ClusterOf(HERE, Moving(ExecutingPreActions, 0, Waiting("drain"), Waiting("warm")))), 2);
    var v1 := w.(c := ClusterOf(HERE, Moving(ExecutingPreActions, 0, Started("drain", 2), Waiting("warm"))));
    DrainRuns(h, Started("drain", 2), JustCreated(h), 3, Created(h));
    NoJobYet(h);
    ExecutingStep(h, v1, 3, JustCreated(h), ExecCall(DRAIN, true, 0, v1.c.fs.status.transition.value));
    JobTwice.ReachesNext(h, w, v1, Executing(3, JustCreated(h)));
    var v2 := Next(h, Cfg(), v1, Executing(3, JustCreated(h)));
    var v3 := v2.(jobs := map[Name(h) := Finished()]);
    JobEnds(h, v2, v3.jobs);
    JobTwice.ReachesNext(h, w, v2, JobsMoveOn(v3.jobs));
    JobSucceeds(h, v3.jobs);
    DrainRuns(h, Created(h), Complete(h), 4, Ended(h, "drain", 2, 4));
    ExecutingStep(h, v3, 4, Complete(h), ExecCall(DRAIN, true, 0, v3.c.fs.status.transition.value));
    JobTwice.ReachesNext(h, w, v3, Executing(4, Complete(h)));
    v := Next(h, Cfg(), v3, Executing(4, Complete(h)));
  }

  lemma NoJobYet(h: Digest)
    ensures Answer(map[], Name(h), Fate(true, true, true)) == JustCreated(h)
  {
  }

  lemma JobEnds(h: Digest, v: World, jobs: JobMap)
    requires jobs.Keys <= v.jobs.Keys
    ensures Enabled(h, Cfg(), v, JobsMoveOn(jobs)) && Next(h, Cfg(), v, JobsMoveOn(jobs)) == v.(jobs := jobs)
  {
  }

  predicate OneJobForTwo(h: Digest, v: World) {
    && v.created == [Name(h)]
    && v.c == ClusterOf(THERE, Moving(ExecutingPostActions, 1, Ended(h, "drain", 2, 4), Ended(h, "warm", 8, 9)))
  }

  /** The post-action succeeds at once, with the pre-action's job; a job of its own is never created. */
  lemma WarmIsNeverRun(h: Digest)
    ensures exists v :: JobTwice.Reaches(h, Start(), v) && OneJobForTwo(h, v)
    ensures Inv(Start().c) && Start().created == []
  {
    hide Reconcile, JobTwice.Reaches, JobName, NamePrefix, Enabled, Next, Answer;
    var w, done := Start(), Ended(h, "drain", 2, 4);
    var v0 := ToDrained(h);
    ToWarm(h, done);
    QuietStep(h, w, v0, 5);
    QuietStep(h, w, v0.(c := ClusterOf(HERE, Moving(UpdatingResources, 0, done, Waiting("warm")))), 6);
    QuietStep(h, w, v0.(c := ClusterOf(THERE, Moving(FlushingConnections, 0, done, Waiting("warm")))), 7);
    QuietStep(h, w, v0.(c := ClusterOf(THERE, Moving(ExecutingPostActions, 0, done, Waiting("warm")))), 8);
    var v1 := v0.(c := ClusterOf(THERE, Moving(ExecutingPostActions, 0, done, Started("warm", 8))));
    WarmRuns(h, done);
    JobSucceeds(h, v1.jobs);
    ExecutingStep(h, v1, 9, Complete(h), ExecCall(WARM, false, 0, v1.c.fs.status.transition.value));
    JobTwice.ReachesNext(h, w, v1, Executing(9, Complete(h)));
    assert OneJobForTwo(h, Next(h, Cfg(), v1, Executing(9, Complete(h))));
  }
}
