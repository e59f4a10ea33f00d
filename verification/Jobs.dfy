/** Job actions: names, idempotent creation, verdicts (internal/action/job.go). */
module Jobs {
  import opened Api
  import opened Controller
  import opened Progress

  const MAX_NAME := 63
  const HASH := 8

  /** The first four bytes of a digest in hexadecimal; nothing but its length is known. */
  type Digest = string -> string

  ghost predicate ValidDigest(h: Digest) {
    forall s {:trigger h(s)} :: |h(s)| == HASH
  }

  // ----- Names -----

  predicate AllDigits(s: string) {
    forall i :: 0 <= i < |s| ==> '0' <= s[i] <= '9'
  }

  function Decimal(n: nat): (s: string)
    ensures s != "" && AllDigits(s)
  {
    var digit := ['0' + (n % 10) as char];
    if n < 10 then digit else Decimal(n / 10) + digit
  }

  lemma {:induction false} DecimalInjective(m: nat, n: nat)
    requires Decimal(m) == Decimal(n)
    ensures m == n
  {
    var x, y := Decimal(m), Decimal(n);
    assert x[|x| - 1] == '0' + (m % 10) as char && y[|y| - 1] == '0' + (n % 10) as char;
    assert m % 10 == n % 10;
    if m >= 10 && n >= 10 {
      assert x[..|x| - 1] == Decimal(m / 10) && y[..|y| - 1] == Decimal(n / 10);
      DecimalInjective(m / 10, n / 10);
    }
  }

  /** Job names and label values longer than the limit are cut and end in a digest. */
  function Shorten(h: Digest, v: string): string {
    if |v| <= MAX_NAME then v else v[..MAX_NAME - 1 - HASH] + "-" + h(v)
  }

  function DirectionText(d: Direction): string {
    if d == Failover then "failover" else "failback"
  }

  function NamePrefix(service: string, d: Direction, id: nat): string {
    service + "-" + DirectionText(d) + "-" + Decimal(id)
  }

  function FullName(prefix: string, index: nat): string {
    prefix + "-action-" + Decimal(index)
  }

  function JobName(h: Digest, prefix: string, index: nat): string {
    Shorten(h, FullName(prefix, index))
  }

  lemma NamesFit(h: Digest, v: string)
    requires ValidDigest(h)
    ensures |Shorten(h, v)| <= MAX_NAME && (|v| <= MAX_NAME <==> Shorten(h, v) == v)
  {
  }

  /** Two digit strings, each followed by a dash, can be told apart from what follows. */
  lemma SplitAtDash(a: string, b: string, x: string, y: string)
    requires AllDigits(a) && AllDigits(b) && a + "-" + x == b + "-" + y
    ensures a == b && x == y
  {
    var s := a + "-" + x;
    assert s[|a|] == '-' && s[|b|] == '-';
    assert forall i :: 0 <= i < |a| ==> s[i] == a[i];
    assert forall i :: 0 <= i < |b| ==> s[i] == b[i];
    assert s[|a| + 1..] == x && s[|b| + 1..] == y;
  }

  function Rest(d: Direction, tail: string): string {
    DirectionText(d) + "-" + tail
  }

  /** Direction words have one length, so they can be told apart from what follows. */
  lemma DirectionsApart(d: Direction, d': Direction, tail: string, tail': string)
    requires Rest(d, tail) == Rest(d', tail')
    ensures d == d' && tail == tail'
  {
    var x, y := Rest(d, tail), Rest(d', tail');
    assert x[4] == DirectionText(d)[4] && y[4] == DirectionText(d')[4];
    assert x[9..] == tail && y[9..] == tail';
  }

  lemma FullNameParts(service: string, d: Direction, id: nat, i: nat)
    ensures FullName(NamePrefix(service, d, id), i) == service + "-" + Rest(d, Decimal(id) + "-" + ("action-" + Decimal(i)))
  {
    hide Decimal;
  }

  /** The names of one service's jobs that need no cutting are injective. */
  lemma NamesAreInjective(h: Digest, service: string, d: Direction, id: nat, i: nat, d': Direction, id': nat, i': nat)
    requires |FullName(NamePrefix(service, d, id), i)| <= MAX_NAME
    requires |FullName(NamePrefix(service, d', id'), i')| <= MAX_NAME
    requires JobName(h, NamePrefix(service, d, id), i) == JobName(h, NamePrefix(service, d', id'), i')
    ensures d == d' && id == id' && i == i'
  {
    hide Decimal, Rest;
    FullNameParts(service, d, id, i);
    FullNameParts(service, d', id', i');
    var tail, tail' := "action-" + Decimal(i), "action-" + Decimal(i');
    var x, y := Rest(d, Decimal(id) + "-" + tail), Rest(d', Decimal(id') + "-" + tail');
    SameEnd(service + "-", x, y);
    DirectionsApart(d, d', Decimal(id) + "-" + tail, Decimal(id') + "-" + tail');
    SplitAtDash(Decimal(id), Decimal(id'), tail, tail');
    SameEnd("action-", Decimal(i), Decimal(i'));
    DecimalInjective(id, id');
    DecimalInjective(i, i');
  }

  lemma SameEnd(head: string, x: string, y: string)
    requires head + x == head + y
    ensures x == y
  {
    assert (head + x)[|head|..] == x && (head + y)[|head|..] == y;
  }

  // ----- Verdicts -----

  datatype ConditionType = JobComplete | JobFailed | OtherCondition

  datatype Condition = Condition(kind: ConditionType, holds: bool, message: string)

  datatype Job = Job(owner: string, conditions: seq<Condition>)

  type JobMap = map<string, Job>

  predicate Decides(c: Condition) {
    c.holds && c.kind != OtherCondition
  }

  predicate FirstToDecide(conditions: seq<Condition>, i: nat)
    requires i < |conditions|
  {
    Decides(conditions[i]) && forall j :: 0 <= j < i ==> !Decides(conditions[j])
  }

  /** The first deciding condition decides. */
  function Verdict(conditions: seq<Condition>, name: string): ExecResult {
    if conditions == [] then ExecResult(false, false, name, "Job running")
    else if !Decides(conditions[0]) then Verdict(conditions[1..], name)
    else if conditions[0].kind == JobComplete then ExecResult(true, true, name, "Job completed successfully")
    else ExecResult(true, false, name, "Job failed: " + conditions[0].message)
  }

  /** A job has ended if some condition decides; it succeeded if the first one of these says complete. */
  lemma {:induction false} VerdictIsFirst(conditions: seq<Condition>, name: string)
    ensures var v := Verdict(conditions, name);
            && v.ExecResult? && v.jobName == name
            && (v.completed <==> exists i :: 0 <= i < |conditions| && Decides(conditions[i]))
            && (v.succeeded ==> v.completed)
            && forall i :: 0 <= i < |conditions| && FirstToDecide(conditions, i) ==>
                 && (v.succeeded <==> conditions[i].kind == JobComplete)
                 && (v.succeeded || v.message == "Job failed: " + conditions[i].message)
  {
    if conditions != [] {
      var rest := conditions[1..];
      VerdictIsFirst(rest, name);
      assert forall i :: 0 < i < |conditions| ==> conditions[i] == rest[i - 1];
      if !Decides(conditions[0]) {
        forall i | 0 <= i < |conditions| && FirstToDecide(conditions, i)
          ensures Verdict(conditions, name).succeeded <==> conditions[i].kind == JobComplete
          ensures !Verdict(conditions, name).succeeded ==>
                    Verdict(conditions, name).message == "Job failed: " + conditions[i].message
        {
          assert forall j :: 0 <= j < i - 1 ==> rest[j] == conditions[j + 1];
          assert FirstToDecide(rest, i - 1);
        }
      }
    }
  }

  /** Conditions that do not hold, or are of another kind, decide nothing. */
  lemma VerdictsSpelledOut(name: string)
    ensures var off, other := Condition(JobComplete, false, ""), Condition(OtherCondition, true, "");
            var done, failed := Condition(JobComplete, true, ""), Condition(JobFailed, true, "boom");
            && Verdict([off, other], name) == ExecResult(false, false, name, "Job running")
            && Verdict([off, other, failed, done], name) == ExecResult(true, false, name, "Job failed: boom")
            && Verdict([other, done, failed], name) == ExecResult(true, true, name, "Job completed successfully")
  {
    var off, other := Condition(JobComplete, false, ""), Condition(OtherCondition, true, "");
    var done, failed := Condition(JobComplete, true, ""), Condition(JobFailed, true, "boom");
    assert [off, other][1..] == [other] && [other][1..] == [];
    assert Verdict([other], name) == ExecResult(false, false, name, "Job running");
    assert [off, other, failed, done][1..] == [other, failed, done] && [other, failed, done][1..] == [failed, done];
    assert "Job failed: " + "boom" == "Job failed: boom";
    assert Verdict([other, failed, done], name) == Verdict([failed, done], name);
    assert [other, done, failed][1..] == [done, failed];
  }

  // ----- Execution -----

  /** How the API server treats one execution: a creation may land without its answer arriving. */
  datatype Fate = Fate(answered: bool, landed: bool, reported: bool)

  function Answer(jobs: JobMap, name: string, f: Fate): ExecResult {
    if !f.answered then ExecError
    else if name in jobs then Verdict(jobs[name].conditions, name)
    else if f.landed && f.reported then ExecResult(false, false, name, "Job created")
    else ExecError
  }

  predicate Creates(jobs: JobMap, name: string, f: Fate) {
    f.answered && name !in jobs && f.landed
  }

  function AfterExecute(h: Digest, jobs: JobMap, prefix: string, index: nat, f: Fate): JobMap {
    var name := JobName(h, prefix, index);
    if Creates(jobs, name, f) then jobs[name := Job(Shorten(h, prefix), [])] else jobs
  }

  /**
   * One execution in every case: it fails exactly if the lookup is not answered, or there is no job and its
   * creation was not confirmed; a confirmed creation is still running; and an existing job is left alone and
   * decides. The one thing it may add is the named job, without conditions, labelled with its transition.
   */
  lemma ExecutionLaw(h: Digest, jobs: JobMap, prefix: string, index: nat, f: Fate)
    requires ValidDigest(h)
    ensures var name := JobName(h, prefix, index);
            var x, after := Answer(jobs, name, f), AfterExecute(h, jobs, prefix, index, f);
            && (x.ExecError? <==> !f.answered || (name !in jobs && !(f.landed && f.reported)))
            && (x.ExecResult? ==> x.jobName == name)
            && (x.ExecResult? && name !in jobs ==> !x.completed)
            && (x.ExecResult? && name in jobs ==> x == Verdict(jobs[name].conditions, name))
            && (forall n :: n in jobs ==> n in after && after[n] == jobs[n])
            && (forall n :: n in after && n !in jobs ==>
                  n == name && f.answered && f.landed && after[n].conditions == []
                  && |after[n].owner| <= 63 && (|prefix| <= 63 ==> after[n].owner == prefix))
            && (f.answered && f.landed ==> name in after)
  {
    VerdictIsNamed(jobs, JobName(h, prefix, index));
    hide JobName, Verdict;
  }

  lemma VerdictIsNamed(jobs: JobMap, name: string)
    ensures name in jobs ==>
              Verdict(jobs[name].conditions, name).ExecResult? && Verdict(jobs[name].conditions, name).jobName == name
  {
    if name in jobs {
      VerdictIsFirst(jobs[name].conditions, name);
    }
  }

  lemma DecimalsSpelledOut()
    ensures Decimal(40) == "40" && Decimal(12) == "12"
  {
    assert Decimal(4) == "4" && Decimal(1) == "1";
  }

  /** What the names look like. */
  lemma NamesSpelledOut(h: Digest)
    ensures NamePrefix("db", Failover, 40) == "db-failover-40" && NamePrefix("db", Failback, 40) == "db-failback-40"
    ensures JobName(h, "db-failover-40", 12) == "db-failover-40-action-12"
  {
    DecimalsSpelledOut();
    hide Decimal;
  }

  /** Two names that are cut collide exactly if they share the first 54 characters and the digest. */
  lemma CutNamesCollide(h: Digest, v: string, w: string)
    requires ValidDigest(h) && |v| > 63 && |w| > 63
    ensures Shorten(h, v) == Shorten(h, w) <==> v[..54] == w[..54] && h(v) == h(w)
  {
    assert Shorten(h, v)[..54] == v[..54] && Shorten(h, w)[..54] == w[..54];
    assert Shorten(h, v)[55..] == h(v) && Shorten(h, w)[55..] == h(w);
  }

  class JobExecutor {
    const digest: Digest
    var jobs: JobMap

    constructor (digest: Digest, jobs: JobMap)
      ensures this.digest == digest && this.jobs == jobs
    {
      this.digest := digest;
      this.jobs := jobs;
    }

    /** `f.answered`: the lookup is answered, with the job or with "not found". */
    method Execute(prefix: string, index: nat, f: Fate) returns (r: ExecResult)
      modifies this
      ensures r == Answer(old(jobs), JobName(digest, prefix, index), f)
      ensures jobs == AfterExecute(digest, old(jobs), prefix, index, f)
    {
      var name := JobName(digest, prefix, index);
      if !f.answered {
        return ExecError;
      }
      if name !in jobs {
        if f.landed {
          jobs := jobs[name := Job(Shorten(digest, prefix), [])];
        }
        if !f.landed || !f.reported {
          return ExecError;
        }
        return ExecResult(false, false, name, "Job created");
      }
      r := CheckJobStatus(jobs[name], name);
    }

    method CheckJobStatus(job: Job, name: string) returns (r: ExecResult)
      ensures r == Verdict(job.conditions, name)
    {
      for i := 0 to |job.conditions|
        invariant Verdict(job.conditions, name) == Verdict(job.conditions[i..], name)
      {
        var c := job.conditions[i];
        assert job.conditions[i..][0] == c && job.conditions[i..][1..] == job.conditions[i + 1..];
        if c.kind == JobComplete && c.holds {
          return ExecResult(true, true, name, "Job completed successfully");
        }
        if c.kind == JobFailed && c.holds {
          return ExecResult(true, false, name, "Job failed: " + c.message);
        }
      }
      r := ExecResult(false, false, name, "Job running");
    }

    method Cleanup(name: string, getOk: bool, deleteOk: bool) returns (ok: bool)
      modifies this
      ensures ok == (getOk && (name in old(jobs) ==> deleteOk))
      ensures jobs == if ok then old(jobs) - {name} else old(jobs)
    {
      if !getOk {
        return false;
      }
      if name !in jobs {
        return true;
      }
      if !deleteOk {
        return false;
      }
      jobs := jobs - {name};
      return true;
    }
  }

  // ----- Jobs over the runs of one cluster -----

  /** `created` records every creation. */
  datatype World = World(c: Cluster, jobs: JobMap, created: seq<string>)

  /** Besides the controller and the users: jobs get conditions, and anybody may delete them. */
  datatype WorldLabel =
    | Controls(env: Env, fate: Fate, deleted: set<string>)
    | EditsSpec(spec: Spec, forceAdvance: bool)
    | JobsMoveOn(jobs: JobMap)

  function PrefixOf(c: Cluster, call: ExecCall): string
    requires call.transition.transitionID >= 0
  {
    NamePrefix(c.fs.name, call.transition.direction, call.transition.transitionID)
  }

  /** The name of the job that an execution asks for. */
  function JobOf(h: Digest, c: Cluster, call: ExecCall): string
    requires call.index >= 0 && call.transition.transitionID >= 0
  {
    JobName(h, PrefixOf(c, call), call.index)
  }

  predicate RunsJob(calls: Calls) {
    calls.exec.Some? && calls.exec.value.action.kind.RunJob?
  }

  /** Start times lie after the epoch, and a cursor is never negative. */
  predicate Nameable(calls: Calls) {
    RunsJob(calls) ==> calls.exec.value.index >= 0 && calls.exec.value.transition.transitionID >= 0
  }

  predicate Enabled(h: Digest, cfg: Config, w: World, l: WorldLabel) {
    match l
    case Controls(e, fate, deleted) =>
      var calls := Reconcile(cfg, w.c, e).calls;
      && Nameable(calls)
      && (RunsJob(calls) ==> e.exec == Answer(w.jobs, JobOf(h, w.c, calls.exec.value), fate))
      && (forall n :: n in deleted ==> calls.jobs.Some? && n in calls.jobs.value)
    case EditsSpec(spec, _) => ValidSpec(spec)
    case JobsMoveOn(jobs) => jobs.Keys <= w.jobs.Keys
  }

  function Next(h: Digest, cfg: Config, w: World, l: WorldLabel): World
    requires Enabled(h, cfg, w, l)
  {
    match l
    case Controls(e, fate, deleted) =>
      var o := Reconcile(cfg, w.c, e);
      if RunsJob(o.calls) then
        var call := o.calls.exec.value;
        var name := JobOf(h, w.c, call);
        World(o.cluster,
              AfterExecute(h, w.jobs, PrefixOf(w.c, call), call.index, fate) - deleted,
              if Creates(w.jobs, name, fate) then w.created + [name] else w.created)
      else World(o.cluster, w.jobs - deleted, w.created)
    case EditsSpec(spec, forceAdvance) => w.(c := Step(cfg, w.c, Edits(spec, forceAdvance)))
    case JobsMoveOn(jobs) => w.(jobs := jobs)
  }

  ghost predicate IsJobRun(h: Digest, cfg: Config, ws: seq<World>, ls: seq<WorldLabel>) {
    |ws| == |ls| + 1 && forall i :: 0 <= i < |ls| ==> StepAt(h, cfg, ws, ls, i)
  }

  predicate StepAt(h: Digest, cfg: Config, ws: seq<World>, ls: seq<WorldLabel>, i: nat)
    requires i < |ls| < |ws|
  {
    Enabled(h, cfg, ws[i], ls[i]) && ws[i + 1] == Next(h, cfg, ws[i], ls[i])
  }

  /** The same transition is in flight in every state, its hooks are not edited, and nobody else deletes jobs. */
  predicate OneTransition(cfg: Config, ws: seq<World>, ls: seq<WorldLabel>) {
    && |ws| == |ls| + 1
    && ws[0].c.fs.status.transition.Some?
    && forall i :: 0 <= i < |ls| ==> StaysWithin(cfg, ws[0].c.fs.spec, ws[i], ls[i])
  }

  predicate StaysWithin(cfg: Config, spec: Spec, w: World, l: WorldLabel) {
    && (l.Controls? ==> !Reconcile(cfg, w.c, l.env).completed)
    && (l.EditsSpec? ==> SameHooks(spec, l.spec))
    && (l.JobsMoveOn? ==> l.jobs.Keys == w.jobs.Keys)
  }

  /** No action is left to execute: completion may already have been tried. */
  predicate Spent(cfg: Config, c: Cluster) {
    c.fs.status.transition.Some? &&
    var t := c.fs.status.transition.value;
    var actions := ActionsFor(cfg, c.fs.spec, t.direction, false);
    || (t.phase == FlushingConnections && actions == [])
    || (t.phase == ExecutingPostActions && (t.index >= |actions| || t.index >= |t.post|))
  }

  /** What one reconcile of an in-flight transition means for jobs. */
  predicate JobFacts(cfg: Config, c: Cluster, o: Outcome) {
    && (o.calls.jobs.Some? ==> Spent(cfg, c) && o.calls.exec.None?)
    && (Spent(cfg, c) ==> o.calls.exec.None? && (!o.completed ==> Spent(cfg, o.cluster)))
  }

  lemma CompleteJobFacts(cfg: Config, c: Cluster, t: Transition, calls: Calls, e: Env)
    ensures var o := Complete(cfg, c, t, calls, e);
            && o.calls.exec == calls.exec
            && (!o.completed ==>
                  o.cluster.fs.status.transition == c.fs.status.transition && SameHooks(c.fs.spec, o.cluster.fs.spec))
  {
    hide NewTransition, CreateEvent, UpdateEvent, JobNames;
  }

  lemma ActionPhaseJobFacts(cfg: Config, c: Cluster, isPre: bool, e: Env)
    requires Inv(c) && c.fs.status.transition.Some? && c.fs.status.transition.value.phase == PhaseOf(isPre)
    ensures JobFacts(cfg, c, ExecuteActionPhase(cfg, c, isPre, e))
  {
    hide Complete, UpdateEvent, AfterExecution;
    CompleteJobFacts(cfg, c, c.fs.status.transition.value, NoCalls, e);
  }

  lemma FlushJobFacts(cfg: Config, c: Cluster, e: Env)
    requires Inv(c) && c.fs.status.transition.Some? && c.fs.status.transition.value.phase == FlushingConnections
    ensures JobFacts(cfg, c, FlushConnections(cfg, c, e))
  {
    hide Complete;
    forall t: Transition, calls: Calls
      ensures var o := Complete(cfg, c, t, calls, e);
              && o.calls.exec == calls.exec
              && (!o.completed ==>
                    o.cluster.fs.status.transition == c.fs.status.transition && SameHooks(c.fs.spec, o.cluster.fs.spec))
    {
      CompleteJobFacts(cfg, c, t, calls, e);
    }
  }

  lemma ReconcileJobFacts(cfg: Config, c: Cluster, e: Env)
    requires Inv(c) && c.fs.status.transition.Some?
    ensures JobFacts(cfg, c, Reconcile(cfg, c, e))
  {
    hide FlushConnections, ExecuteActionPhase, NewTransition, CreateEvent, UpdateEvent;
    var stamped := c.(fs := c.fs.(clusterID := cfg.id));
    if !c.fs.forceAdvance {
      match c.fs.status.transition.value.phase {
        case ExecutingPreActions => ActionPhaseJobFacts(cfg, stamped, true, e);
        case ExecutingPostActions => ActionPhaseJobFacts(cfg, stamped, false, e);
        case FlushingConnections => FlushJobFacts(cfg, stamped, e);
        case _ =>
      }
    }
  }

  // ----- Creations and removals balance -----

  function Times(names: seq<string>, n: string): nat {
    multiset(names)[n]
  }

  function Exists(w: World, n: string): nat {
    if n in w.jobs then 1 else 0
  }

  /** The step removes the job. */
  predicate Removes(w: World, l: WorldLabel, n: string) {
    n in w.jobs && ((l.Controls? && n in l.deleted) || (l.JobsMoveOn? && n !in l.jobs))
  }

  function Removals(ws: seq<World>, ls: seq<WorldLabel>, n: string, k: nat): nat
    requires k <= |ls| < |ws|
  {
    if k == 0 then 0 else Removals(ws, ls, n, k - 1) + if Removes(ws[k - 1], ls[k - 1], n) then 1 else 0
  }

  lemma BalanceStep(h: Digest, cfg: Config, w: World, l: WorldLabel, n: string)
    requires Enabled(h, cfg, w, l) && Inv(w.c)
    ensures Times(Next(h, cfg, w, l).created, n) - Times(w.created, n)
            == Exists(Next(h, cfg, w, l), n) - Exists(w, n) + if Removes(w, l, n) then 1 else 0
  {
    hide Reconcile, JobName, Shorten;
    if l.Controls? {
      NeverRunsWhileCleaning(cfg, w.c, l.env);
    }
  }

  /** No reconcile both executes an action and removes jobs. */
  lemma NeverRunsWhileCleaning(cfg: Config, c: Cluster, e: Env)
    requires Inv(c)
    ensures Reconcile(cfg, c, e).calls.jobs.Some? ==> Reconcile(cfg, c, e).calls.exec.None?
  {
    if c.fs.status.transition.Some? {
      hide Reconcile;
      ReconcileJobFacts(cfg, c, e);
    }
  }

  /**
   * In every run, over any number of transitions and under any edits of the hooks, a name has been
   * created exactly as often as its job was removed, and once more if the job exists (and did not at the
   * start): a job is only ever created again after the controller or somebody else removed it.
   */
  lemma {:induction false} CreationsBalance(h: Digest, cfg: Config, ws: seq<World>, ls: seq<WorldLabel>, n: string, k: nat)
    requires IsJobRun(h, cfg, ws, ls) && Inv(ws[0].c) && ws[0].created == [] && k < |ws|
    ensures Inv(ws[k].c)
    ensures Times(ws[k].created, n) + Exists(ws[0], n) == Removals(ws, ls, n, k) + Exists(ws[k], n)
  {
    hide Enabled, Next, Removes, Times;
    if k > 0 {
      assert StepAt(h, cfg, ws, ls, k - 1);
      CreationsBalance(h, cfg, ws, ls, n, k - 1);
      BalanceStep(h, cfg, ws[k - 1], ls[k - 1], n);
      StepKeepsClusterInv(h, cfg, ws[k - 1], ls[k - 1]);
    } else {
      NeverCreated(n);
    }
  }

  lemma NeverCreated(n: string)
    ensures Times([], n) == 0
  {
  }

  lemma StepKeepsClusterInv(h: Digest, cfg: Config, w: World, l: WorldLabel)
    requires Inv(w.c) && Enabled(h, cfg, w, l)
    ensures Inv(Next(h, cfg, w, l).c)
  {
    hide Reconcile, JobName, Shorten;
    match l {
      case Controls(e, _, _) => StepKeepsInv(cfg, w.c, Reconciles(e));
      case _ =>
    }
  }

  // ----- A name is created once per transition -----

  /** Every job created so far still exists, unless no further one can be asked for. */
  predicate JobsInv(cfg: Config, w: World) {
    && Inv(w.c) && w.c.fs.status.transition.Some?
    && (Spent(cfg, w.c) || forall i :: 0 <= i < |w.created| ==> w.created[i] in w.jobs)
    && forall i, j :: 0 <= i < j < |w.created| ==> w.created[i] != w.created[j]
  }

  /** The same transition of the same service, with no creation forgotten. */
  predicate Continues(w: World, x: World) {
    && w.c.fs.status.transition.Some? && x.c.fs.status.transition.Some?
    && x.c.fs.name == w.c.fs.name
    && x.c.fs.status.transition.value.direction == w.c.fs.status.transition.value.direction
    && x.c.fs.status.transition.value.transitionID == w.c.fs.status.transition.value.transitionID
    && w.created <= x.created
  }

  lemma StepKeepsJobsInv(h: Digest, cfg: Config, w: World, l: WorldLabel)
    requires JobsInv(cfg, w) && Enabled(h, cfg, w, l)
    requires l.Controls? ==> !Reconcile(cfg, w.c, l.env).completed
    requires l.EditsSpec? ==> SameHooks(w.c.fs.spec, l.spec)
    requires l.JobsMoveOn? ==> l.jobs.Keys == w.jobs.Keys
    ensures JobsInv(cfg, Next(h, cfg, w, l)) && SameHooks(w.c.fs.spec, Next(h, cfg, w, l).c.fs.spec)
    ensures Continues(w, Next(h, cfg, w, l))
  {
    hide Reconcile, JobName, Shorten;
    if l.Controls? {
      ReconcileJobFacts(cfg, w.c, l.env);
      StepKeepsInv(cfg, w.c, Reconciles(l.env));
      ReconcileInFlight(cfg, w.c, l.env);
    }
  }

  /**
   * However often its actions are executed again after errors and crashes, a transition with unedited
   * hooks creates every job name at most once.
   */
  lemma {:induction false} AtMostOneJob(h: Digest, cfg: Config, ws: seq<World>, ls: seq<WorldLabel>, k: nat)
    requires IsJobRun(h, cfg, ws, ls) && OneTransition(cfg, ws, ls)
    requires Inv(ws[0].c) && ws[0].created == [] && k < |ws|
    ensures forall i, j :: 0 <= i < j < |ws[k].created| ==> ws[k].created[i] != ws[k].created[j]
    ensures JobsInv(cfg, ws[k]) && SameHooks(ws[0].c.fs.spec, ws[k].c.fs.spec)
  {
    hide Enabled, Next, Reconcile;
    if k > 0 {
      assert StepAt(h, cfg, ws, ls, k - 1) && StaysWithin(cfg, ws[0].c.fs.spec, ws[k - 1], ls[k - 1]);
      AtMostOneJob(h, cfg, ws, ls, k - 1);
      StepKeepsJobsInv(h, cfg, ws[k - 1], ls[k - 1]);
    }
  }

  /** Names leave the phase out: a pre-action and a post-action share a name exactly if they share an index. */
  lemma PhasesShareNames(h: Digest, c: Cluster, pre: ExecCall, post: ExecCall)
    requires pre.transition.transitionID == post.transition.transitionID >= 0 && pre.index >= 0 && post.index >= 0
    requires pre.transition.direction == post.transition.direction
    requires |FullName(PrefixOf(c, pre), pre.index)| <= MAX_NAME && |FullName(PrefixOf(c, post), post.index)| <= MAX_NAME
    ensures JobOf(h, c, pre) == JobOf(h, c, post) <==> pre.index == post.index
  {
    if JobOf(h, c, pre) == JobOf(h, c, post) {
      var t := pre.transition;
      NamesAreInjective(h, c.fs.name, t.direction, t.transitionID, pre.index, t.direction, t.transitionID, post.index);
    }
  }

  lemma {:induction false} RunContinues(h: Digest, cfg: Config, ws: seq<World>, ls: seq<WorldLabel>, i: nat, j: nat)
    requires IsJobRun(h, cfg, ws, ls) && OneTransition(cfg, ws, ls)
    requires Inv(ws[0].c) && ws[0].created == [] && i <= j < |ws|
    ensures Continues(ws[i], ws[j])
    decreases j
  {
    hide Enabled, Next, Reconcile;
    AtMostOneJob(h, cfg, ws, ls, j);
    if i < j {
      assert StepAt(h, cfg, ws, ls, j - 1) && StaysWithin(cfg, ws[0].c.fs.spec, ws[j - 1], ls[j - 1]);
      RunContinues(h, cfg, ws, ls, i, j - 1);
      AtMostOneJob(h, cfg, ws, ls, j - 1);
      StepKeepsJobsInv(h, cfg, ws[j - 1], ls[j - 1]);
    }
  }

  /** This step executes a job action. */
  predicate Asks(cfg: Config, w: World, l: WorldLabel, isPre: bool, index: nat) {
    && l.Controls?
    && var calls := Reconcile(cfg, w.c, l.env).calls;
    RunsJob(calls) && Nameable(calls) && calls.exec.value.isPre == isPre && calls.exec.value.index == index
  }

  /** The name that an action of the transition in flight gives its job. */
  function NameNow(h: Digest, w: World, index: nat): string
    requires w.c.fs.status.transition.Some? && w.c.fs.status.transition.value.transitionID >= 0
  {
    var t := w.c.fs.status.transition.value;
    JobName(h, NamePrefix(w.c.fs.name, t.direction, t.transitionID), index)
  }

  lemma AskingStep(h: Digest, cfg: Config, w: World, l: WorldLabel, isPre: bool, index: nat)
    requires JobsInv(cfg, w) && Enabled(h, cfg, w, l) && Asks(cfg, w, l, isPre, index)
    ensures w.c.fs.status.transition.value.transitionID >= 0
    ensures var name := NameNow(h, w, index);
            && l.env.exec == Answer(w.jobs, name, l.fate)
            && Next(h, cfg, w, l).created == (if Creates(w.jobs, name, l.fate) then w.created + [name] else w.created)
            && forall i :: 0 <= i < |w.created| ==> w.created[i] in w.jobs
  {
    hide Reconcile, JobName, NamePrefix, Shorten;
    PersistedBeforeExecuted(cfg, w.c, l.env);
    ReconcileJobFacts(cfg, w.c, l.env);
  }

  /**
   * So a post-action job whose index a pre-action job of the transition already used is never created:
   * the post-action gets the verdict on the pre-action's job.
   */
  lemma PostActionReusesJob(h: Digest, cfg: Config, ws: seq<World>, ls: seq<WorldLabel>, i: nat, j: nat, index: nat)
    requires IsJobRun(h, cfg, ws, ls) && OneTransition(cfg, ws, ls) && Inv(ws[0].c) && ws[0].created == []
    requires i < j < |ls| && Asks(cfg, ws[i], ls[i], true, index) && Asks(cfg, ws[j], ls[j], false, index)
    requires ws[i + 1].created != ws[i].created
    ensures ws[j].c.fs.status.transition.Some? && ws[j].c.fs.status.transition.value.transitionID >= 0
    ensures var name := NameNow(h, ws[j], index);
            && ws[j + 1].created == ws[j].created
            && name in ws[j].jobs
            && (ls[j].fate.answered ==> ls[j].env.exec == Verdict(ws[j].jobs[name].conditions, name))
  {
    hide Enabled, Next, Asks, Verdict, JobName, StaysWithin, IsJobRun;
    CreatesItsName(h, cfg, ws, ls, i, true, index);
    RunContinues(h, cfg, ws, ls, i + 1, j);
    RunContinues(h, cfg, ws, ls, i, j);
    assert ws[j].created[|ws[i].created|] == NameNow(h, ws[j], index);
    FindsItsJob(h, cfg, ws, ls, j, false, index);
  }

  lemma CreatesItsName(h: Digest, cfg: Config, ws: seq<World>, ls: seq<WorldLabel>, i: nat, isPre: bool, index: nat)
    requires IsJobRun(h, cfg, ws, ls) && OneTransition(cfg, ws, ls) && Inv(ws[0].c) && ws[0].created == []
    requires i < |ls| && Asks(cfg, ws[i], ls[i], isPre, index) && ws[i + 1].created != ws[i].created
    ensures ws[i].c.fs.status.transition.Some? && ws[i].c.fs.status.transition.value.transitionID >= 0
    ensures ws[i + 1].created == ws[i].created + [NameNow(h, ws[i], index)]
  {
    hide Enabled, Next, Asks, JobName, StaysWithin, Creates, Answer;
    AtMostOneJob(h, cfg, ws, ls, i);
    assert StepAt(h, cfg, ws, ls, i);
    AskingStep(h, cfg, ws[i], ls[i], isPre, index);
  }

  lemma FindsItsJob(h: Digest, cfg: Config, ws: seq<World>, ls: seq<WorldLabel>, j: nat, isPre: bool, index: nat)
    requires IsJobRun(h, cfg, ws, ls) && OneTransition(cfg, ws, ls) && Inv(ws[0].c) && ws[0].created == []
    requires j < |ls| && Asks(cfg, ws[j], ls[j], isPre, index)
    requires ws[j].c.fs.status.transition.Some? && ws[j].c.fs.status.transition.value.transitionID >= 0
    requires NameNow(h, ws[j], index) in ws[j].created
    ensures var name := NameNow(h, ws[j], index);
            && ws[j + 1].created == ws[j].created
            && name in ws[j].jobs
            && (ls[j].fate.answered ==> ls[j].env.exec == Verdict(ws[j].jobs[name].conditions, name))
  {
    hide Enabled, Next, Asks, JobName, StaysWithin, Verdict;
    AtMostOneJob(h, cfg, ws, ls, j);
    assert StepAt(h, cfg, ws, ls, j);
    AskingStep(h, cfg, ws[j], ls[j], isPre, index);
  }
}
