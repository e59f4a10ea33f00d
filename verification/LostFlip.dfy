/** A request to fail over that is undone by the other cluster before its own cluster looks at it. */
module LostFlip {
  import opened Api
  import opened Controller
  import opened Progress
  import opened Syncer
  import opened Pair
  import SM = ServiceManager

  const HERE := Hostname("here.example")
  const THERE := Hostname("there.example")

  function East(): Config { Config(PrimaryRole, "east", false, true) }
  function West(): Config { Config(FailoverRole, "west", false, true) }

  function Shared(active: bool): Spec {
    var target := ClusterTarget(HERE, THERE, None, None);
    Spec(active, [], target, target)
  }

  /** At rest and in line, with no transition ever made. */
  function AtRest(id: string, active: bool): Cluster {
    Cluster(FailoverService("db", "uid", Shared(active), false, id, Status(Some(false), None, 0, "", None)),
            SM.Store(Some(SM.Service(SM.ExternalName, HERE.text, [], ["uid"])), None), map[])
  }

  function Start(): World { World(AtRest("east", false), AtRest("west", false)) }

  /** Somebody requests a failover on the east cluster. */
  function Flip(): WorldLabel { Editing(SideA, Shared(true), false) }

  /** Everything succeeds. */
  function AllWell(): Env {
    Env(1, true, true, true, true, true, true, true, true, true, 4, ExecError, 0, SignalError, AckError, LocalStands)
  }

  /** The west cluster has its regular look. */
  function Look(): WorldLabel { Reconciling(SideB, AllWell(), Network(true, true, true, [])) }

  lemma WestRests()
    ensures var o := Reconcile(West(), AtRest("west", false), AllWell());
            o.calls == NoCalls.(sync := Some(SyncView(false, 0, None))) && o.cluster == AtRest("west", false)
  {
  }

  lemma EastDoesNotBeatWest()
    ensures !Beats(Rank(0, None, "east"), Rank(0, None, "west"))
  {
    assert "east"[0] < "west"[0];
  }

  /** The flip is unstamped and pending; one look of the other side later, nothing is left of it. */
  lemma FlipLeavesNoTrace()
    ensures var setup := Setup(East(), West());
            var flipped := WorldStep(setup, Start(), Flip());
            && setup.Valid() && Inv(Start().a) && Inv(Start().b) && Enabled(setup, Start(), Flip())
            && FlipPending(flipped.a.fs) && flipped.a.fs.status.specChangeTime.None?
            && Enabled(setup, flipped, Look())
            && WorldStep(setup, flipped, Look()) == Start()
  {
    WestRests();
    EastDoesNotBeatWest();
    hide Reconcile, Before;
  }
}
