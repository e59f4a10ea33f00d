/** Conflict resolution between the two clusters (internal/remotecluster/syncer.go). */
module Syncer {
  import opened Api
  import opened Controller

  // ----- The order on cluster states -----

  /** String comparison, character by character, as Go compares strings. */
  predicate Before(a: string, b: string) {
    if b == "" then false
    else if a == "" then true
    else a[0] < b[0] || (a[0] == b[0] && Before(a[1..], b[1..]))
  }

  lemma {:induction false} BeforeIsAsymmetric(a: string, b: string)
    ensures !(Before(a, b) && Before(b, a))
    ensures !Before(a, a)
  {
    if a != "" {
      BeforeIsAsymmetric(a[1..], if b == "" then b else b[1..]);
    }
  }

  lemma {:induction false} BeforeIsTotal(a: string, b: string)
    requires a != b
    ensures Before(a, b) || Before(b, a)
  {
    if a != "" && b != "" && a[0] == b[0] {
      assert a == [a[0]] + a[1..] && b == [b[0]] + b[1..];
      BeforeIsTotal(a[1..], b[1..]);
    }
  }

  lemma {:induction false} BeforeIsTransitive(a: string, b: string, c: string)
    requires Before(a, b) && Before(b, c)
    ensures Before(a, c)
  {
    if a != "" && a[0] == b[0] == c[0] {
      BeforeIsTransitive(a[1..], b[1..], c[1..]);
    }
  }

  /** What a cluster brings into a conflict. */
  datatype Rank = Rank(generation: int, time: Option<Time>, id: string)

  /** Generation first, then the time of the spec change when both are known, then the cluster ID. */
  predicate Beats(r: Rank, l: Rank) {
    if r.generation != l.generation then r.generation > l.generation
    else if r.time.Some? && l.time.Some? && r.time != l.time then r.time.value > l.time.value
    else Before(l.id, r.id)
  }

  /** Of two states with distinct cluster IDs exactly one beats the other. */
  lemma OneWinner(a: Rank, b: Rank)
    requires a.id != b.id
    ensures Beats(a, b) <==> !Beats(b, a)
  {
    BeforeIsAsymmetric(a.id, b.id);
    BeforeIsTotal(a.id, b.id);
  }

  /** With all times known the relation is a strict total order. */
  lemma BeatsIsStrictOrder(a: Rank, b: Rank, c: Rank)
    requires a.time.Some? && b.time.Some? && c.time.Some?
    ensures !Beats(a, a)
    ensures Beats(a, b) && Beats(b, c) ==> Beats(a, c)
    ensures a.id != b.id ==> Beats(a, b) || Beats(b, a)
  {
    BeforeIsAsymmetric(a.id, a.id);
    if a.id != b.id {
      OneWinner(a, b);
    }
    if Before(c.id, b.id) && Before(b.id, a.id) {
      BeforeIsTransitive(c.id, b.id, a.id);
    }
  }

  /** A missing time breaks transitivity: the relation can run in a circle. */
  lemma BeatsWithoutTimesCanCycle()
    ensures exists a, b, c: Rank :: Beats(a, b) && Beats(b, c) && Beats(c, a)
  {
    var a := Rank(1, Some(5), "a");
    var b := Rank(1, Some(3), "c");
    var c := Rank(1, None, "b");
    assert Beats(a, b) && Beats(b, c) && Beats(c, a);
  }

  /** When two wins in a row are no win: equal generations and a missing time that hides the later one. */
  predicate Intransitive(a: Rank, b: Rank, c: Rank) {
    && a.generation == b.generation == c.generation
    && (|| (b.time.None? && a.time.Some? && c.time.Some? && a.time.value < c.time.value)
        || (a.time.None? && b.time.Some? && c.time.Some? && !Before(c.id, a.id))
        || (c.time.None? && a.time.Some? && b.time.Some? && !Before(c.id, a.id)))
  }

  /** Transitivity fails exactly there, whatever times are known. */
  lemma TransitivityIsExact(a: Rank, b: Rank, c: Rank)
    requires Beats(a, b) && Beats(b, c)
    ensures !Beats(a, c) <==> Intransitive(a, b, c)
  {
    if Before(c.id, b.id) && Before(b.id, a.id) {
      BeforeIsTransitive(c.id, b.id, a.id);
    }
  }

  // ----- One Sync -----

  function LocalRank(view: SyncView, id: string): Rank {
    Rank(view.activeGeneration, view.specChangeTime, id)
  }

  function RankOf(fs: FailoverService): Rank {
    Rank(fs.status.activeGeneration, fs.status.specChangeTime, fs.clusterID)
  }

  function StateOf(remote: FailoverService): RemoteState {
    RemoteState(remote.spec.failoverActive, remote.status.activeCluster, remote.status.activeGeneration,
                remote.status.specChangeTime)
  }

  predicate RemoteWinsConflict(view: SyncView, remote: FailoverService, id: string) {
    remote.spec.failoverActive != view.failoverActive && Beats(RankOf(remote), LocalRank(view, id))
  }

  predicate Pushes(view: SyncView, remote: FailoverService, id: string) {
    remote.spec.failoverActive != view.failoverActive && !Beats(RankOf(remote), LocalRank(view, id))
  }

  /** `reachable`: the remote object could be read. `pushOk`: the update that pushes succeeds. */
  function SyncAnswer(view: SyncView, remote: FailoverService, id: string, reachable: bool, pushOk: bool): SyncResult {
    if !reachable then SyncError
    else if RemoteWinsConflict(view, remote, id) then RemoteWins(StateOf(remote))
    else if Pushes(view, remote, id) && !pushOk then SyncError
    else LocalStands
  }

  function RemoteAfterSync(view: SyncView, remote: FailoverService, id: string, reachable: bool, pushOk: bool): FailoverService {
    if reachable && pushOk && Pushes(view, remote, id) then
      remote.(spec := remote.spec.(failoverActive := view.failoverActive))
    else remote
  }

  /** The pushing side of one cluster; `remote` is the object stored in the other cluster. */
  class Syncer {
    const clusterID: string
    var remote: FailoverService

    constructor (clusterID: string, remote: FailoverService)
      ensures this.clusterID == clusterID && this.remote == remote
    {
      this.clusterID := clusterID;
      this.remote := remote;
    }

    method Sync(local: SyncView, reachable: bool, pushOk: bool) returns (result: SyncResult)
      modifies this
      ensures result == SyncAnswer(local, old(remote), clusterID, reachable, pushOk)
      ensures remote == RemoteAfterSync(local, old(remote), clusterID, reachable, pushOk)
    {
      if !reachable {
        return SyncError;
      }
      var state := RemoteState(remote.spec.failoverActive, remote.status.activeCluster,
                               remote.status.activeGeneration, remote.status.specChangeTime);
      if remote.spec.failoverActive == local.failoverActive {
        return LocalStands;
      }
      if remote.status.activeGeneration > local.activeGeneration {
        return RemoteWins(state);
      }
      if remote.status.activeGeneration == local.activeGeneration {
        var remoteTime := remote.status.specChangeTime;
        var localTime := local.specChangeTime;
        if remoteTime.Some? && localTime.Some? {
          if remoteTime.value > localTime.value {
            return RemoteWins(state);
          }
          if localTime.value > remoteTime.value {
            // local wins: fall through to the push
          } else {
            if Before(clusterID, remote.clusterID) {
              return RemoteWins(state);
            }
          }
        } else {
          if Before(clusterID, remote.clusterID) {
            return RemoteWins(state);
          }
        }
      }
      if !pushOk {
        return SyncError;
      }
      remote := remote.(spec := remote.spec.(failoverActive := local.failoverActive));
      return LocalStands;
    }
  }

  // ----- Agreement -----

  /** What a cluster at rest passes to Sync. */
  function RestView(fs: FailoverService): SyncView {
    SyncView(fs.spec.failoverActive, fs.status.activeGeneration, fs.status.specChangeTime)
  }

  /** On one snapshot of two conflicting, annotated states both sides name the same single winner. */
  lemma WinnerAgreement(a: FailoverService, b: FailoverService)
    requires a.spec.failoverActive != b.spec.failoverActive && a.clusterID != b.clusterID
    ensures RemoteWinsConflict(RestView(a), b, a.clusterID) <==> Pushes(RestView(b), a, b.clusterID)
    ensures Pushes(RestView(a), b, a.clusterID) <==> RemoteWinsConflict(RestView(b), a, b.clusterID)
    ensures RemoteWinsConflict(RestView(a), b, a.clusterID) <==> !Pushes(RestView(a), b, a.clusterID)
  {
    OneWinner(RankOf(a), RankOf(b));
  }

  // ----- Two Syncs that interleave -----

  /** What a cluster passes to Sync: while it completes a transition, a generation it has not persisted yet. */
  function ViewOf(fs: FailoverService, completing: bool): SyncView {
    SyncView(fs.spec.failoverActive, fs.status.activeGeneration + if completing then 1 else 0, fs.status.specChangeTime)
  }

  /** The time and ID rule between equal generations. */
  predicate WinsTie(r: FailoverService, l: FailoverService) {
    Beats(RankOf(r).(generation := 0), RankOf(l).(generation := 0))
  }

  /** With both objects read before either is pushed to: `a` and `b` after both pushes. */
  function AfterBoth(a: FailoverService, b: FailoverService, aCompletes: bool, bCompletes: bool): (FailoverService, FailoverService) {
    (RemoteAfterSync(ViewOf(b, bCompletes), a, b.clusterID, true, true),
     RemoteAfterSync(ViewOf(a, aCompletes), b, a.clusterID, true, true))
  }

  /** Each side believes that it wins. */
  predicate BothWin(a: FailoverService, b: FailoverService, aCompletes: bool, bCompletes: bool) {
    var x, y := a.status.activeGeneration, b.status.activeGeneration;
    match (aCompletes, bCompletes)
    case (false, false) => false
    case (true, true) => x == y || (y == x + 1 && !WinsTie(b, a)) || (x == y + 1 && !WinsTie(a, b))
    case (true, false) => (y == x && WinsTie(b, a)) || (y == x + 1 && !WinsTie(b, a))
    case (false, true) => (x == y && WinsTie(a, b)) || (x == y + 1 && !WinsTie(a, b))
  }

  /**
   * Two conflicting clusters whose Syncs interleave swap their values exactly if a completion makes each side
   * believe that it wins. Two clusters at rest never do.
   */
  lemma InterleavedSyncsSwap(a: FailoverService, b: FailoverService, aCompletes: bool, bCompletes: bool)
    requires a.spec.failoverActive != b.spec.failoverActive && a.clusterID != b.clusterID
    ensures var (c, d) := AfterBoth(a, b, aCompletes, bCompletes);
            (c.spec.failoverActive == b.spec.failoverActive && d.spec.failoverActive == a.spec.failoverActive) <==>
            BothWin(a, b, aCompletes, bCompletes)
  {
    OneWinner(RankOf(a).(generation := 0), RankOf(b).(generation := 0));
  }
}
