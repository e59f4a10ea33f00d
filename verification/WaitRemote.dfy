/** Correlation of a local transition with the remote one (internal/action/waitremote.go). */
module WaitRemote {
  import opened Api

  /** Still waiting; the condition holds; the condition can no longer hold. */
  datatype Answer = Waiting | Fulfilled | Refused

  // ----- Events -----

  function Timestamp(event: Event): Time {
    if event.completedAt.Some? then event.completedAt.value
    else if event.startedAt.Some? then event.startedAt.value
    else event.createdAt
  }

  predicate NotBefore(event: Event, since: Option<Time>) {
    since.Some? ==>
      since.value <= if event.startedAt.Some? then event.startedAt.value
                     else if event.completedAt.Some? then event.completedAt.value
                     else event.createdAt
  }

  /** The event belongs to the service, has the expected direction and does not predate `since`. */
  predicate Matches(event: Event, name: string, since: Option<Time>, direction: Option<Direction>) {
    && event.serviceRef == name
    && (direction.Some? ==> event.direction == direction.value)
    && NotBefore(event, since)
  }

  /**
   * When the start of a transition was never written to its event, the search falls back to the
   * completion time. An event of a transition that began before the local one is accepted exactly then:
   * with its start unrecorded, and completed (or else created) no earlier than the local start.
   */
  lemma StaleTransitionAccepted(event: Event, began: Time, since: Time, direction: Direction)
    requires event.startedAt in {None, Some(began)} && began < since && event.direction == direction
    ensures Matches(event, event.serviceRef, Some(since), Some(direction)) <==>
            && event.startedAt.None?
            && since <= if event.completedAt.Some? then event.completedAt.value else event.createdAt
  {
  }

  predicate Terminal(event: Event) {
    event.outcome != Unset && event.outcome != InProgress
  }

  /** The first among the latest matching events. */
  function Recent(events: seq<Event>, name: string, since: Option<Time>, direction: Option<Direction>): Option<Event> {
    if events == [] then None
    else
      var last := events[|events| - 1];
      var best := Recent(events[..|events| - 1], name, since, direction);
      if Matches(last, name, since, direction) && (best.None? || Timestamp(last) > Timestamp(best.value)) then Some(last)
      else best
  }

  /** The time an event is ranked by: its completion, or else its start, or else its creation. */
  predicate RankedAt(event: Event, t: Time) {
    match (event.completedAt, event.startedAt)
    case (Some(end), _) => t == end
    case (None, Some(start)) => t == start
    case (None, None) => t == event.createdAt
  }

  /** Event `k` is the one to go by: the first in the list among the matching events ranked latest. */
  ghost predicate IsRecent(events: seq<Event>, name: string, since: Option<Time>, direction: Option<Direction>, k: int) {
    && 0 <= k < |events| && Matches(events[k], name, since, direction)
    && forall i, t, u ::
         0 <= i < |events| && Matches(events[i], name, since, direction) && RankedAt(events[i], t) && RankedAt(events[k], u) ==>
           t < u || (t == u && k <= i)
  }

  /** The search finds exactly that event. */
  lemma {:induction false} RecentIsIt(events: seq<Event>, name: string, since: Option<Time>, direction: Option<Direction>, k: int)
    requires IsRecent(events, name, since, direction, k)
    ensures Recent(events, name, since, direction) == Some(events[k])
  {
    var n := |events| - 1;
    var init := events[..n];
    assert forall i :: 0 <= i < n ==> init[i] == events[i];
    assert RankedAt(events[k], Timestamp(events[k])) && RankedAt(events[n], Timestamp(events[n]));
    if k < n {
      assert IsRecent(init, name, since, direction, k);
      RecentIsIt(init, name, since, direction, k);
    } else {
      RecentIsExact(init, name, since, direction);
      var best := Recent(init, name, since, direction);
      if best.Some? {
        assert RankedAt(best.value, Timestamp(best.value));
        var i :| 0 <= i < n && init[i] == best.value;
      }
    }
  }

  /** And if any event matches, there is one to go by. */
  lemma {:induction false} RecentExists(events: seq<Event>, name: string, since: Option<Time>, direction: Option<Direction>)
    requires exists i :: 0 <= i < |events| && Matches(events[i], name, since, direction)
    ensures exists k :: IsRecent(events, name, since, direction, k)
  {
    var n := |events| - 1;
    var init := events[..n];
    assert forall i :: 0 <= i < n ==> init[i] == events[i];
    if j :| 0 <= j < n && Matches(init[j], name, since, direction) {
      RecentExists(init, name, since, direction);
      var k :| IsRecent(init, name, since, direction, k);
      assert RankedAt(events[k], Timestamp(events[k])) && RankedAt(events[n], Timestamp(events[n]));
      if Matches(events[n], name, since, direction) && Timestamp(events[n]) > Timestamp(events[k]) {
        assert IsRecent(events, name, since, direction, n);
      } else {
        assert IsRecent(events, name, since, direction, k);
      }
    } else {
      assert IsRecent(events, name, since, direction, n);
    }
  }

  /** What a match is: the service, the direction, and a start (or end, or creation) not before the local start. */
  lemma MatchIsExact(event: Event, name: string, since: Time, direction: Direction)
    ensures Matches(event, name, Some(since), Some(direction)) <==>
              && event.serviceRef == name && event.direction == direction
              && match (event.startedAt, event.completedAt)
                 case (Some(start), _) => start >= since
                 case (None, Some(end)) => end >= since
                 case (None, None) => event.createdAt >= since
    ensures Matches(event, name, None, None) <==> event.serviceRef == name
  {
  }

  /** The search is exact: a matching event of maximal timestamp, or nothing exactly when none matches. */
  lemma {:induction false} RecentIsExact(events: seq<Event>, name: string, since: Option<Time>, direction: Option<Direction>)
    ensures var best := Recent(events, name, since, direction);
            && (best.None? <==> forall k :: 0 <= k < |events| ==> !Matches(events[k], name, since, direction))
            && (best.Some? ==>
                  && best.value in events
                  && Matches(best.value, name, since, direction)
                  && forall k :: 0 <= k < |events| && Matches(events[k], name, since, direction) ==>
                       Timestamp(events[k]) <= Timestamp(best.value))
  {
    if events != [] {
      var init := events[..|events| - 1];
      RecentIsExact(init, name, since, direction);
      assert forall k :: 0 <= k < |init| ==> events[k] == init[k];
      assert events[|events| - 1] in events;
    }
  }

  method FindRecentRemoteEvent(events: seq<Event>, name: string, since: Option<Time>, direction: Option<Direction>)
    returns (best: Option<Event>)
    ensures best == Recent(events, name, since, direction)
  {
    best := None;
    var bestTime := 0;
    for i := 0 to |events|
      invariant best == Recent(events[..i], name, since, direction)
      invariant best.Some? ==> bestTime == Timestamp(best.value)
    {
      assert events[..i + 1][..i] == events[..i];
      var event := events[i];
      if event.serviceRef != name {
        continue;
      }
      var matches := EventMatchesTransition(event, since, direction);
      if !matches {
        continue;
      }
      var eventTime := Timestamp(event);
      if best.None? || eventTime > bestTime {
        best := Some(event);
        bestTime := eventTime;
      }
    }
    assert events[..|events|] == events;
  }

  method EventMatchesTransition(event: Event, since: Option<Time>, direction: Option<Direction>) returns (matches: bool)
    ensures matches <==> Matches(event, event.serviceRef, since, direction)
  {
    if direction.Some? && event.direction != direction.value {
      return false;
    }
    if since.None? {
      return true;
    }
    if event.startedAt.Some? {
      return !(event.startedAt.value < since.value);
    }
    if event.completedAt.Some? {
      return !(event.completedAt.value < since.value);
    }
    return !(event.createdAt < since.value);
  }

  // ----- Action results -----

  datatype Lookup = Missing | Ambiguous | Found(result: ActionResult)

  /** A name is ambiguous exactly when it occurs at least twice across pre and post results. */
  predicate IsLookup(all: seq<ActionResult>, name: string, l: Lookup) {
    match l
    case Missing => forall k :: 0 <= k < |all| ==> all[k].name != name
    case Ambiguous => exists j, k :: 0 <= j < k < |all| && all[j].name == name && all[k].name == name
    case Found(r) =>
      && (exists k :: 0 <= k < |all| && all[k] == r)
      && r.name == name
      && forall j, k :: 0 <= j < k < |all| ==> !(all[j].name == name && all[k].name == name)
  }

  function FindIn(rs: seq<ActionResult>, name: string): Lookup {
    if rs == [] then Missing
    else
      var found := FindIn(rs[..|rs| - 1], name);
      if rs[|rs| - 1].name != name then found
      else if found.Missing? then Found(rs[|rs| - 1])
      else Ambiguous
  }

  lemma {:induction false} FindInIsExact(rs: seq<ActionResult>, name: string)
    ensures IsLookup(rs, name, FindIn(rs, name))
  {
    if rs != [] {
      var init := rs[..|rs| - 1];
      FindInIsExact(init, name);
      assert forall k :: 0 <= k < |init| ==> rs[k] == init[k];
      var last := rs[|rs| - 1];
      if last.name == name {
        match FindIn(init, name) {
          case Missing =>
          case Ambiguous =>
          case Found(r) =>
            var k :| 0 <= k < |init| && init[k] == r;
            assert rs[k].name == name && rs[|rs| - 1].name == name && k < |rs| - 1;
        }
      }
    }
  }

  /** The three answers exclude each other. */
  lemma LookupIsUnique(all: seq<ActionResult>, name: string, l: Lookup, m: Lookup)
    requires IsLookup(all, name, l) && IsLookup(all, name, m)
    ensures l == m
  {
    if l.Found? && m.Found? {
      var j :| 0 <= j < |all| && all[j] == l.result;
      var k :| 0 <= k < |all| && all[k] == m.result;
      assert j == k;
    }
  }

  /** One more result looked at. */
  lemma FindInExtends(rs: seq<ActionResult>, i: nat, name: string)
    requires i < |rs|
    ensures var found := FindIn(rs[..i], name);
            FindIn(rs[..i + 1], name) ==
            if rs[i].name != name then found else if found.Missing? then Found(rs[i]) else Ambiguous
  {
    assert rs[..i + 1][..i] == rs[..i];
  }

  method FindActionResult(pre: seq<ActionResult>, post: seq<ActionResult>, name: string) returns (l: Lookup)
    ensures l == FindIn(pre + post, name)
  {
    hide FindIn;
    ghost var all := pre + post;
    var m: Option<ActionResult> := None;
    assert FindIn(all[..0], name) == Missing by { FindInEmpty(all[..0], name); }
    for i := 0 to |pre|
      invariant FindIn(all[..i], name) == if m.None? then Missing else Found(m.value)
    {
      FindInExtends(all, i, name);
      if pre[i].name == name {
        if m.Some? {
          AmbiguityStays(all, i + 1, name);
          return Ambiguous;
        }
        m := Some(pre[i]);
      }
    }
    for i := 0 to |post|
      invariant FindIn(all[..|pre| + i], name) == if m.None? then Missing else Found(m.value)
    {
      FindInExtends(all, |pre| + i, name);
      if post[i].name == name {
        if m.Some? {
          AmbiguityStays(all, |pre| + i + 1, name);
          return Ambiguous;
        }
        m := Some(post[i]);
      }
    }
    assert all[..|pre| + |post|] == all;
    return if m.None? then Missing else Found(m.value);
  }

  lemma FindInEmpty(rs: seq<ActionResult>, name: string)
    requires rs == []
    ensures FindIn(rs, name) == Missing
  {
  }

  lemma {:induction false} AmbiguityStays(rs: seq<ActionResult>, n: nat, name: string)
    requires n <= |rs| && FindIn(rs[..n], name) == Ambiguous
    ensures FindIn(rs, name) == Ambiguous
    decreases |rs| - n
  {
    if n == |rs| {
      assert rs[..n] == rs;
    } else {
      assert rs[..n + 1][..n] == rs[..n];
      AmbiguityStays(rs, n + 1, name);
    }
  }

  function AnswerFor(r: ActionResult): Answer {
    match r.status
    case Succeeded => Fulfilled
    case Skipped => Fulfilled
    case Failed => Refused
    case _ => Waiting
  }

  // ----- The two conditions -----

  predicate DirectionMatches(t: Option<Transition>, direction: Option<Direction>) {
    direction.None? || (t.Some? && t.value.direction == direction.value)
  }

  predicate StartedSince(t: Option<Transition>, since: Option<Time>) {
    since.None? || (t.Some? && t.value.startedAt.Some? && t.value.startedAt.value >= since.value)
  }

  function PhaseOf(remote: FailoverService): Phase {
    if remote.status.transition.Some? then remote.status.transition.value.phase else Idle
  }

  function CheckPhase(
    remote: FailoverService, events: seq<Event>, target: Phase, since: Option<Time>, direction: Option<Direction>): Answer
  {
    var recent := Recent(events, remote.name, since, direction);
    if PhaseOf(remote) == Idle then
      if recent.Some? && Terminal(recent.value) then Fulfilled else Waiting
    else if target == Idle then Waiting
    else if !DirectionMatches(remote.status.transition, direction) then Waiting
    else if PhaseOrder(PhaseOf(remote)) >= PhaseOrder(target) && StartedSince(remote.status.transition, since) then Fulfilled
    else Waiting
  }

  /** Evidence that the remote is past a phase: a matching transition in flight, or one on record. */
  predicate PhaseEvidence(
    remote: FailoverService, events: seq<Event>, target: Phase, since: Option<Time>, direction: Option<Direction>)
  {
    || (&& remote.status.transition.Some?
        && DirectionMatches(remote.status.transition, direction)
        && StartedSince(remote.status.transition, since)
        && target != Idle && PhaseOf(remote) != Idle
        && PhaseOrder(PhaseOf(remote)) >= PhaseOrder(target))
    || (&& PhaseOf(remote) == Idle
        && exists k :: 0 <= k < |events| && Matches(events[k], remote.name, since, direction) && Terminal(events[k]))
  }

  /**
   * Success is reported only on evidence of the right direction that does not predate the local start;
   * and it is reported on that evidence, unless a later matching event is still open.
   */
  lemma PhaseCheckIsSound(
    remote: FailoverService, events: seq<Event>, target: Phase, since: Option<Time>, direction: Option<Direction>)
    ensures CheckPhase(remote, events, target, since, direction) != Refused
    ensures CheckPhase(remote, events, target, since, direction) == Fulfilled ==>
              PhaseEvidence(remote, events, target, since, direction)
    ensures PhaseEvidence(remote, events, target, since, direction) ==>
              || CheckPhase(remote, events, target, since, direction) == Fulfilled
              || exists k :: 0 <= k < |events| && Matches(events[k], remote.name, since, direction) && !Terminal(events[k])
  {
    RecentIsExact(events, remote.name, since, direction);
  }

  /** The phases at or past a target. */
  predicate AtOrPast(phase: Phase, target: Phase) {
    match target
    case Idle => true
    case ExecutingPreActions => phase != Idle
    case UpdatingResources => phase in {UpdatingResources, FlushingConnections, ExecutingPostActions}
    case FlushingConnections => phase in {FlushingConnections, ExecutingPostActions}
    case ExecutingPostActions => phase == ExecutingPostActions
  }

  /** The remote is in no phase of a transition. */
  predicate RemoteIdle(remote: FailoverService) {
    remote.status.transition.Some? ==> remote.status.transition.value.phase == Idle
  }

  /** The remote transition in flight is of the right direction and did not start before the local one. */
  predicate Correlates(remote: FailoverService, since: Time, direction: Direction) {
    && remote.status.transition.Some?
    && remote.status.transition.value.direction == direction
    && remote.status.transition.value.startedAt.Some? && remote.status.transition.value.startedAt.value >= since
  }

  /** When a phase wait is over: never by failing, and otherwise exactly as stated. */
  lemma PhaseCheckIsExact(remote: FailoverService, events: seq<Event>, target: Phase, since: Time, direction: Direction)
    ensures CheckPhase(remote, events, target, Some(since), Some(direction)) in {Fulfilled, Waiting}
    ensures CheckPhase(remote, events, target, Some(since), Some(direction)) == Fulfilled <==>
              if RemoteIdle(remote) then
                exists k :: IsRecent(events, remote.name, Some(since), Some(direction), k)
                            && events[k].outcome in {EventSucceeded, EventFailed, EventForceAdvanced}
              else
                && target != Idle && Correlates(remote, since, direction)
                && AtOrPast(remote.status.transition.value.phase, target)
  {
    if RemoteIdle(remote) {
      RecentIsExact(events, remote.name, Some(since), Some(direction));
      if exists i :: 0 <= i < |events| && Matches(events[i], remote.name, Some(since), Some(direction)) {
        RecentExists(events, remote.name, Some(since), Some(direction));
        var k :| IsRecent(events, remote.name, Some(since), Some(direction), k);
        RecentIsIt(events, remote.name, Some(since), Some(direction), k);
        forall j | IsRecent(events, remote.name, Some(since), Some(direction), j) ensures events[j] == events[k] {
          RecentIsIt(events, remote.name, Some(since), Some(direction), j);
        }
      }
    }
  }

  function CheckActionName(
    remote: FailoverService, events: seq<Event>, name: string, since: Option<Time>, direction: Option<Direction>): Answer
  {
    var t := remote.status.transition;
    if t.None? then
      var recent := Recent(events, remote.name, since, direction);
      if recent.None? then Waiting
      else
        match FindIn(recent.value.pre + recent.value.post, name)
        case Ambiguous => Refused
        case Found(r) => AnswerFor(r)
        case Missing => if Terminal(recent.value) then Refused else Waiting
    else if !DirectionMatches(t, direction) || !StartedSince(t, since) then Waiting
    else
      match FindIn(t.value.pre + t.value.post, name)
      case Ambiguous => Refused
      case Found(r) => AnswerFor(r)
      case Missing => Waiting
  }

  /** The result lists a named action is looked up in. */
  predicate ActionEvidence(
    remote: FailoverService, events: seq<Event>, since: Option<Time>, direction: Option<Direction>,
    pre: seq<ActionResult>, post: seq<ActionResult>)
  {
    || (&& remote.status.transition.Some?
        && DirectionMatches(remote.status.transition, direction)
        && StartedSince(remote.status.transition, since)
        && remote.status.transition.value.pre == pre && remote.status.transition.value.post == post)
    || (&& remote.status.transition.None?
        && exists k :: 0 <= k < |events| && Matches(events[k], remote.name, since, direction)
                       && events[k].pre == pre && events[k].post == post)
  }

  /** A named action counts as done only if matching results name it exactly once, as succeeded or skipped. */
  lemma ActionCheckIsSound(
    remote: FailoverService, events: seq<Event>, name: string, since: Option<Time>, direction: Option<Direction>)
    requires CheckActionName(remote, events, name, since, direction) == Fulfilled
    ensures exists pre, post, r ::
              && ActionEvidence(remote, events, since, direction, pre, post)
              && IsLookup(pre + post, name, Found(r))
              && (r.status == Succeeded || r.status == Skipped)
  {
    RecentIsExact(events, remote.name, since, direction);
    var t := remote.status.transition;
    var recent := Recent(events, remote.name, since, direction);
    var pre := if t.None? then recent.value.pre else t.value.pre;
    var post := if t.None? then recent.value.post else t.value.post;
    FindInIsExact(pre + post, name);
    var r := FindIn(pre + post, name).result;
    assert ActionEvidence(remote, events, since, direction, pre, post);
    assert IsLookup(pre + post, name, Found(r));
  }

  /** What a lookup of the action answers; `over` says that no further result will be recorded. */
  predicate LookupAnswers(l: Lookup, over: bool, answer: Answer) {
    match l
    case Ambiguous => answer == Refused
    case Missing => answer == if over then Refused else Waiting
    case Found(r) =>
      && (answer == Fulfilled <==> r.status in {Succeeded, Skipped})
      && (answer == Refused <==> r.status == Failed)
  }

  /**
   * What a wait for a named action answers, in every case: by the results of the correlating transition in
   * flight, or, when there is none in flight, by those of the event to go by.
   */
  lemma ActionCheckIsExact(
    remote: FailoverService, events: seq<Event>, name: string, since: Time, direction: Direction, l: Lookup, k: int)
    ensures var answer := CheckActionName(remote, events, name, Some(since), Some(direction));
            match remote.status.transition
            case Some(t) =>
              && (!Correlates(remote, since, direction) ==> answer == Waiting)
              && (Correlates(remote, since, direction) && IsLookup(t.pre + t.post, name, l) ==> LookupAnswers(l, false, answer))
            case None =>
              && ((forall i :: 0 <= i < |events| ==> !Matches(events[i], remote.name, Some(since), Some(direction))) ==> answer == Waiting)
              && (IsRecent(events, remote.name, Some(since), Some(direction), k)
                  && IsLookup(events[k].pre + events[k].post, name, l) ==>
                    LookupAnswers(l, events[k].outcome in {EventSucceeded, EventFailed, EventForceAdvanced}, answer))
  {
    match remote.status.transition {
      case Some(t) =>
        FindInIsExact(t.pre + t.post, name);
        if IsLookup(t.pre + t.post, name, l) {
          LookupIsUnique(t.pre + t.post, name, l, FindIn(t.pre + t.post, name));
        }
      case None =>
        RecentIsExact(events, remote.name, Some(since), Some(direction));
        if IsRecent(events, remote.name, Some(since), Some(direction), k) {
          RecentIsIt(events, remote.name, Some(since), Some(direction), k);
          var all := events[k].pre + events[k].post;
          FindInIsExact(all, name);
          if IsLookup(all, name, l) {
            LookupIsUnique(all, name, l, FindIn(all, name));
          }
        }
    }
  }

  /** The whole executor; an unreachable remote or a failed listing keeps it waiting. */
  function Execute(
    kind: ExecutorKind, reachable: bool, remote: FailoverService, events: seq<Event>,
    since: Option<Time>, direction: Option<Direction>): Answer
    requires kind.WaitRemote?
  {
    if !reachable then Waiting
    else if kind.phase.Some? then CheckPhase(remote, events, kind.phase.value, since, direction)
    else if kind.actionName.Some? then CheckActionName(remote, events, kind.actionName.value, since, direction)
    else Refused
  }

  /** An unreachable remote keeps the action waiting; without a phase or a name it can only fail. */
  lemma ExecutorIsExact(
    kind: ExecutorKind, reachable: bool, remote: FailoverService, events: seq<Event>, since: Time, direction: Direction)
    requires kind.WaitRemote?
    ensures var answer := Execute(kind, reachable, remote, events, Some(since), Some(direction));
            && (!reachable ==> answer == Waiting)
            && (reachable ==>
                  match (kind.phase, kind.actionName)
                  case (Some(phase), _) => answer == CheckPhase(remote, events, phase, Some(since), Some(direction))
                  case (None, Some(name)) => answer == CheckActionName(remote, events, name, Some(since), Some(direction))
                  case (None, None) => answer == Refused)
  {
  }
}
