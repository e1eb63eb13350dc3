/** How one step of a walk changes an execution state, and why what holds between
    dispatches still holds after it. */
module TraceSteps {
  import opened Common
  import opened Digraph
  import opened DataValues
  import opened PipelineGraph
  import opened GraphUtils
  import opened LoopHelpers
  import opened LoopBody
  import opened ExecutionBudget
  import opened Host
  import opened NodeResults
  import opened RunGraph
  import opened RunTrace

  // ----- one dispatch -----

  /** What a dispatch does to the states: its node comes to what the event says, a loop
      marks its body, a conditional skips what is pending on the branches it did not take,
      and nothing else changes. */
  ghost predicate StatesMoved(g: Graph, e: Event, v: View)
    requires e.left.Some?
  {
    && e.node in v.states && v.states[e.node] == e.left.value && Settled(e.left.value.status)
    && (forall m :: m in e.at.states || Consumes(g, e, m) <==> m in v.states)
    && (forall m :: m in v.states && m != e.node ==>
          if Consumes(g, e, m) then v.states[m] == CONSUMED
          else if Evaluated(g, e) && e.at.states[m].status == Pending && OnInactiveBranch(g, e.node, v.deactivated, m)
          then v.states[m] == PASSED_OVER
          else v.states[m] == e.at.states[m])
  }

  /** What a dispatch does to the control edges: it decides those of its node if that is a
      conditional. */
  ghost predicate EdgesMoved(job: Job, e: Event, v: View) {
    && (forall id :: id in v.activated <==> id in e.at.activated || Decides(job, e, id, true))
    && (forall id :: id in v.deactivated <==> id in e.at.deactivated || Decides(job, e, id, false))
  }

  ghost predicate Moved(job: Job, e: Event, v: View)
    requires e.left.Some?
  {
    StatesMoved(job.g, e, v) && EdgesMoved(job, e, v)
  }

  /** The dispatch marks neither its own node, nor one dispatched before, nor the loop of
      this iteration. */
  ghost predicate LeavesAlone(g: Graph, place: Place, before: Trace, e: Event) {
    && !Consumes(g, e, e.node)
    && (forall k :: 0 <= k < |before| ==> !Consumes(g, e, before[k].node))
    && (place.IterationOf? ==> !Consumes(g, e, place.loop))
  }

  /** What is dispatched in order leaves what was dispatched before it alone. */
  ghost predicate Behind(order: seq<NodeId>, j: nat, events: Trace)
    requires j <= |order|
  {
    forall k :: 0 <= k < |events| ==> events[k].node in order[..j]
  }

  ghost predicate StartedBefore(order: seq<NodeId>, j: nat, place: Place)
    requires j <= |order|
  {
    place.IterationOf? ==> place.loop in order[..j]
  }

  lemma NotInOwnBody(g: Graph, order: seq<NodeId>, i: nat, x: NodeId)
    requires Runnable(g, order) && i < |order| && x in order[..i + 1]
    ensures x !in BodyOf(g, order[i])
  {
    BodyComesLater(g, order, i);
    var k :| 0 <= k < |order[..i + 1]| && order[..i + 1][k] == x;
    assert order[k] == x;
    assert !After(order, i, x);
  }

  lemma InOrderLeavesAlone(g: Graph, order: seq<NodeId>, i: nat, place: Place, before: Trace, e: Event)
    requires Runnable(g, order) && i < |order| && e.node == order[i]
    requires Behind(order, i, before) && StartedBefore(order, i, place)
    ensures LeavesAlone(g, place, before, e)
  {
    assert order[..i + 1] == order[..i] + [order[i]];
    NotInOwnBody(g, order, i, order[i]);
    forall k | 0 <= k < |before| ensures !Consumes(g, e, before[k].node) {
      NotInOwnBody(g, order, i, before[k].node);
    }
    if place.IterationOf? {
      NotInOwnBody(g, order, i, place.loop);
    }
  }

  // ----- what a dispatch keeps -----

  lemma ConsumedSnoc(g: Graph, before: Trace, e: Event, n: NodeId)
    ensures Consumed(g, before + [e], n) <==> Consumed(g, before, n) || Consumes(g, e, n)
  {
    var after := before + [e];
    assert after[|before|] == e && forall k :: 0 <= k < |before| ==> after[k] == before[k];
    if Consumed(g, before, n) {
      var k :| 0 <= k < |before| && Consumes(g, before[k], n);
      assert Consumes(g, after[k], n);
    }
  }

  lemma DecidedSnoc(job: Job, before: Trace, e: Event, id: EdgeId, fires: bool)
    ensures DecidedBy(job, before + [e], id, fires) <==> DecidedBy(job, before, id, fires) || Decides(job, e, id, fires)
  {
    var after := before + [e];
    assert after[|before|] == e && forall k :: 0 <= k < |before| ==> after[k] == before[k];
    if DecidedBy(job, before, id, fires) {
      var k :| 0 <= k < |before| && Decides(job, before[k], id, fires);
      assert Decides(job, after[k], id, fires);
    }
  }

  lemma UntakenSnoc(g: Graph, before: Trace, e: Event, v: View, n: NodeId)
    ensures OnUntakenBranch(g, before + [e], v, n) <==>
            || OnUntakenBranch(g, before, v, n)
            || (Evaluated(g, e) && OnInactiveBranch(g, e.node, v.deactivated, n))
  {
    var after := before + [e];
    assert after[|before|] == e && forall k :: 0 <= k < |before| ==> after[k] == before[k];
    if OnUntakenBranch(g, before, v, n) {
      var k :| 0 <= k < |before| && Evaluated(g, before[k]) && OnInactiveBranch(g, before[k].node, v.deactivated, n);
      assert Evaluated(g, after[k]);
    }
  }

  lemma RanToSnoc(before: Trace, e: Event, n: NodeId, st: NodeState)
    ensures RanTo(before + [e], n, st) <==> RanTo(before, n, st) || (e.node == n && e.left == Some(st))
  {
    var after := before + [e];
    assert after[|before|] == e && forall k :: 0 <= k < |before| ==> after[k] == before[k];
    if RanTo(before, n, st) {
      var k :| 0 <= k < |before| && before[k].node == n && before[k].left == Some(st);
      assert after[k].node == n;
    }
  }

  lemma DeactivatingMore(g: Graph, c: NodeId, less: set<EdgeId>, more: set<EdgeId>, n: NodeId)
    requires less <= more && OnInactiveBranch(g, c, less, n)
    ensures OnInactiveBranch(g, c, more, n)
  {
    var t :| t in DeactivatedTargets(g, c, less) && Reaches(PlainRel(g), t, n);
    assert t in DeactivatedTargets(g, c, more);
  }

  /** What is not permitted stays so. */
  lemma StaysForbidden(job: Job, before: Trace, e: Event, v: View, n: NodeId)
    requires EdgesMoved(job, e, v) && !Permitted(job.g, before, e.at, n)
    ensures !Permitted(job.g, before + [e], v, n)
  {
    assert e.at.deactivated <= v.deactivated;
    if OnUntakenBranch(job.g, before, e.at, n) {
      var k :| 0 <= k < |before| && Evaluated(job.g, before[k]) &&
               OnInactiveBranch(job.g, before[k].node, e.at.deactivated, n);
      DeactivatingMore(job.g, before[k].node, e.at.deactivated, v.deactivated, n);
      UntakenSnoc(job.g, before, e, v, n);
    }
  }

  lemma KeepsHome(job: Job, place: Place, before: Trace, e: Event, v: View)
    requires AtHome(job.g, place, before, e.at) && e.left.Some? && StatesMoved(job.g, e, v)
    requires e.node in e.at.states && e.at.states[e.node].status == Pending
    requires LeavesAlone(job.g, place, before, e) && Calm(e.at.states)
    ensures AtHome(job.g, place, before + [e], v)
  {
    forall n ensures Consumed(job.g, before + [e], n) <==> Consumed(job.g, before, n) || Consumes(job.g, e, n) {
      ConsumedSnoc(job.g, before, e, n);
    }
    assert e.at.states.Keys <= v.states.Keys;
  }

  lemma KeepsKept(g: Graph, place: Place, before: Trace, e: Event, v: View)
    requires Kept(before, e.at) && OnceEach(before) && e.left.Some? && StatesMoved(g, e, v)
    requires e.node in e.at.states && e.at.states[e.node].status == Pending
    requires LeavesAlone(g, place, before, e)
    ensures Kept(before + [e], v) && OnceEach(before + [e])
  {
    var after := before + [e];
    forall k | 0 <= k < |before|
      ensures after[k] == before[k] && before[k].node != e.node
      ensures before[k].node in v.states && v.states[before[k].node] == e.at.states[before[k].node]
    {
    }
    assert after[|before|] == e;
  }

  lemma KeepsMarked(g: Graph, place: Place, before: Trace, e: Event, v: View)
    requires Marked(g, before, e.at) && e.left.Some? && StatesMoved(g, e, v)
    requires e.node in e.at.states && e.at.states[e.node].status == Pending
    requires LeavesAlone(g, place, before, e)
    ensures Marked(g, before + [e], v)
  {
    forall n | Consumed(g, before + [e], n) ensures n in v.states && v.states[n] == CONSUMED {
      ConsumedSnoc(g, before, e, n);
    }
  }

  lemma KeepsEdges(job: Job, before: Trace, e: Event, v: View)
    requires EdgesStand(job, before, e.at) && EdgesMoved(job, e, v)
    ensures EdgesStand(job, before + [e], v)
  {
    forall id, fires: bool
      ensures DecidedBy(job, before + [e], id, fires) <==> DecidedBy(job, before, id, fires) || Decides(job, e, id, fires)
    {
      DecidedSnoc(job, before, e, id, fires);
    }
  }

  lemma KeepsExplained(job: Job, place: Place, before: Trace, e: Event, v: View, n: NodeId)
    requires e.left.Some? && Moved(job, e, v) && n in e.at.states && n in v.states && v.states[n] == e.at.states[n]
    requires Explained(job.g, place, before, e.at, n)
    ensures Explained(job.g, place, before + [e], v, n)
  {
    RanToSnoc(before, e, n, v.states[n]);
    ConsumedSnoc(job.g, before, e, n);
    if !Permitted(job.g, before, e.at, n) {
      StaysForbidden(job, before, e, v, n);
    }
  }

  lemma KeepsAccounted(job: Job, place: Place, before: Trace, e: Event, v: View)
    requires Accounted(job.g, place, before, e.at) && e.left.Some? && Moved(job, e, v)
    ensures Accounted(job.g, place, before + [e], v)
  {
    forall n | n in v.states && Settled(v.states[n].status) ensures Explained(job.g, place, before + [e], v, n) {
      RanToSnoc(before, e, n, v.states[n]);
      ConsumedSnoc(job.g, before, e, n);
      if n != e.node && !Consumes(job.g, e, n) {
        if v.states[n] == e.at.states[n] {
          assert Explained(job.g, place, before, e.at, n);
          KeepsExplained(job, place, before, e, v, n);
        } else {
          UntakenSnoc(job.g, before, e, v, n);
        }
      }
    }
  }

  /** Deciding the edges of one conditional opens no branch of another. */
  lemma OtherBranchesStand(job: Job, e: Event, v: View, c: NodeId, n: NodeId)
    requires WellKeyed(job.g) && EdgesMoved(job, e, v) && c != e.node
    requires OnInactiveBranch(job.g, c, v.deactivated, n)
    ensures OnInactiveBranch(job.g, c, e.at.deactivated, n)
  {
    var g := job.g;
    var t :| t in DeactivatedTargets(g, c, v.deactivated) && Reaches(PlainRel(g), t, n);
    var x :| x in g.edges && x.kind.Control? && x.from == c && x.id in v.deactivated && x.to in PlainNodes(g) && x.to == t;
    forall y | y in g.edges && y.id == x.id ensures y == x {
      SameIdSameEdge(g, x, y);
    }
    assert !Decides(job, e, x.id, false);
    assert t in DeactivatedTargets(g, c, e.at.deactivated);
  }

  lemma KeepsBranchesClosed(job: Job, place: Place, before: Trace, e: Event, v: View)
    requires WellKeyed(job.g) && BranchesClosed(job.g, before, e.at) && Kept(before, e.at)
    requires e.left.Some? && Moved(job, e, v)
    requires e.node in e.at.states && e.at.states[e.node].status == Pending
    ensures BranchesClosed(job.g, before + [e], v)
  {
    forall n | n in v.states && OnUntakenBranch(job.g, before + [e], v, n) ensures v.states[n].status != Pending {
      UntakenSnoc(job.g, before, e, v, n);
      if n != e.node && !Consumes(job.g, e, n) && OnUntakenBranch(job.g, before, v, n) {
        var k :| 0 <= k < |before| && Evaluated(job.g, before[k]) &&
                 OnInactiveBranch(job.g, before[k].node, v.deactivated, n);
        OtherBranchesStand(job, e, v, before[k].node, n);
        assert OnUntakenBranch(job.g, before, e.at, n);
      }
    }
  }

  lemma MovedIsCalm(job: Job, e: Event, v: View)
    requires Calm(e.at.states) && e.left.Some? && StatesMoved(job.g, e, v)
    ensures Calm(v.states)
  {
  }

  /** A dispatch keeps what holds between dispatches. */
  lemma DispatchKeeps(job: Job, place: Place, before: Trace, e: Event, v: View)
    requires WellKeyed(job.g) && Tracks(job, place, before, e.at)
    requires e.node in e.at.states && e.at.states[e.node].status == Pending
    requires e.left.Some? && Moved(job, e, v) && LeavesAlone(job.g, place, before, e)
    ensures Tracks(job, place, before + [e], v)
  {
    KeepsHome(job, place, before, e, v);
    MovedIsCalm(job, e, v);
    KeepsKept(job.g, place, before, e, v);
    KeepsMarked(job.g, place, before, e, v);
    KeepsEdges(job, before, e, v);
    KeepsAccounted(job, place, before, e, v);
    KeepsBranchesClosed(job, place, before, e, v);
  }

  // ----- other steps -----

  /** Passing over a node whose control edges cut it off keeps it too. */
  lemma PassingKeeps(job: Job, place: Place, events: Trace, v: View, n: NodeId, w: View)
    requires Tracks(job, place, events, v) && n in v.states && v.states[n].status == Pending
    requires !IsControlPathActive(n, job.g, v.activated, v.deactivated)
    requires w == v.(states := v.states[n := PASSED_OVER])
    ensures Tracks(job, place, events, w)
  {
    assert forall m :: Consumed(job.g, events, m) ==> m != n;
    forall m ensures Permitted(job.g, events, w, m) <==> Permitted(job.g, events, v, m) {
      assert OnUntakenBranch(job.g, events, w, m) <==> OnUntakenBranch(job.g, events, v, m);
    }
    forall m | m in w.states && Settled(w.states[m].status) ensures Explained(job.g, place, events, w, m) {
      if m != n {
        assert Explained(job.g, place, events, v, m);
      }
    }
    forall m | m in w.states && OnUntakenBranch(job.g, events, w, m) ensures w.states[m].status != Pending {
      assert OnUntakenBranch(job.g, events, v, m);
    }
  }

  /** A fresh state, before anything was dispatched in it. */
  lemma FreshTracks(job: Job, place: Place, v: View)
    requires AtHome(job.g, place, [], v) && v.activated == {} && v.deactivated == {}
    requires forall n :: n in v.states ==>
                           v.states[n] == if place.IterationOf? && n == place.loop then ItemState(place.item) else IDLE
    ensures Tracks(job, place, [], v)
  {
    forall n | n in v.states && Settled(v.states[n].status) ensures Explained(job.g, place, [], v, n) {
    }
  }
}
