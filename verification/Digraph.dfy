/** Finite directed graphs given as a set of pairs: paths, cycles and the two
    arguments every ordering proof in this project rests on.  A set in which
    each member has a predecessor in the set lies downstream of a cycle; and
    nothing that can be listed predecessors-first does. */
module Digraph {
  import opened Common

  type Rel<T(==)> = set<(T, T)>

  ghost predicate IsPath<T>(r: Rel<T>, p: seq<T>) {
    |p| > 0 && forall i :: 0 < i < |p| ==> (p[i - 1], p[i]) in r
  }

  ghost predicate IsCycle<T>(r: Rel<T>, p: seq<T>) {
    IsPath(r, p) && |p| >= 2 && p[0] == p[|p| - 1]
  }

  ghost predicate Acyclic<T(!new)>(r: Rel<T>) {
    forall p: seq<T> :: !IsCycle(r, p)
  }

  ghost predicate PathFrom<T>(r: Rel<T>, p: seq<T>, a: T, b: T) {
    IsPath(r, p) && p[0] == a && p[|p| - 1] == b
  }

  ghost predicate Reaches<T(!new)>(r: Rel<T>, a: T, b: T) {
    exists p: seq<T> :: PathFrom(r, p, a, b)
  }

  ghost predicate OnCycle<T(!new)>(r: Rel<T>, x: T) {
    exists p: seq<T> :: IsCycle(r, p) && p[0] == x
  }

  /** On a cycle, or reachable from one. */
  ghost predicate BehindCycle<T(!new)>(r: Rel<T>, x: T) {
    exists c: T :: OnCycle(r, c) && Reaches(r, c, x)
  }

  /** Every predecessor of a listed element is listed before it. */
  ghost predicate PredecessorsFirst<T(!new)>(r: Rel<T>, order: seq<T>) {
    forall a: T, j: nat :: j < |order| && (a, order[j]) in r ==> a in order[..j]
  }

  function Reverse<T(!new)>(r: Rel<T>): (s: Rel<T>)
    ensures forall a: T, b: T :: (b, a) in s <==> (a, b) in r
  {
    set e | e in r :: (e.1, e.0)
  }

  ghost predicate HasPredecessorIn<T(!new)>(r: Rel<T>, s: set<T>, y: T) {
    exists z :: z in s && (z, y) in r
  }

  ghost predicate NoSource<T(!new)>(r: Rel<T>, s: set<T>) {
    forall y {:trigger HasPredecessorIn(r, s, y)} :: y in s ==> HasPredecessorIn(r, s, y)
  }

  // ----- paths -----

  lemma ReachesSelf<T(!new)>(r: Rel<T>, a: T)
    ensures Reaches(r, a, a)
  {
    assert PathFrom(r, [a], a, a);
  }

  lemma ReachesStep<T(!new)>(r: Rel<T>, a: T, b: T, c: T)
    requires Reaches(r, a, b) && (b, c) in r
    ensures Reaches(r, a, c)
  {
    var p: seq<T> :| PathFrom(r, p, a, b);
    assert PathFrom(r, p + [c], a, c);
  }

  lemma ReachesFirst<T(!new)>(r: Rel<T>, a: T, b: T, c: T)
    requires (a, b) in r && Reaches(r, b, c)
    ensures Reaches(r, a, c)
  {
    var p: seq<T> :| PathFrom(r, p, b, c);
    assert PathFrom(r, [a] + p, a, c);
  }

  lemma ReachesTrans<T(!new)>(r: Rel<T>, a: T, b: T, c: T)
    requires Reaches(r, a, b) && Reaches(r, b, c)
    ensures Reaches(r, a, c)
  {
    var p: seq<T> :| PathFrom(r, p, a, b);
    var q: seq<T> :| PathFrom(r, q, b, c);
    assert PathFrom(r, p + q[1..], a, c);
  }

  /** A set closed under successors holds everything reachable from a member. */
  lemma {:induction false} ReachesStaysIn<T(!new)>(r: Rel<T>, closed: set<T>, p: seq<T>)
    requires IsPath(r, p) && p[0] in closed
    requires forall e :: e in r && e.0 in closed ==> e.1 in closed
    ensures p[|p| - 1] in closed
  {
    if |p| > 1 {
      ReachesStaysIn(r, closed, p[..|p| - 1]);
      assert (p[|p| - 2], p[|p| - 1]) in r;
    }
  }

  lemma ReverseAcyclic<T(!new)>(r: Rel<T>)
    requires Acyclic(r)
    ensures Acyclic(Reverse(r))
  {
    forall p: seq<T> ensures !IsCycle(Reverse(r), p) {
      if IsCycle(Reverse(r), p) {
        var q := seq(|p|, i requires 0 <= i < |p| => p[|p| - 1 - i]);
        forall i | 0 < i < |q| ensures (q[i - 1], q[i]) in r {
          assert (p[|p| - 1 - i], p[|p| - i]) in Reverse(r);
        }
        assert IsCycle(r, q);
      }
    }
  }

  // ----- the pigeonhole argument -----

  /** A walk of any length that ends in `x` and never leaves `s`. */
  lemma {:induction false} WalkBack<T(!new)>(r: Rel<T>, s: set<T>, x: T, n: nat) returns (p: seq<T>)
    requires x in s
    requires NoSource(r, s)
    ensures |p| == n + 1 && IsPath(r, p) && p[n] == x
    ensures forall i :: 0 <= i < |p| ==> p[i] in s
  {
    if n == 0 {
      p := [x];
    } else {
      var q := WalkBack(r, s, x, n - 1);
      assert HasPredecessorIn(r, s, q[0]);
      var z :| z in s && (z, q[0]) in r;
      p := [z] + q;
    }
  }

  lemma LongWalkRepeats<T>(p: seq<T>, s: set<T>)
    requires forall i :: 0 <= i < |p| ==> p[i] in s
    requires |p| > |s|
    ensures !NoDup(p)
  {
    if NoDup(p) {
      NoDupSize(p);
      assert Elems(p) <= s;
      SubsetSize(Elems(p), s);
    }
  }

  /** If each member of `s` has a predecessor in `s`, each member is on or behind a cycle. */
  lemma NoSourceMeansCycle<T(!new)>(r: Rel<T>, s: set<T>, x: T)
    requires x in s
    requires NoSource(r, s)
    ensures BehindCycle(r, x)
    ensures !Acyclic(r)
  {
    var p := WalkBack(r, s, x, |s|);
    LongWalkRepeats(p, s);
    var i, j :| 0 <= i < j < |p| && p[i] == p[j];
    var c := p[i..j + 1];
    forall k | 0 < k < |c| ensures (c[k - 1], c[k]) in r {
      assert (p[i + k - 1], p[i + k]) in r;
    }
    assert IsCycle(r, c) && c[0] == p[i];
    assert OnCycle(r, p[i]);
    var q := p[i..];
    forall k | 0 < k < |q| ensures (q[k - 1], q[k]) in r {
      assert (p[i + k - 1], p[i + k]) in r;
    }
    assert PathFrom(r, q, p[i], x);
  }

  /** Well-founded induction in the form used below: in an acyclic relation
      every non-empty finite set has a member with no predecessor in the set. */
  lemma AcyclicHasSource<T(!new)>(r: Rel<T>, s: set<T>) returns (x: T)
    requires Acyclic(r) && s != {}
    ensures x in s && forall z :: z in s ==> (z, x) !in r
  {
    if NoSource(r, s) {
      var y :| y in s;
      NoSourceMeansCycle(r, s, y);
    }
    x :| x in s && !HasPredecessorIn(r, s, x);
  }

  lemma AcyclicHasSink<T(!new)>(r: Rel<T>, s: set<T>) returns (x: T)
    requires Acyclic(r) && s != {}
    ensures x in s && forall z :: z in s ==> (x, z) !in r
  {
    ReverseAcyclic(r);
    x := AcyclicHasSource(Reverse(r), s);
  }

  // ----- orders -----

  /** Along a path that ends at position `j`, the first element sits at or before `j`,
      strictly before it when the path has an edge. */
  lemma {:induction false} PathGoesForward<T(!new)>(r: Rel<T>, order: seq<T>, p: seq<T>, j: nat) returns (i: nat)
    requires PredecessorsFirst(r, order)
    requires IsPath(r, p) && j < |order| && p[|p| - 1] == order[j]
    ensures i <= j && order[i] == p[0]
    ensures |p| >= 2 ==> i < j
  {
    if |p| == 1 {
      i := j;
    } else {
      var a := p[|p| - 2];
      assert (a, order[j]) in r;
      var k :| 0 <= k < |order[..j]| && order[..j][k] == a;
      assert order[k] == a;
      i := PathGoesForward(r, order, p[..|p| - 1], k);
    }
  }

  /** What is listed predecessors-first, without repeats, is not behind any cycle. */
  lemma ListedIsNotBehindCycle<T(!new)>(r: Rel<T>, order: seq<T>, x: T)
    requires NoDup(order) && PredecessorsFirst(r, order)
    requires x in order
    ensures !BehindCycle(r, x)
  {
    if BehindCycle(r, x) {
      var c: T :| OnCycle(r, c) && Reaches(r, c, x);
      var p: seq<T> :| PathFrom(r, p, c, x);
      var j: nat :| j < |order| && order[j] == x;
      var i := PathGoesForward(r, order, p, j);
      var q: seq<T> :| IsCycle(r, q) && q[0] == c;
      var k := PathGoesForward(r, order, q, i);
    }
  }

  /** A cycle's members are behind a cycle, so a total predecessors-first order rules cycles out. */
  lemma OrderedIsAcyclic<T(!new)>(r: Rel<T>, order: seq<T>)
    requires NoDup(order) && PredecessorsFirst(r, order)
    requires forall e :: e in r ==> e.1 in order
    ensures Acyclic(r)
  {
    forall p: seq<T> ensures !IsCycle(r, p) {
      if IsCycle(r, p) {
        assert (p[|p| - 2], p[|p| - 1]) in r;
        assert OnCycle(r, p[0]);
        ReachesSelf(r, p[0]);
        ListedIsNotBehindCycle(r, order, p[0]);
      }
    }
  }

  // ----- worklist searches -----

  ghost predicate ReachedFrom<T(!new)>(r: Rel<T>, starts: set<T>, n: T) {
    exists t :: t in starts && Reaches(r, t, n)
  }

  /** The invariant of a search that follows `r` inside `live` from `starts`: the nodes
      `seen` are reached ones, and what remains to be reached goes through the queue.
      Queued elements outside `live` are dropped when their turn comes. */
  ghost predicate Searching<T(!new)>(r: Rel<T>, live: set<T>, starts: set<T>, seen: seq<T>, queue: seq<T>) {
    && NoDup(seen)
    && (forall n :: n in seen ==> n in live && ReachedFrom(r, starts, n))
    && (forall q :: q in queue && q in live ==> ReachedFrom(r, starts, q))
    && (forall t :: t in starts ==> t in seen || t in queue)
    && (forall e :: e in r && e.0 in seen ==> e.1 in seen || e.1 in queue)
  }

  lemma SearchStarts<T(!new)>(r: Rel<T>, live: set<T>, starts: set<T>, queue: seq<T>)
    requires forall q :: q in queue && q in live ==> q in starts
    requires forall t :: t in starts ==> t in queue
    ensures Searching(r, live, starts, [], queue)
  {
    forall q | q in queue && q in live ensures ReachedFrom(r, starts, q) {
      ReachesSelf(r, q);
    }
  }

  lemma SearchSkips<T(!new)>(r: Rel<T>, live: set<T>, starts: set<T>, seen: seq<T>, queue: seq<T>)
    requires Searching(r, live, starts, seen, queue) && queue != []
    requires queue[0] in seen || queue[0] !in live
    requires starts <= live && forall e :: e in r ==> e.1 in live
    ensures Searching(r, live, starts, seen, queue[1..])
  {
    assert queue == [queue[0]] + queue[1..];
  }

  lemma SearchVisits<T(!new)>(
    r: Rel<T>, live: set<T>, starts: set<T>, seen: seq<T>, queue: seq<T>, targets: seq<T>)
    requires Searching(r, live, starts, seen, queue) && queue != []
    requires queue[0] !in seen && queue[0] in live
    requires forall b :: b in live ==> (b in targets <==> (queue[0], b) in r)
    requires forall e :: e in r ==> e.1 in live
    ensures Searching(r, live, starts, seen + [queue[0]], queue[1..] + targets)
  {
    var n := queue[0];
    assert queue == [n] + queue[1..];
    forall b | b in targets && b in live ensures ReachedFrom(r, starts, b) {
      var t :| t in starts && Reaches(r, t, n);
      ReachesStep(r, t, n, b);
    }
    forall e | e in r && e.0 == n ensures e.1 in targets {
      assert (n, e.1) in r;
    }
  }

  lemma SearchEnds<T(!new)>(r: Rel<T>, live: set<T>, starts: set<T>, seen: seq<T>)
    requires Searching(r, live, starts, seen, [])
    ensures forall n :: n in seen <==> ReachedFrom(r, starts, n)
  {
    forall n | ReachedFrom(r, starts, n) ensures n in seen {
      var t :| t in starts && Reaches(r, t, n);
      var p: seq<T> :| PathFrom(r, p, t, n);
      ReachesStaysIn(r, Elems(seen), p);
    }
  }
}
