/** Dependency graphs of a plan: worklist reachability and plan admission. */
module Dependencies {

  type Graph = map<string, seq<string>>

  function Direct(g: Graph, node: string): seq<string> {
    if node in g then g[node] else []
  }

  /** (a, b) when a depends on b directly. */
  type Edges = set<(string, string)>

  function EdgesOf(g: Graph): Edges {
    set n, d | n in g && d in g[n] :: (n, d)
  }

  ghost predicate IsPath(e: Edges, p: seq<string>) {
    |p| >= 2 && forall i :: 0 <= i < |p| - 1 ==> (p[i], p[i + 1]) in e
  }

  /** There is a non-empty dependency path. */
  ghost predicate Reaches(e: Edges, a: string, b: string) {
    exists p :: IsPath(e, p) && p[0] == a && p[|p| - 1] == b
  }

  lemma EdgeReaches(e: Edges, a: string, b: string)
    requires (a, b) in e
    ensures Reaches(e, a, b)
  {
    assert IsPath(e, [a, b]);
  }

  lemma ReachesFurther(e: Edges, a: string, b: string, c: string)
    requires Reaches(e, a, b) && (b, c) in e
    ensures Reaches(e, a, c)
  {
    var p :| IsPath(e, p) && p[0] == a && p[|p| - 1] == b;
    var q := p + [c];
    forall i | 0 <= i < |q| - 1
      ensures (q[i], q[i + 1]) in e
    {
      if i == |p| - 1 {
        assert (q[i], q[i + 1]) == (b, c);
      } else {
        assert (q[i], q[i + 1]) == (p[i], p[i + 1]);
      }
    }
    assert IsPath(e, q);
  }

  /** A set closed under dependencies holds the whole tail of a path. */
  lemma {:induction false} ClosedHoldsPath(e: Edges, s: set<string>, p: seq<string>, k: nat)
    requires IsPath(e, p) && 1 <= k < |p| && p[1] in s
    requires forall a, b :: (a, b) in e && a in s ==> b in s
    ensures p[k] in s
  {
    if k > 1 {
      ClosedHoldsPath(e, s, p, k - 1);
      assert (p[k - 1], p[k]) in e;
    }
  }

  lemma NoEscape(e: Edges, node: string, s: set<string>, d: string)
    requires forall b :: (node, b) in e ==> b in s
    requires forall a, b :: (a, b) in e && a in s ==> b in s
    requires Reaches(e, node, d)
    ensures d in s
  {
    var p :| IsPath(e, p) && p[0] == node && p[|p| - 1] == d;
    assert (p[0], p[1]) in e;
    ClosedHoldsPath(e, s, p, |p| - 1);
  }

  // ---- worklists ----

  ghost function Names(g: Graph): set<string> {
    set n, d | n in g && d in g[n] :: d
  }

  /** What both worklists keep: everything seen is reachable, and whatever a
      seen node depends on is seen or waiting. */
  ghost predicate Progress(g: Graph, node: string, pending: seq<string>, seen: set<string>) {
    && seen <= Names(g)
    && (forall d :: d in pending || d in seen ==> Reaches(EdgesOf(g), node, d))
    && (forall d :: d in pending ==> d in Names(g))
    && (forall d :: d in Direct(g, node) ==> d in pending || d in seen)
    && (forall v, d :: v in seen && d in Direct(g, v) ==> d in pending || d in seen)
  }

  lemma ProgressStarts(g: Graph, node: string)
    ensures Progress(g, node, Direct(g, node), {})
  {
    forall d | d in Direct(g, node)
      ensures Reaches(EdgesOf(g), node, d) && d in Names(g)
    {
      EdgeReaches(EdgesOf(g), node, d);
    }
  }

  /** Taking the last waiting name, known or new. */
  lemma ProgressStep(g: Graph, node: string, pending: seq<string>, seen: set<string>)
    requires Progress(g, node, pending, seen) && pending != []
    ensures var d, rest := pending[|pending| - 1], pending[..|pending| - 1];
            if d in seen then Progress(g, node, rest, seen)
            else Progress(g, node, rest + Direct(g, d), seen + {d}) && seen + {d} <= Names(g)
  {
    var d, rest := pending[|pending| - 1], pending[..|pending| - 1];
    assert forall x :: x in pending <==> x in rest || x == d;
    if d !in seen {
      forall x | x in Direct(g, d)
        ensures Reaches(EdgesOf(g), node, x) && x in Names(g)
      {
        ReachesFurther(EdgesOf(g), node, d, x);
      }
    }
  }

  lemma ProgressDone(g: Graph, node: string, seen: set<string>)
    requires Progress(g, node, [], seen)
    ensures forall d :: d in seen <==> Reaches(EdgesOf(g), node, d)
  {
    forall d | Reaches(EdgesOf(g), node, d)
      ensures d in seen
    {
      NoEscape(EdgesOf(g), node, seen, d);
    }
  }

  /** `_depends_on`, on any graph, cyclic ones included. */
  method DependsOn(node: string, possible: string, g: Graph) returns (found: bool)
    ensures found <==> Reaches(EdgesOf(g), node, possible)
  {
    hide Progress, Reaches, EdgesOf;
    var pending := Direct(g, node);
    var visited: set<string> := {};
    ProgressStarts(g, node);
    while pending != []
      invariant Progress(g, node, pending, visited) && visited <= Names(g) && possible !in visited
      decreases |Names(g) - visited|, |pending|
    {
      ProgressStep(g, node, pending, visited);
      var dependency := pending[|pending| - 1];
      if dependency == possible {
        PendingReachable(g, node, pending, visited);
        return true;
      }
      pending := pending[..|pending| - 1];
      if dependency in visited { continue; }
      NewNameCounts(g, dependency, node, pending, visited);
      visited := visited + {dependency};
      pending := pending + Direct(g, dependency);
    }
    ProgressDone(g, node, visited);
    return false;
  }

  lemma PendingReachable(g: Graph, node: string, pending: seq<string>, seen: set<string>)
    requires Progress(g, node, pending, seen) && pending != []
    ensures Reaches(EdgesOf(g), node, pending[|pending| - 1])
  {
  }

  lemma NewNameCounts(g: Graph, d: string, node: string, rest: seq<string>, seen: set<string>)
    requires seen + {d} <= Names(g) && d !in seen
    ensures |Names(g) - (seen + {d})| < |Names(g) - seen|
  {
    assert Names(g) - seen == (Names(g) - (seen + {d})) + {d};
  }

  /** `_dependency_closure`. */
  method DependencyClosure(node: string, g: Graph) returns (resolved: set<string>)
    ensures forall d :: d in resolved <==> Reaches(EdgesOf(g), node, d)
  {
    hide Progress, Reaches, EdgesOf;
    resolved := {};
    var pending := Direct(g, node);
    ProgressStarts(g, node);
    while pending != []
      invariant Progress(g, node, pending, resolved) && resolved <= Names(g)
      decreases |Names(g) - resolved|, |pending|
    {
      ProgressStep(g, node, pending, resolved);
      var dependency := pending[|pending| - 1];
      pending := pending[..|pending| - 1];
      if dependency in resolved { continue; }
      NewNameCounts(g, dependency, node, pending, resolved);
      resolved := resolved + {dependency};
      pending := pending + Direct(g, dependency);
    }
    ProgressDone(g, node, resolved);
  }

  // ---- plan admission ----

  datatype Stream = Stream(id: string, dependencies: seq<string>)

  function StreamEdges(streams: seq<Stream>): Edges {
    set s, d | s in streams && d in s.dependencies :: (s.id, d)
  }

  predicate DependsOnAny(s: Stream, stopped: set<string>) {
    exists d :: d in s.dependencies && d in stopped
  }

  /** Whoever depends on a member is a member. */
  ghost predicate ClosedUnderDependents(streams: seq<Stream>, stopped: set<string>) {
    forall s :: s in streams && DependsOnAny(s, stopped) ==> s.id in stopped
  }

  ghost function Ids(streams: seq<Stream>): set<string> {
    set s | s in streams :: s.id
  }

  /** `stopped` lies in every closed set that holds the rejected streams. */
  ghost predicate Forced(streams: seq<Stream>, rejected: set<string>, stopped: set<string>) {
    forall t :: rejected <= t && ClosedUnderDependents(streams, t) ==> stopped <= t
  }

  lemma ForcedStep(streams: seq<Stream>, rejected: set<string>, stopped: set<string>, s: Stream)
    requires Forced(streams, rejected, stopped) && s in streams && DependsOnAny(s, stopped) && s.id !in stopped
    ensures Forced(streams, rejected, stopped + {s.id})
    ensures |Ids(streams) - (stopped + {s.id})| < |Ids(streams) - stopped|
  {
    assert s.id in Ids(streams);
    assert Ids(streams) - stopped == (Ids(streams) - (stopped + {s.id})) + {s.id};
    forall t | rejected <= t && ClosedUnderDependents(streams, t)
      ensures stopped + {s.id} <= t
    {
      assert DependsOnAny(s, t);
    }
  }

  /** The admission loop: bounded mode also stops every dependent. */
  method StopStreams(streams: seq<Stream>, rejected: set<string>, bounded: bool) returns (stopped: set<string>)
    ensures rejected <= stopped
    ensures !bounded ==> stopped == rejected
    ensures bounded ==> ClosedUnderDependents(streams, stopped)
    ensures Forced(streams, rejected, stopped)
  {
    hide Ids;
    stopped := rejected;
    if bounded {
      var changed := true;
      while changed
        invariant rejected <= stopped && Forced(streams, rejected, stopped)
        invariant !changed ==> ClosedUnderDependents(streams, stopped)
        decreases |Ids(streams) - stopped|, changed
      {
        changed := false;
        ghost var before := stopped;
        for k := 0 to |streams|
          invariant before <= stopped && Forced(streams, rejected, stopped)
          invariant if changed then |Ids(streams) - stopped| < |Ids(streams) - before| else stopped == before
          invariant !changed ==>
                      forall i :: 0 <= i < k && DependsOnAny(streams[i], stopped) ==> streams[i].id in stopped
        {
          var stream := streams[k];
          if stream.id in stopped { continue; }
          if DependsOnAny(stream, stopped) {
            ForcedStep(streams, rejected, stopped, stream);
            stopped := stopped + {stream.id};
            changed := true;
          }
        }
      }
    }
  }

  /** In bounded mode a name is stopped exactly when it was rejected or some
      dependency path leads from it to a rejected one. */
  lemma StoppedIsReachability(streams: seq<Stream>, rejected: set<string>, stopped: set<string>, x: string)
    requires rejected <= stopped && ClosedUnderDependents(streams, stopped)
    requires Forced(streams, rejected, stopped)
    ensures x in stopped <==> x in rejected || exists r :: r in rejected && Reaches(StreamEdges(streams), x, r)
  {
    var e := StreamEdges(streams);
    if r :| r in rejected && Reaches(e, x, r) {
      var p :| IsPath(e, p) && p[0] == x && p[|p| - 1] == r;
      BackwardsStopped(streams, stopped, p, 0);
    }
    if x in stopped {
      var t := set y | y in stopped && (y in rejected || LeadsTo(e, y, rejected));
      forall s | s in streams && DependsOnAny(s, t)
        ensures s.id in t
      {
        var d :| d in s.dependencies && d in t;
        assert (s.id, d) in e && DependsOnAny(s, stopped);
        if d in rejected {
          EdgeReaches(e, s.id, d);
        } else {
          var r :| r in rejected && Reaches(e, d, r);
          ReachesFrom(e, s.id, d, r);
        }
      }
      assert stopped <= t;
      assert x in rejected || LeadsTo(e, x, rejected);
    }
  }

  ghost predicate LeadsTo(e: Edges, x: string, rejected: set<string>) {
    exists r :: r in rejected && Reaches(e, x, r)
  }

  lemma ReachesFrom(e: Edges, a: string, b: string, c: string)
    requires (a, b) in e && Reaches(e, b, c)
    ensures Reaches(e, a, c)
  {
    var p :| IsPath(e, p) && p[0] == b && p[|p| - 1] == c;
    var q := [a] + p;
    forall i | 0 <= i < |q| - 1
      ensures (q[i], q[i + 1]) in e
    {
      if i == 0 {
        assert (q[0], q[1]) == (a, b);
      } else {
        assert (q[i], q[i + 1]) == (p[i - 1], p[i]);
      }
    }
    assert IsPath(e, q);
  }

  lemma {:induction false} BackwardsStopped(streams: seq<Stream>, stopped: set<string>, p: seq<string>, k: nat)
    requires IsPath(StreamEdges(streams), p) && k < |p| && p[|p| - 1] in stopped
    requires ClosedUnderDependents(streams, stopped)
    ensures p[k] in stopped
    decreases |p| - k
  {
    if k < |p| - 1 {
      BackwardsStopped(streams, stopped, p, k + 1);
      assert (p[k], p[k + 1]) in StreamEdges(streams);
      var s :| s in streams && s.id == p[k] && p[k + 1] in s.dependencies;
      assert DependsOnAny(s, stopped);
    }
  }
}
