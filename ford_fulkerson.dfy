// The Ford-Fulkerson solver of dinic.py:123-172 (copied as JFF.py:4-39): a
// residual graph holding forward edges only, breadth-first search for an
// augmenting path that may also walk edges backwards through the
// transposed adjacency, the augmentation loop, and the min cut read off the
// final residual graph.

module FordFulkerson {
  import opened FlowGraph
  import opened Augmentation

  /** What `ford_fulkerson` needs of its arguments: the graph can be
      transposed, V names exactly the keys of E (so `f[u]` exists for every
      node a step can reach), and `c[u][v]` exists for every edge. */
  ghost predicate SolverReady<N(!new)>(G: Graph<N>, c: map<N, map<N, int>>)
  {
    && TransposeReady(G)
    && (forall u :: u in G.V <==> u in G.E)
    && (forall u, v :: u in G.E && v in G.E[u] ==> u in c && v in c[u])
  }

  /** The residual graph of dinic.py:128-130: one entry
      `{capacity: c(u, v), flow: 0}` per edge `(u, v)` and no others. */
  method BuildResidual<N(==, !new)>(G: Graph<N>, c: map<N, map<N, int>>) returns (f: map<(N, N), Entry>)
    requires SolverReady(G, c)
    ensures forall e :: e in f <==> e.0 in G.E && e.1 in G.E[e.0]
    ensures forall e :: e in f ==> f[e] == Entry(c[e.0][e.1], 0)
  {
    f := map[];
    for i := 0 to |G.V|
      invariant forall e :: e in f <==> e.0 in G.V[..i] && e.1 in G.E[e.0]
      invariant forall e :: e in f ==> e.0 in G.E && e.1 in G.E[e.0] && f[e] == Entry(c[e.0][e.1], 0)
    {
      var u := G.V[i];
      assert u in G.E;
      var vs := G.E[u];
      for k := 0 to |vs|
        invariant forall e :: e in f <==>
          (e.0 in G.V[..i] && e.1 in G.E[e.0]) || (e.0 == u && e.1 in vs[..k])
        invariant forall e :: e in f ==> e.0 in G.E && e.1 in G.E[e.0] && f[e] == Entry(c[e.0][e.1], 0)
      {
        assert vs[k] in G.E[u];
        f := f[(u, vs[k]) := Entry(c[u][vs[k]], 0)];
      }
      assert vs[..|vs|] == vs;
    }
    assert G.V[..|G.V|] == G.V;
  }

  /** The shape every residual graph of this solver keeps: V names the keys
      of E and of ET, every edge has an entry and is listed backwards in
      ET, ET lists nothing else, and there are no other entries. */
  ghost predicate Shape<N(!new)>(V: seq<N>, E: map<N, seq<N>>, ET: map<N, seq<N>>, f: map<(N, N), Entry>)
  {
    && (forall u :: u in V <==> u in E)
    && (forall u :: u in E <==> u in ET)
    && (forall u, v :: u in E && v in E[u] ==> v in E && (u, v) in f && u in ET[v])
    && (forall v, u :: v in ET && u in ET[v] ==> u in E && v in E[u])
    && (forall e :: e in f ==> e.0 in E && e.1 in E[e.0])
  }

  lemma ShapeKeys<N(!new)>(V: seq<N>, E: map<N, seq<N>>, ET: map<N, seq<N>>, f: map<(N, N), Entry>, f': map<(N, N), Entry>)
    requires Shape(V, E, ET, f) && f'.Keys == f.Keys
    ensures Shape(V, E, ET, f')
  {
    assert forall e :: e in f' <==> e in f;
  }

  lemma AddAlongEntries<N>(f: map<(N, N), Entry>, p: seq<Step<N>>, b: int)
    requires OnEdges(f, p)
    ensures forall e :: e in f ==>
      AddAlong(f, p, b)[e] == Entry(f[e].capacity, f[e].flow + b * multiset(Edges(p))[e])
  {
    forall e | e in f
      ensures AddAlong(f, p, b)[e] == Entry(f[e].capacity, f[e].flow + b * multiset(Edges(p))[e])
    {
      AddAlongCount(f, p, b, e);
    }
  }

  lemma ForwardListed<N(!new)>(G: Graph<N>, ET: map<N, seq<N>>)
    requires TransposeReady(G)
    requires forall v :: v in ET <==> v in G.V
    requires forall v :: v in ET ==> ET[v] == Incoming(G.keys, G.E, v)
    ensures forall u, v :: u in G.E && v in G.E[u] ==> v in ET && u in ET[v]
  {
    forall u, v | u in G.E && v in G.E[u]
      ensures v in ET && u in ET[v]
    {
      TransposeCounts(G, ET, u, v);
    }
  }

  lemma ReverseListed<N(!new)>(G: Graph<N>, ET: map<N, seq<N>>)
    requires TransposeReady(G)
    requires forall v :: v in ET ==> ET[v] == Incoming(G.keys, G.E, v)
    ensures forall v, u :: v in ET && u in ET[v] ==> u in G.E && v in G.E[u]
  {
    forall v, u | v in ET && u in ET[v]
      ensures u in G.E && v in G.E[u]
    {
      IncomingMember(G.keys, G.E, v, u);
    }
  }

  lemma BuiltShape<N(!new)>(G: Graph<N>, c: map<N, map<N, int>>, ET: map<N, seq<N>>, f: map<(N, N), Entry>)
    requires SolverReady(G, c)
    requires forall v :: v in ET <==> v in G.V
    requires forall u, v :: u in G.E && v in G.E[u] ==> v in ET && u in ET[v]
    requires forall v, u :: v in ET && u in ET[v] ==> u in G.E && v in G.E[u]
    requires forall e :: e in f <==> e.0 in G.E && e.1 in G.E[e.0]
    ensures Shape(G.V, G.E, ET, f)
  {
  }

  /** `transpose(G)` with the adjacency facts the residual graph needs. */
  method TransposeListed<N(!new)>(G: Graph<N>) returns (ET: map<N, seq<N>>)
    requires TransposeReady(G)
    ensures forall v :: v in ET <==> v in G.V
    ensures forall v :: v in ET ==> ET[v] == Incoming(G.keys, G.E, v)
    ensures forall u, v :: u in G.E && v in G.E[u] ==> v in ET && u in ET[v]
    ensures forall v, u :: v in ET && u in ET[v] ==> u in G.E && v in G.E[u]
  {
    ET := Transpose(G);
    ForwardListed(G, ET);
    ReverseListed(G, ET);
  }

  /** `transpose(G)` and the zero-flow residual graph, as
      `ford_fulkerson` sets them up (dinic.py:126-130). */
  method Setup<N(==, !new)>(G: Graph<N>, c: map<N, map<N, int>>) returns (ET: map<N, seq<N>>, f: map<(N, N), Entry>)
    requires SolverReady(G, c)
    ensures Shape(G.V, G.E, ET, f)
    ensures forall v :: v in ET ==> ET[v] == Incoming(G.keys, G.E, v)
    ensures forall e :: e in f <==> e.0 in G.E && e.1 in G.E[e.0]
    ensures forall e :: e in f ==> f[e] == Entry(c[e.0][e.1], 0)
  {
    ET := TransposeListed(G);
    f := BuildResidual(G, c);
    BuiltShape(G, c, ET, f);
  }

  type Queue<N> = seq<(N, seq<Step<N>>)>

  function QueueNodes<N>(q: Queue<N>): set<N>
  {
    set i | 0 <= i < |q| :: q[i].0
  }

  lemma QueueNodesSnoc<N>(q: Queue<N>, x: (N, seq<Step<N>>))
    ensures QueueNodes(q + [x]) == QueueNodes(q) + {x.0}
  {
    var q' := q + [x];
    assert q'[|q|] == x;
    forall y | y in QueueNodes(q)
      ensures y in QueueNodes(q')
    {
      var i :| 0 <= i < |q| && q[i].0 == y;
      assert q'[i] == q[i];
    }
  }

  lemma QueueNodesPop<N>(q: Queue<N>)
    requires q != []
    ensures QueueNodes(q) == {q[0].0} + QueueNodes(q[1..])
  {
    forall y | y in QueueNodes(q)
      ensures y in {q[0].0} + QueueNodes(q[1..])
    {
      var i :| 0 <= i < |q| && q[i].0 == y;
      if i > 0 {
        assert q[1..][i - 1] == q[i];
      }
    }
  }

  /** How the augmentation loop ends: no augmenting path is left; the path
      found was empty (`s == t`, where `min()` of an empty sequence raises);
      or the bound on the number of augmentations ran out.  `NoSuchSource`
      is the `KeyError` of looking up the neighbours of a source that is
      not a node. */
  datatype Outcome = Converged | EmptyPath | OutOfFuel | NoSuchSource

  class ResidualGraph<N(==, !new)> {
    const V: seq<N>
    const E: map<N, seq<N>>
    const ET: map<N, seq<N>>
    var f: map<(N, N), Entry>

    ghost predicate Valid()
      reads this
    {
      Shape(V, E, ET, f)
    }

    /** The residual graph `ford_fulkerson` builds (dinic.py:126-130):
        `transpose` of the graph and one zero-flow entry per edge. */
    constructor (G: Graph<N>, c: map<N, map<N, int>>)
      requires SolverReady(G, c)
      ensures Valid() && V == G.V && E == G.E
      ensures forall v :: v in ET ==> ET[v] == Incoming(G.keys, G.E, v)
      ensures forall e :: e in f <==> e.0 in E && e.1 in E[e.0]
      ensures forall e :: e in f ==> f[e] == Entry(c[e.0][e.1], 0)
    {
      var ET, f := Setup(G, c);
      this.V, this.E, this.ET, this.f := G.V, G.E, ET, f;
    }

    /** A step of this residual graph: along an edge listed in `E[u]`, or
        backwards along one listed in `ET[u]`. */
    ghost predicate IsStep(st: Step<N>)
      reads this
    {
      st.u in E && st.u in ET && (if st.rev then st.v in ET[st.u] else st.v in E[st.u])
    }

    lemma StepFacts(st: Step<N>)
      requires Valid() && IsStep(st)
      ensures st.v in E && EdgeOf(st) in f
    {
    }

    /** Every step is a step of the residual graph with positive residual. */
    ghost predicate Positive(p: seq<Step<N>>)
      reads this
    {
      forall i :: 0 <= i < |p| ==> IsStep(p[i]) && EdgeOf(p[i]) in f && Residual(f, p[i]) > 0
    }

    ghost predicate Reachable(s: N, t: N)
      reads this
    {
      exists p :: Chain(p, s, t) && Positive(p)
    }

    ghost predicate AugmentingPath(p: seq<Step<N>>, s: N, t: N)
      reads this
    {
      Chain(p, s, t) && Positive(p) && Simple(p, s)
    }

    /** Every positive-residual step out of `x`, forward or reverse, ends in
        `S`. */
    ghost predicate Closed(x: N, S: set<N>)
      reads this
    {
      && x in E && x in ET
      && (forall j :: 0 <= j < |E[x]| && (x, E[x][j]) in f && Residual(f, Step(x, E[x][j], false)) > 0
            ==> E[x][j] in S)
      && (forall j :: 0 <= j < |ET[x]| && (ET[x][j], x) in f && Residual(f, Step(x, ET[x][j], true)) > 0
            ==> ET[x][j] in S)
    }

    lemma ClosedStep(x: N, S: set<N>, st: Step<N>)
      requires Valid() && Closed(x, S) && IsStep(st) && st.u == x
      requires EdgeOf(st) in f && Residual(f, st) > 0
      ensures st.v in S
    {
      if st.rev {
        var j :| 0 <= j < |ET[x]| && ET[x][j] == st.v;
      } else {
        var j :| 0 <= j < |E[x]| && E[x][j] == st.v;
      }
    }

    lemma ClosedGrow(x: N, S: set<N>, S': set<N>)
      requires Closed(x, S) && S <= S'
      ensures Closed(x, S')
    {
    }

    lemma ChainTail(p: seq<Step<N>>, x: N, y: N)
      requires p != [] && Chain(p, x, y) && Positive(p)
      ensures Chain(p[1..], p[0].v, y) && Positive(p[1..])
    {
      assert forall i :: 0 <= i < |p| - 1 ==> p[1..][i] == p[i + 1];
    }

    lemma ChainSnoc(p: seq<Step<N>>, s: N, u: N, st: Step<N>)
      requires Chain(p, s, u) && Positive(p)
      requires IsStep(st) && st.u == u && EdgeOf(st) in f && Residual(f, st) > 0
      ensures Chain(p + [st], s, st.v) && Positive(p + [st])
    {
      var p' := p + [st];
      assert forall i :: 0 <= i < |p| ==> p'[i] == p[i];
    }

    /** A set that holds `x` and is closed under positive-residual steps
        holds every node a positive path from `x` reaches. */
    lemma {:induction false} ClosedReach(p: seq<Step<N>>, x: N, y: N, S: set<N>)
      requires Valid() && x in S && (forall z :: z in S ==> Closed(z, S))
      requires Chain(p, x, y) && Positive(p)
      ensures y in S
    {
      if p != [] {
        ClosedStep(x, S, p[0]);
        ChainTail(p, x, y);
        ClosedReach(p[1..], p[0].v, y, S);
      }
    }

    /** Across a set closed under positive-residual steps, every edge that
        leaves it carries at least its capacity and every edge that enters
        it carries no positive flow. */
    lemma CutEdgesSaturated(A: set<N>, u: N, v: N)
      requires Valid() && (forall x :: x in A ==> Closed(x, A))
      requires u in E && v in E[u]
      ensures u in A && v !in A ==> f[(u, v)].flow >= f[(u, v)].capacity
      ensures u !in A && v in A ==> f[(u, v)].flow <= 0
    {
      if u in A && v !in A && f[(u, v)].flow < f[(u, v)].capacity {
        ClosedStep(u, A, Step(u, v, false));
      }
      if u !in A && v in A && f[(u, v)].flow > 0 {
        ClosedStep(v, A, Step(v, u, true));
      }
    }

    ghost predicate QueueOk(entry: (N, seq<Step<N>>), s: N, seen: set<N>)
      reads this
    {
      && entry.0 in seen
      && AugmentingPath(entry.1, s, entry.0)
      && forall k :: 0 <= k < |entry.1| ==> entry.1[k].v in seen
    }

    lemma QueueOkGrow(entry: (N, seq<Step<N>>), s: N, seen: set<N>, seen': set<N>)
      requires QueueOk(entry, s, seen) && seen <= seen'
      ensures QueueOk(entry, s, seen')
    {
    }

    lemma Extend(u: N, path: seq<Step<N>>, st: Step<N>, s: N, seen: set<N>)
      requires Valid() && QueueOk((u, path), s, seen) && s in seen
      requires IsStep(st) && st.u == u && EdgeOf(st) in f && Residual(f, st) > 0
      requires st.v !in seen
      ensures QueueOk((st.v, path + [st]), s, seen + {st.v})
    {
      ChainSnoc(path, s, u, st);
      var p := path + [st];
      assert forall i :: 0 <= i < |path| ==> p[i] == path[i];
    }

    /** How the search state may move on: `seen` only grows within the
        nodes, `t` stays out of it, every newly seen node is queued, queued
        nodes stay queued, every queue entry holds an augmenting path to its
        node, and the state changes only by seeing a new node. */
    ghost predicate Grown(s: N, t: N, seen0: set<N>, q0: Queue<N>, seen: set<N>, q: Queue<N>)
      reads this
    {
      && seen0 <= seen <= E.Keys && t !in seen
      && seen - seen0 <= QueueNodes(q)
      && QueueNodes(q0) <= QueueNodes(q)
      && (forall i :: 0 <= i < |q| ==> QueueOk(q[i], s, seen))
      && (seen == seen0 ==> q == q0)
      && (seen != seen0 ==> E.Keys - seen < E.Keys - seen0)
    }

    lemma GrownTrans(s: N, t: N, seen0: set<N>, q0: Queue<N>,
                     seen1: set<N>, q1: Queue<N>, seen2: set<N>, q2: Queue<N>)
      requires Grown(s, t, seen0, q0, seen1, q1) && Grown(s, t, seen1, q1, seen2, q2)
      ensures Grown(s, t, seen0, q0, seen2, q2)
    {
      if seen2 != seen0 && seen1 != seen0 && seen2 != seen1 {
        assert E.Keys - seen2 < E.Keys - seen1 < E.Keys - seen0;
      }
    }

    /** `process(u, v, rev)` (dinic.py:146-149) for one step: a step with
        positive residual into an unseen node is recorded, and the extended
        path is returned when that node is `t`. */
    method Process(path: seq<Step<N>>, st: Step<N>, s: N, t: N, seen0: set<N>, q0: Queue<N>)
      returns (seen: set<N>, q: Queue<N>, found: Option<seq<Step<N>>>)
      requires Valid() && IsStep(st) && EdgeOf(st) in f
      requires s in seen0 && t !in seen0 && seen0 <= E.Keys
      requires QueueOk((st.u, path), s, seen0)
      requires forall i :: 0 <= i < |q0| ==> QueueOk(q0[i], s, seen0)
      ensures found.Some? ==> AugmentingPath(found.value, s, t)
      ensures found.None? ==> Grown(s, t, seen0, q0, seen, q)
      ensures found.None? ==> (Residual(f, st) > 0 ==> st.v in seen)
    {
      StepFacts(st);
      seen, q, found := seen0, q0, None;
      if Residual(f, st) > 0 && st.v !in seen {
        Extend(st.u, path, st, s, seen);
        var path' := path + [st];
        if st.v == t {
          return seen + {st.v}, q + [(st.v, path')], Some(path');
        }
        forall i | 0 <= i < |q|
          ensures QueueOk(q[i], s, seen + {st.v})
        {
          QueueOkGrow(q[i], s, seen, seen + {st.v});
        }
        QueueNodesSnoc(q, (st.v, path'));
        seen := seen + {st.v};
        q := q + [(st.v, path')];
        assert st.v in E.Keys - seen0;
      }
    }

    /** One loop of `find_augmenting_path` over the neighbours `vs` of `u`,
        forward (`rev` false, `vs` is `E[u]`) or reverse (`rev` true, `vs`
        is `ET[u]`): `process` on each in order, returning the path as soon
        as a step enters `t`. */
    method Scan(u: N, path: seq<Step<N>>, vs: seq<N>, rev: bool, s: N, t: N, seen0: set<N>, q0: Queue<N>)
      returns (seen: set<N>, q: Queue<N>, found: Option<seq<Step<N>>>)
      requires Valid() && s in seen0 && t !in seen0 && seen0 <= E.Keys
      requires forall j :: 0 <= j < |vs| ==> IsStep(Step(u, vs[j], rev))
      requires QueueOk((u, path), s, seen0)
      requires forall i :: 0 <= i < |q0| ==> QueueOk(q0[i], s, seen0)
      ensures found.Some? ==> AugmentingPath(found.value, s, t)
      ensures found.None? ==> Grown(s, t, seen0, q0, seen, q)
      ensures found.None? ==> forall j :: 0 <= j < |vs| ==>
        (EdgeOf(Step(u, vs[j], rev)) in f && Residual(f, Step(u, vs[j], rev)) > 0 ==> vs[j] in seen)
    {
      seen, q := seen0, q0;
      for k := 0 to |vs|
        invariant s in seen && Grown(s, t, seen0, q0, seen, q)
        invariant QueueOk((u, path), s, seen)
        invariant forall j :: 0 <= j < k ==>
          (EdgeOf(Step(u, vs[j], rev)) in f && Residual(f, Step(u, vs[j], rev)) > 0 ==> vs[j] in seen)
      {
        ghost var seen1, q1 := seen, q;
        StepFacts(Step(u, vs[k], rev));
        seen, q, found := Process(path, Step(u, vs[k], rev), s, t, seen, q);
        if found.Some? {
          return;
        }
        GrownTrans(s, t, seen0, q0, seen1, q1, seen, q);
        QueueOkGrow((u, path), s, seen1, seen);
      }
      found := None;
    }

    /** One turn of the search loop for a dequeued `(u, path)`: the forward
        steps of `u` in the order of `E[u]`, then the reverse steps in the
        order of `ET[u]`. */
    method Visit(u: N, path: seq<Step<N>>, s: N, t: N, seen0: set<N>, q0: Queue<N>)
      returns (seen: set<N>, q: Queue<N>, found: Option<seq<Step<N>>>)
      requires Valid() && u in E && s in seen0 && t !in seen0 && seen0 <= E.Keys
      requires QueueOk((u, path), s, seen0)
      requires forall i :: 0 <= i < |q0| ==> QueueOk(q0[i], s, seen0)
      ensures found.Some? ==> AugmentingPath(found.value, s, t)
      ensures found.None? ==> Grown(s, t, seen0, q0, seen, q) && Closed(u, seen)
    {
      seen, q, found := Scan(u, path, E[u], false, s, t, seen0, q0);
      if found.Some? {
        return;
      }
      ghost var seen1, q1 := seen, q;
      QueueOkGrow((u, path), s, seen0, seen);
      seen, q, found := Scan(u, path, ET[u], true, s, t, seen, q);
      if found.Some? {
        return;
      }
      GrownTrans(s, t, seen0, q0, seen1, q1, seen, q);
    }

    /** `find_augmenting_path` (dinic.py:143-159): breadth-first search from
        `s` that stops at the first step entering `t`.  The path found is an
        augmenting path, and none is found exactly when `t` cannot be
        reached at all. */
    method FindAugmentingPath(s: N, t: N) returns (r: Option<seq<Step<N>>>)
      requires Valid() && (s in E || s == t)
      ensures s == t ==> r == Some([])
      ensures r.Some? ==> AugmentingPath(r.value, s, t)
      ensures r.None? <==> !Reachable(s, t)
    {
      var seen: set<N> := {s};
      var q: Queue<N> := [(s, [])];
      if s == t {
        assert Chain([], s, t) && Positive([]);
        return Some([]);
      }
      ghost var done: set<N> := {};
      assert QueueNodes(q) == {s} by {
        assert q[0].0 == s;
      }
      while q != []
        invariant seen <= E.Keys && s in seen && t !in seen
        invariant done <= seen
        invariant forall x :: x in done ==> Closed(x, seen)
        invariant seen <= done + QueueNodes(q)
        invariant forall i :: 0 <= i < |q| ==> QueueOk(q[i], s, seen)
        decreases E.Keys - seen, |q|
      {
        var u, path := q[0].0, q[0].1;
        assert QueueOk(q[0], s, seen);
        QueueNodesPop(q);
        ghost var seen0 := seen;
        var found;
        seen, q, found := Visit(u, path, s, t, seen, q[1..]);
        if found.Some? {
          assert Chain(found.value, s, t) && Positive(found.value);
          return found;
        }
        forall x | x in done
          ensures Closed(x, seen)
        {
          ClosedGrow(x, seen0, seen);
        }
        done := done + {u};
      }
      forall p | Chain(p, s, t) && Positive(p)
        ensures false
      {
        ClosedReach(p, s, t, seen);
      }
      r := None;
    }

    /** `for u,v,rev in path: (f[v][u] if rev else f[u][v])["flow"] += b`
        (dinic.py:136): every step adds `b` to the entry it uses, reverse
        steps included, and no capacity changes. */
    method PushAlong(p: seq<Step<N>>, b: int)
      requires Valid() && OnEdges(f, p)
      modifies this
      ensures Valid() && f == AddAlong(old(f), p, b)
      ensures forall e :: e in f ==> f[e] == Entry(old(f)[e].capacity, old(f)[e].flow + b * multiset(Edges(p))[e])
    {
      var g := AddEach(f, p, b);
      ShapeKeys(V, E, ET, f, g);
      AddAlongEntries(f, p, b);
      f := g;
    }

    /** The corrected push: a reverse step takes `b` back off the entry it
        uses instead of adding it. */
    method CancelPush(p: seq<Step<N>>, b: int)
      requires Valid() && OnEdges(f, p)
      modifies this
      ensures Valid() && f == CancelAlong(old(f), p, b)
    {
      var g := CancelEach(f, p, b);
      ShapeKeys(V, E, ET, f, g);
      f := g;
    }

    /** One augmentation along a found path by its bottleneck: as written
        (every step adds), or, when `cancelling`, the corrected update,
        which keeps every entry within its capacity. */
    method Augment(p: seq<Step<N>>, s: N, t: N, cancelling: bool)
      requires Valid() && AugmentingPath(p, s, t) && p != []
      modifies this
      ensures Valid() && f.Keys == old(f).Keys
      ensures forall e :: e in f ==> f[e].capacity == old(f)[e].capacity
      ensures cancelling && Respects(old(f)) ==> Respects(f)
      ensures !cancelling ==> f == AddAlong(old(f), p, Bottleneck(old(f), p))
      ensures cancelling ==> f == CancelAlong(old(f), p, Bottleneck(old(f), p))
    {
      var b := Bottleneck(f, p);
      if cancelling {
        SimpleEdgesDistinct(p, s, t);
        BottleneckPositive(f, p);
        ghost var f0 := f;
        CancelPush(p, b);
        if Respects(f0) {
          CancelRespects(f0, p, b);
        }
      } else {
        PushAlong(p, b);
      }
    }

    /** The augmentation loop of `ford_fulkerson` (dinic.py:133-138), run
        for at most `fuel` augmentations: the entries and their capacities
        stay as they are, an empty path (`s == t`) ends it at once, and when
        it converges no augmenting path is left. */
    method Solve(s: N, t: N, fuel: nat, cancelling: bool) returns (outcome: Outcome)
      requires Valid() && (s in E || s == t)
      modifies this
      ensures Valid() && f.Keys == old(f).Keys
      ensures forall e :: e in f ==> f[e].capacity == old(f)[e].capacity
      ensures outcome != NoSuchSource
      ensures outcome == EmptyPath <==> s == t
      ensures outcome == EmptyPath ==> f == old(f)
      ensures outcome == Converged ==> !Reachable(s, t)
      ensures cancelling && Respects(old(f)) ==> Respects(f)
    {
      var path := FindAugmentingPath(s, t);
      var left := fuel;
      while path.Some?
        invariant Valid() && f.Keys == old(f).Keys
        invariant forall e :: e in f ==> f[e].capacity == old(f)[e].capacity
        invariant cancelling && Respects(old(f)) ==> Respects(f)
        invariant path.Some? ==> AugmentingPath(path.value, s, t)
        invariant path.None? ==> !Reachable(s, t)
        invariant s == t ==> path == Some([]) && f == old(f)
        decreases left
      {
        if path.value == [] {
          return EmptyPath;
        }
        if left == 0 {
          return OutOfFuel;
        }
        Augment(path.value, s, t, cancelling);
        left := left - 1;
        path := FindAugmentingPath(s, t);
      }
      outcome := Converged;
    }

    /** Reachability extends along a positive-residual step. */
    lemma ReachStep(s: N, u: N, st: Step<N>)
      requires Valid() && Reachable(s, u)
      requires IsStep(st) && st.u == u && EdgeOf(st) in f && Residual(f, st) > 0
      ensures Reachable(s, st.v)
    {
      var p :| Chain(p, s, u) && Positive(p);
      ChainSnoc(p, s, u, st);
    }

    /** How the cut search state may move on: the cut only grows within the
        nodes and stays reachable from `s`, every newly added node is
        queued, queued nodes stay queued and lie in the cut, and the state
        changes only by adding a node. */
    ghost predicate CutGrown(s: N, A0: set<N>, q0: seq<N>, A: set<N>, q: seq<N>)
      reads this
    {
      && A0 <= A <= E.Keys
      && (forall x :: x in A && x !in A0 ==> x in q)
      && (forall x :: x in q0 ==> x in q)
      && (forall x :: x in q ==> x in A)
      && (forall x :: x in A ==> Reachable(s, x))
      && (A == A0 ==> q == q0)
      && (A != A0 ==> E.Keys - A < E.Keys - A0)
    }

    lemma CutGrownTrans(s: N, A0: set<N>, q0: seq<N>, A1: set<N>, q1: seq<N>, A2: set<N>, q2: seq<N>)
      requires CutGrown(s, A0, q0, A1, q1) && CutGrown(s, A1, q1, A2, q2)
      ensures CutGrown(s, A0, q0, A2, q2)
    {
      if A2 != A0 && A1 != A0 && A2 != A1 {
        assert E.Keys - A2 < E.Keys - A1 < E.Keys - A0;
      }
    }

    lemma CutAdd(s: N, u: N, st: Step<N>, A: set<N>, q: seq<N>)
      requires Valid() && A <= E.Keys && Reachable(s, u)
      requires IsStep(st) && st.u == u && EdgeOf(st) in f && Residual(f, st) > 0 && st.v !in A
      requires (forall x :: x in q ==> x in A) && (forall x :: x in A ==> Reachable(s, x))
      ensures CutGrown(s, A, q, A + {st.v}, q + [st.v])
    {
      ReachStep(s, u, st);
      assert st.v in E.Keys - A;
    }

    /** One loop of `min_cut` over the neighbours `vs` of `u`, forward or
        reverse: `process` adds every node a positive-residual step enters
        to the cut and the queue. */
    method CutScan(u: N, vs: seq<N>, rev: bool, s: N, A0: set<N>, q0: seq<N>) returns (A: set<N>, q: seq<N>)
      requires Valid() && A0 <= E.Keys
      requires forall j :: 0 <= j < |vs| ==> IsStep(Step(u, vs[j], rev))
      requires Reachable(s, u) && (forall x :: x in A0 ==> Reachable(s, x))
      requires forall x :: x in q0 ==> x in A0
      ensures CutGrown(s, A0, q0, A, q)
      ensures forall j :: 0 <= j < |vs| ==>
        (EdgeOf(Step(u, vs[j], rev)) in f && Residual(f, Step(u, vs[j], rev)) > 0 ==> vs[j] in A)
    {
      A, q := A0, q0;
      for k := 0 to |vs|
        invariant CutGrown(s, A0, q0, A, q)
        invariant forall j :: 0 <= j < k ==>
          (EdgeOf(Step(u, vs[j], rev)) in f && Residual(f, Step(u, vs[j], rev)) > 0 ==> vs[j] in A)
      {
        var st := Step(u, vs[k], rev);
        StepFacts(st);
        if Residual(f, st) > 0 && st.v !in A {
          CutAdd(s, u, st, A, q);
          ghost var A1, q1 := A, q;
          A, q := A + {st.v}, q + [st.v];
          CutGrownTrans(s, A0, q0, A1, q1, A, q);
        }
      }
    }

    /** One turn of the `min_cut` loop for a dequeued `u`: its forward,
        then its reverse neighbours. */
    method CutVisit(u: N, s: N, A0: set<N>, q0: seq<N>) returns (A: set<N>, q: seq<N>)
      requires Valid() && A0 <= E.Keys && u in A0
      requires (forall x :: x in A0 ==> Reachable(s, x)) && (forall x :: x in q0 ==> x in A0)
      ensures CutGrown(s, A0, q0, A, q) && Closed(u, A)
    {
      var A1, q1 := CutScan(u, E[u], false, s, A0, q0);
      A, q := CutScan(u, ET[u], true, s, A1, q1);
      CutGrownTrans(s, A0, q0, A1, q1, A, q);
    }

    /** A set that holds `s` and is closed under positive-residual steps
        holds every node reachable from `s`. */
    lemma CutComplete(s: N, A: set<N>)
      requires Valid() && s in A && (forall x :: x in A ==> Closed(x, A))
      ensures forall x :: Reachable(s, x) ==> x in A
    {
      forall x | Reachable(s, x)
        ensures x in A
      {
        var p :| Chain(p, s, x) && Positive(p);
        ClosedReach(p, s, x, A);
      }
    }

    /** The state of the `min_cut` search: the cut holds `s`, lies within
        the nodes and is reachable from `s`; the visited nodes are closed in
        it; every node of the cut is visited or queued, and only cut nodes
        are queued. */
    ghost predicate CutInv(s: N, A: set<N>, q: seq<N>, done: set<N>)
      reads this
    {
      && A <= E.Keys && s in A && done <= A
      && (forall x :: x in done ==> Closed(x, A))
      && (forall x :: x in A ==> x in done || x in q)
      && (forall x :: x in q ==> x in A)
      && (forall x :: x in A ==> Reachable(s, x))
    }

    lemma CutInvStep(s: N, A0: set<N>, q: seq<N>, done: set<N>, A: set<N>, q': seq<N>)
      requires CutInv(s, A0, q, done) && q != []
      requires CutGrown(s, A0, q[1..], A, q') && Closed(q[0], A)
      ensures CutInv(s, A, q', done + {q[0]})
    {
      forall x | x in done
        ensures Closed(x, A)
      {
        ClosedGrow(x, A0, A);
      }
      forall x | x in A
        ensures x in done || x == q[0] || x in q'
      {
        if x in A0 && x !in done && x != q[0] {
          assert x in q[1..];
        }
      }
    }

    /** Once every entry is within capacity, a closed set is a saturated
        cut: every edge leaving it carries its full capacity and every
        edge entering it carries nothing. */
    lemma CutSaturated(A: set<N>)
      requires Valid() && Respects(f) && (forall x :: x in A ==> Closed(x, A))
      ensures forall u, v :: u in E && v in E[u] ==>
        && (u in A && v !in A ==> f[(u, v)].flow == f[(u, v)].capacity)
        && (u !in A && v in A ==> f[(u, v)].flow == 0)
    {
      forall u, v | u in E && v in E[u]
        ensures u in A && v !in A ==> f[(u, v)].flow == f[(u, v)].capacity
        ensures u !in A && v in A ==> f[(u, v)].flow == 0
      {
        CutEdgesSaturated(A, u, v);
      }
    }

    /** The search loop of `min_cut`: breadth-first from `s` over
        positive-residual steps. */
    method CutSearch(s: N) returns (cutA: set<N>)
      requires Valid() && s in E
      ensures s in cutA && cutA <= E.Keys
      ensures forall x :: x in cutA ==> Closed(x, cutA)
      ensures forall x :: x in cutA ==> Reachable(s, x)
    {
      cutA := {s};
      var q := [s];
      ghost var done: set<N> := {};
      assert Chain([], s, s) && Positive([]);
      while q != []
        invariant CutInv(s, cutA, q, done)
        decreases E.Keys - cutA, |q|
      {
        var u := q[0];
        ghost var A0, q0 := cutA, q;
        cutA, q := CutVisit(u, s, cutA, q[1..]);
        CutInvStep(s, A0, q0, done, cutA, q);
        done := done + {u};
      }
    }

    /** `min_cut` (dinic.py:162-172): the nodes reachable from `s` through
        positive-residual steps, closed under such steps, and the other
        nodes of V. */
    method MinCut(s: N) returns (cutA: set<N>, cutB: set<N>)
      requires Valid() && s in E
      ensures s in cutA && cutA <= E.Keys
      ensures forall x :: x in cutA ==> Closed(x, cutA)
      ensures forall x :: x in cutA <==> Reachable(s, x)
      ensures forall x :: x in cutB <==> x in V && x !in cutA
    {
      cutA := CutSearch(s);
      CutComplete(s, cutA);
      cutB := (set x | x in V) - cutA;
    }
  }

  /** Every capacity of an edge of `G` is non-negative. */
  ghost predicate NonNegative<N(!new)>(G: Graph<N>, c: map<N, map<N, int>>)
    requires SolverReady(G, c)
  {
    forall u, v :: u in G.E && v in G.E[u] ==> c[u][v] >= 0
  }

  /** `ford_fulkerson(G, s, t, c)` (dinic.py:123-140) for at most `fuel`
      augmentations: the residual graph, how the loop ended, and, when it
      converged, the flow out of `s` and the cut `min_cut` reads off the
      final residual graph.  With `cancelling` it uses the corrected
      update; then, on non-negative capacities, every entry stays within
      capacity, and a converged cut is saturated: full flow on every edge
      leaving it, none on an edge entering it. */
  method Run<N(==, !new)>(G: Graph<N>, s: N, t: N, c: map<N, map<N, int>>, fuel: nat, cancelling: bool)
    returns (g: ResidualGraph<N>, outcome: Outcome, maxFlow: int, cutA: set<N>, cutB: set<N>)
    requires SolverReady(G, c)
    ensures fresh(g) && g.Valid() && g.V == G.V && g.E == G.E
    ensures forall e :: e in g.f <==> e.0 in G.E && e.1 in G.E[e.0]
    ensures forall e :: e in g.f ==> g.f[e].capacity == c[e.0][e.1]
    ensures outcome == NoSuchSource <==> s !in G.E && s != t
    ensures outcome == EmptyPath <==> s == t
    ensures outcome == Converged ==>
      && s in G.E && !g.Reachable(s, t)
      && maxFlow == SourceFlow(g.f, s, G.E[s])
      && s in cutA && (forall x :: x in cutA <==> g.Reachable(s, x))
      && (forall x :: x in cutA ==> g.Closed(x, cutA))
      && (forall x :: x in cutB <==> x in G.V && x !in cutA)
    ensures cancelling && NonNegative(G, c) ==> Respects(g.f)
    ensures outcome == Converged && cancelling && NonNegative(G, c) ==>
      forall u, v :: u in G.E && v in G.E[u] ==>
        && (u in cutA && v !in cutA ==> g.f[(u, v)].flow == c[u][v])
        && (u !in cutA && v in cutA ==> g.f[(u, v)].flow == 0)
  {
    g := new ResidualGraph(G, c);
    maxFlow, cutA, cutB := 0, {}, {};
    if s !in G.E && s != t {
      return g, NoSuchSource, maxFlow, cutA, cutB;
    }
    if cancelling && NonNegative(G, c) {
      StartRespects(G, c, g.f);
    }
    outcome := g.Solve(s, t, fuel, cancelling);
    if outcome == Converged {
      maxFlow := SumSourceFlow(g.f, s, G.E[s]);
      cutA, cutB := g.MinCut(s);
      if cancelling && NonNegative(G, c) {
        g.CutSaturated(cutA);
      }
    }
  }

  /** The zero-flow residual graph keeps every entry within capacity when
      no capacity is negative. */
  lemma StartRespects<N(!new)>(G: Graph<N>, c: map<N, map<N, int>>, f: map<(N, N), Entry>)
    requires SolverReady(G, c) && NonNegative(G, c)
    requires forall e :: e in f <==> e.0 in G.E && e.1 in G.E[e.0]
    requires forall e :: e in f ==> f[e] == Entry(c[e.0][e.1], 0)
    ensures Respects(f)
  {
  }

  /** `sum(f[s][u]["flow"] for u in neighbors(s))`. */
  method SumSourceFlow<N(==)>(f: map<(N, N), Entry>, s: N, outs: seq<N>) returns (total: int)
    requires forall u :: u in outs ==> (s, u) in f
    ensures total == SourceFlow(f, s, outs)
  {
    total := 0;
    for i := 0 to |outs|
      invariant total == SourceFlow(f, s, outs[..i])
    {
      assert outs[..i + 1][..i] == outs[..i];
      total := total + f[(s, outs[i])].flow;
    }
    assert outs[..|outs|] == outs;
  }
}
