// Augmenting paths over a Ford-Fulkerson residual graph: the steps a path
// is made of, the residual capacity `cap(u, v, rev)` of a step, the
// bottleneck `b = min(cap(*x) for x in path)`, and the flow update that
// pushes `b` along the path (dinic.py:131-136, JFF.py:12-17).

module Augmentation {
  import opened FlowGraph

  /** A step `(u, v, rev)`: forward along the edge `(u, v)`, or, when `rev`,
      backwards along the edge `(v, u)`. */
  datatype Step<N> = Step(u: N, v: N, rev: bool)

  /** The residual entry a step reads and updates: `f[u][v]` forward,
      `f[v][u]` reverse. */
  function EdgeOf<N>(st: Step<N>): (N, N)
  {
    if st.rev then (st.v, st.u) else (st.u, st.v)
  }

  function Edges<N>(p: seq<Step<N>>): seq<(N, N)>
  {
    seq(|p|, i requires 0 <= i < |p| => EdgeOf(p[i]))
  }

  ghost predicate OnEdges<N>(f: map<(N, N), Entry>, p: seq<Step<N>>)
  {
    forall i :: 0 <= i < |p| ==> EdgeOf(p[i]) in f
  }

  /** `cap(u, v, rev)`: what is left of the capacity on a forward step, the
      flow already sent on a reverse one. */
  function Residual<N(==)>(f: map<(N, N), Entry>, st: Step<N>): int
    requires EdgeOf(st) in f
  {
    var e := EdgeOf(st);
    if st.rev then f[e].flow else f[e].capacity - f[e].flow
  }

  /** `min(cap(*x) for x in path)`: a lower bound of every step's residual
      that is attained by one of them. */
  function Bottleneck<N(==)>(f: map<(N, N), Entry>, p: seq<Step<N>>): (b: int)
    requires |p| > 0 && OnEdges(f, p)
    ensures forall i :: 0 <= i < |p| ==> b <= Residual(f, p[i])
    ensures exists i :: 0 <= i < |p| && b == Residual(f, p[i])
  {
    if |p| == 1 then Residual(f, p[0])
    else
      var rest := Bottleneck(f, p[1..]);
      assert forall i :: 1 <= i < |p| ==> p[1..][i - 1] == p[i];
      if Residual(f, p[0]) <= rest then Residual(f, p[0]) else rest
  }

  /** The bottleneck of a path whose every step has positive residual is
      itself positive. */
  lemma BottleneckPositive<N>(f: map<(N, N), Entry>, p: seq<Step<N>>)
    requires |p| > 0 && OnEdges(f, p)
    requires forall i :: 0 <= i < |p| ==> Residual(f, p[i]) > 0
    ensures Bottleneck(f, p) > 0
  {
    var i :| 0 <= i < |p| && Bottleneck(f, p) == Residual(f, p[i]);
  }

  function Bump<N(==)>(f: map<(N, N), Entry>, e: (N, N), d: int): map<(N, N), Entry>
    requires e in f
  {
    f[e := f[e].(flow := f[e].flow + d)]
  }

  /** The update as the source writes it: `["flow"] += b` on the entry of
      every step, reverse steps included. */
  function AddAlong<N(==)>(f: map<(N, N), Entry>, p: seq<Step<N>>, b: int): (r: map<(N, N), Entry>)
    requires OnEdges(f, p)
    ensures r.Keys == f.Keys
  {
    if p == [] then f
    else Bump(AddAlong(f, p[..|p| - 1], b), EdgeOf(p[|p| - 1]), b)
  }

  /** The cancelling update the residual-graph construction intends: `+ b`
      on a forward step, `- b` on a reverse one. */
  function CancelAlong<N(==)>(f: map<(N, N), Entry>, p: seq<Step<N>>, b: int): (r: map<(N, N), Entry>)
    requires OnEdges(f, p)
    ensures r.Keys == f.Keys
    ensures forall e :: e in r ==> r[e].capacity == f[e].capacity
  {
    if p == [] then f
    else
      var last := p[|p| - 1];
      Bump(CancelAlong(f, p[..|p| - 1], b), EdgeOf(last), if last.rev then -b else b)
  }

  /** The entries after the as-written pushes of `b` along `p`, one step
      at a time. */
  method AddEach<N(==)>(f: map<(N, N), Entry>, p: seq<Step<N>>, b: int) returns (g: map<(N, N), Entry>)
    requires OnEdges(f, p)
    ensures g == AddAlong(f, p, b)
  {
    g := f;
    for i := 0 to |p|
      invariant g == AddAlong(f, p[..i], b)
    {
      assert p[..i + 1][..i] == p[..i];
      var e := EdgeOf(p[i]);
      g := g[e := g[e].(flow := g[e].flow + b)];
    }
    assert p[..|p|] == p;
  }

  /** The entries after the cancelling pushes of `b` along `p`, one step
      at a time. */
  method CancelEach<N(==)>(f: map<(N, N), Entry>, p: seq<Step<N>>, b: int) returns (g: map<(N, N), Entry>)
    requires OnEdges(f, p)
    ensures g == CancelAlong(f, p, b)
  {
    g := f;
    for i := 0 to |p|
      invariant g == CancelAlong(f, p[..i], b)
    {
      assert p[..i + 1][..i] == p[..i];
      var e := EdgeOf(p[i]);
      g := g[e := g[e].(flow := if p[i].rev then g[e].flow - b else g[e].flow + b)];
    }
    assert p[..|p|] == p;
  }

  /** Capacity respect: `0 <= flow <= capacity` on every entry. */
  ghost predicate Respects<N>(f: map<(N, N), Entry>)
  {
    forall e :: e in f ==> 0 <= f[e].flow <= f[e].capacity
  }

  lemma DistinctCount<T>(s: seq<T>, x: T)
    requires Distinct(s)
    ensures multiset(s)[x] <= 1
  {
    if s != [] {
      assert s == [s[0]] + s[1..];
      DistinctCount(s[1..], x);
      if s[0] == x {
        assert x !in s[1..];
      }
    }
  }

  lemma EdgesSnoc<N>(p: seq<Step<N>>)
    requires p != []
    ensures Edges(p) == Edges(p[..|p| - 1]) + [EdgeOf(p[|p| - 1])]
  {
  }

  /** The as-written update adds `b` to an entry once for every step of the
      path that uses it, and changes no capacity. */
  lemma {:induction false} AddAlongCount<N>(f: map<(N, N), Entry>, p: seq<Step<N>>, b: int, e: (N, N))
    requires OnEdges(f, p) && e in f
    ensures AddAlong(f, p, b)[e] == Entry(f[e].capacity, f[e].flow + b * multiset(Edges(p))[e])
  {
    if p != [] {
      var init := p[..|p| - 1];
      AddAlongCount(f, init, b, e);
      EdgesSnoc(p);
      var n := multiset(Edges(init))[e];
      assert multiset(Edges(p)) == multiset(Edges(init)) + multiset{EdgeOf(p[|p| - 1])};
      if EdgeOf(p[|p| - 1]) == e {
        assert multiset(Edges(p))[e] == n + 1;
        assert b * (n + 1) == b * n + b;
      } else {
        assert multiset(Edges(p))[e] == n;
      }
    }
  }

  /** On a path that uses each entry once, a reverse step adds `b` to the
      flow of the entry it walks backwards. */
  lemma ReverseStepAddsFlow<N>(f: map<(N, N), Entry>, p: seq<Step<N>>, b: int, i: nat)
    requires OnEdges(f, p) && Distinct(Edges(p))
    requires i < |p| && p[i].rev
    ensures AddAlong(f, p, b)[EdgeOf(p[i])].flow == f[EdgeOf(p[i])].flow + b
  {
    var e := EdgeOf(p[i]);
    AddAlongCount(f, p, b, e);
    DistinctCount(Edges(p), e);
    assert Edges(p)[i] == e;
  }

  lemma ForwardEntryRespects<N>(f: map<(N, N), Entry>, p: seq<Step<N>>, b: int, e: (N, N))
    requires OnEdges(f, p) && Distinct(Edges(p))
    requires forall i :: 0 <= i < |p| ==> !p[i].rev && b <= Residual(f, p[i])
    requires 0 <= b && e in f && 0 <= f[e].flow <= f[e].capacity
    ensures 0 <= AddAlong(f, p, b)[e].flow <= AddAlong(f, p, b)[e].capacity
  {
    AddAlongCount(f, p, b, e);
    DistinctCount(Edges(p), e);
    if multiset(Edges(p))[e] == 1 {
      assert e in Edges(p);
      var i :| 0 <= i < |p| && Edges(p)[i] == e;
    }
  }

  /** On a forward-only path that uses each entry once, pushing at most the
      smallest residual keeps every entry within its capacity. */
  lemma ForwardPathRespects<N>(f: map<(N, N), Entry>, p: seq<Step<N>>, b: int)
    requires OnEdges(f, p) && Distinct(Edges(p))
    requires forall i :: 0 <= i < |p| ==> !p[i].rev && b <= Residual(f, p[i])
    requires 0 <= b && Respects(f)
    ensures Respects(AddAlong(f, p, b))
  {
    forall e | e in AddAlong(f, p, b)
      ensures 0 <= AddAlong(f, p, b)[e].flow <= AddAlong(f, p, b)[e].capacity
    {
      ForwardEntryRespects(f, p, b, e);
    }
  }

  /** The smallest network on which the as-written update breaks capacity
      respect: the edge `(0, 1)` of capacity 1 already carries 1, and the
      one-step path walks it backwards from 1 to 0. */
  lemma ReverseStepOverflows()
    ensures var f, p := map[(0, 1) := Entry(1, 1)], [Step(1, 0, true)];
      && Respects(f) && OnEdges(f, p)
      && Residual(f, p[0]) > 0 && Bottleneck(f, p) == 1
      && !Respects(AddAlong(f, p, Bottleneck(f, p)))
  {
    var f, p := map[(0, 1) := Entry(1, 1)], [Step(1, 0, true)];
    assert AddAlong(f, p, 1)[(0, 1)] == Entry(1, 2);
  }

  /** The cancelling update moves the entry of each step of a path that
      uses each entry once by `+b` or `-b`, and leaves the others alone. */
  lemma {:induction false} CancelAlongAt<N>(f: map<(N, N), Entry>, p: seq<Step<N>>, b: int, e: (N, N))
    requires OnEdges(f, p) && Distinct(Edges(p)) && e in f
    ensures CancelAlong(f, p, b)[e].capacity == f[e].capacity
    ensures e !in Edges(p) ==> CancelAlong(f, p, b)[e] == f[e]
    ensures forall i :: 0 <= i < |p| && EdgeOf(p[i]) == e ==>
      CancelAlong(f, p, b)[e].flow == f[e].flow + (if p[i].rev then -b else b)
  {
    if p != [] {
      var init := p[..|p| - 1];
      EdgesSnoc(p);
      assert Distinct(Edges(init)) by {
        assert forall i :: 0 <= i < |init| ==> Edges(init)[i] == Edges(p)[i];
      }
      CancelAlongAt(f, init, b, e);
      forall i | 0 <= i < |init| && EdgeOf(init[i]) == e
        ensures EdgeOf(p[|p| - 1]) != e
      {
        assert init[i] == p[i] && Edges(p)[i] == e;
        assert Edges(p)[|p| - 1] == EdgeOf(p[|p| - 1]);
      }
    }
  }

  /** Corrected update: pushing at most the smallest residual along any
      path that uses each entry once keeps every entry within capacity. */
  lemma CancelRespects<N>(f: map<(N, N), Entry>, p: seq<Step<N>>, b: int)
    requires OnEdges(f, p) && Distinct(Edges(p))
    requires forall i :: 0 <= i < |p| ==> b <= Residual(f, p[i])
    requires 0 <= b && Respects(f)
    ensures Respects(CancelAlong(f, p, b))
  {
    forall e | e in f
      ensures 0 <= CancelAlong(f, p, b)[e].flow <= CancelAlong(f, p, b)[e].capacity
    {
      CancelAlongAt(f, p, b, e);
      if e in Edges(p) {
        var i :| 0 <= i < |p| && Edges(p)[i] == e;
      }
    }
  }

  /** A path from `s` to `t`: consecutive steps share endpoints. */
  ghost predicate Chain<N>(p: seq<Step<N>>, s: N, t: N)
  {
    if p == [] then s == t
    else
      && p[0].u == s && p[|p| - 1].v == t
      && forall i :: 0 <= i < |p| - 1 ==> p[i].v == p[i + 1].u
  }

  /** No node is entered twice, and `s` is never re-entered. */
  ghost predicate Simple<N>(p: seq<Step<N>>, s: N)
  {
    && (forall i :: 0 <= i < |p| ==> p[i].v != s)
    && (forall i, j :: 0 <= i < j < |p| ==> p[i].v != p[j].v)
  }

  /** A simple path uses each residual entry at most once. */
  lemma SimpleEdgesDistinct<N>(p: seq<Step<N>>, s: N, t: N)
    requires Chain(p, s, t) && Simple(p, s)
    ensures Distinct(Edges(p))
  {
    forall i, j | 0 <= i < j < |p|
      ensures EdgeOf(p[i]) != EdgeOf(p[j])
    {
      if p[i].rev == p[j].rev {
        assert p[i].v != p[j].v;
      } else if i == 0 {
        assert p[i].u == s;
      } else {
        assert p[i].u == p[i - 1].v;
      }
    }
  }
}
