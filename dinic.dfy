// Dinic's algorithm of dinic.py:177-224 (copied as J.py:4-51): a residual
// graph that holds an explicit reverse entry for every edge, breadth-first
// levelling, and the stack-driven supply/demand blocking flow.

module Dinic {
  import opened FlowGraph

  /** What the builder of `dinic` needs: `E[u]` for every node of V and
      `c[u][v]` for every edge leaving a node of V. */
  ghost predicate BuilderReady<N(!new)>(G: Graph<N>, c: map<N, map<N, int>>)
  {
    && (forall u :: u in G.V ==> u in G.E)
    && (forall u, v :: u in G.V && v in G.E[u] ==> u in c && v in c[u])
  }

  /** The elements of `s` in the order they first occur: the key order of
      a dictionary whose keys were inserted in the order of `s`. */
  function Dedup<T(==)>(s: seq<T>): (r: seq<T>)
    ensures forall i :: 0 <= i < |r| ==> r[i] in s
    ensures forall i :: 0 <= i < |s| ==> s[i] in r
    ensures Distinct(r)
  {
    if s == [] then []
    else
      var init, last := s[..|s| - 1], s[|s| - 1];
      assert s == init + [last];
      if last in init then Dedup(init) else Dedup(init) + [last]
  }

  lemma DedupMember<T>(s: seq<T>, x: T)
    ensures x in Dedup(s) <==> x in s
  {
    if x in s {
      var i :| 0 <= i < |s| && s[i] == x;
    }
  }

  lemma DedupSnoc<T>(s: seq<T>, y: T)
    ensures Dedup(s + [y]) == if y in s then Dedup(s) else Dedup(s) + [y]
  {
    assert (s + [y])[..|s|] == s;
  }

  /** The nodes `u` of V, in order, with `x` in `E[u]`: the order in which
      the second loop of the builder meets the reverse entries of `x`. */
  function Incomers<N(==)>(V: seq<N>, E: map<N, seq<N>>, x: N): seq<N>
    requires forall u :: u in V ==> u in E
  {
    if V == [] then []
    else
      var u := V[|V| - 1];
      Incomers(V[..|V| - 1], E, x) + (if x in E[u] then [u] else [])
  }

  lemma IncomersMember<N>(V: seq<N>, E: map<N, seq<N>>, x: N, u: N)
    requires forall w :: w in V ==> w in E
    ensures u in Incomers(V, E, x) <==> u in V && x in E[u]
  {
    if V != [] {
      IncomersMember(V[..|V| - 1], E, x, u);
      assert V == V[..|V| - 1] + [V[|V| - 1]];
    }
  }

  lemma IncomersSnoc<N>(V: seq<N>, E: map<N, seq<N>>, x: N, i: nat)
    requires i < |V| && forall w :: w in V ==> w in E
    ensures Incomers(V[..i + 1], E, x) == Incomers(V[..i], E, x) + (if x in E[V[i]] then [V[i]] else [])
  {
    assert V[..i + 1][..i] == V[..i];
  }

  /** The edges a node of V lists: `E[x]`, or none for other nodes. */
  function Out<N(==)>(G: Graph<N>, x: N): seq<N>
    requires forall u :: u in G.V ==> u in G.E
  {
    if x in G.V then G.E[x] else []
  }

  /** A pair the input lists as an edge. */
  ghost predicate Forward<N>(G: Graph<N>, e: (N, N))
  {
    e.0 in G.V && e.0 in G.E && e.1 in G.E[e.0]
  }

  /** The entry the builder leaves on a pair: the input capacity on an
      input edge, capacity 0 on a reverse-only pair, flow 0 on both. */
  ghost function Initial<N(!new)>(G: Graph<N>, c: map<N, map<N, int>>, e: (N, N)): Entry
    requires BuilderReady(G, c)
  {
    if Forward(G, e) then Entry(c[e.0][e.1], 0) else Entry(0, 0)
  }

  /** RowEntries after the first `k` neighbours. */
  ghost predicate Filled<N(!new)>(vs: seq<N>, row: map<N, int>, k: nat, keys: seq<N>, fu: map<N, Entry>)
    requires k <= |vs|
  {
    && keys == Dedup(vs[..k])
    && (forall v :: v in fu <==> v in vs[..k])
    && (forall v :: v in fu ==> v in row && fu[v] == Entry(row[v], 0))
  }

  /** One step of RowEntries: the entry for `vs[k]` is written, and its
      key joins the order when it is new. */
  lemma RowEntriesStep<N(!new)>(vs: seq<N>, row: map<N, int>, k: nat, keys: seq<N>, fu: map<N, Entry>)
    requires k < |vs| && vs[k] in row && Filled(vs, row, k, keys, fu)
    ensures Filled(vs, row, k + 1, if vs[k] in fu then keys else keys + [vs[k]], fu[vs[k] := Entry(row[vs[k]], 0)])
  {
    var v, pre := vs[k], vs[..k];
    assert vs[..k + 1] == pre + [v];
    DedupSnoc(pre, v);
    assert v in fu <==> v in pre;
    var fu' := fu[v := Entry(row[v], 0)];
    forall x
      ensures x in fu' <==> x in pre + [v]
    {
      assert x in pre + [v] <==> x in pre || x == v;
    }
  }

  /** The inner dictionary `f[u]` the builder fills from `{}`: keys in the
      order of first occurrence in `vs`, each `{cap: row[v], flo: 0}`. */
  method RowEntries<N(==, !new)>(vs: seq<N>, row: map<N, int>) returns (keys: seq<N>, fu: map<N, Entry>)
    requires forall v :: v in vs ==> v in row
    ensures keys == Dedup(vs)
    ensures forall v :: v in fu <==> v in vs
    ensures forall v :: v in fu ==> fu[v] == Entry(row[v], 0)
  {
    keys, fu := [], map[];
    for k := 0 to |vs|
      invariant Filled(vs, row, k, keys, fu)
    {
      var v := vs[k];
      RowEntriesStep(vs, row, k, keys, fu);
      if v !in fu {
        keys := keys + [v];
      }
      fu := fu[v := Entry(row[v], 0)];
    }
    assert vs[..|vs|] == vs;
  }

  /** `f[u] = {}`, then `f[u][v] = {cap: row[v], flo: 0}` for each `v` in
      `vs` in order: the row of `u` is rebuilt and the others stay. */
  method FillRow<N(==, !new)>(nbrs0: map<N, seq<N>>, f0: map<(N, N), Entry>, u: N, vs: seq<N>, row: map<N, int>)
    returns (nbrs: map<N, seq<N>>, f: map<(N, N), Entry>)
    requires forall v :: v in vs ==> v in row
    ensures nbrs == nbrs0[u := Dedup(vs)]
    ensures forall e :: e in f <==> (e in f0 && e.0 != u) || (e.0 == u && e.1 in vs)
    ensures forall e :: e in f ==> f[e] == if e.0 == u then Entry(row[e.1], 0) else f0[e]
  {
    var keys, fu := RowEntries(vs, row);
    nbrs := nbrs0[u := keys];
    var others := map e | e in f0 && e.0 != u :: f0[e];
    f := others + map v | v in fu :: (u, v) := fu[v];
  }

  /** The first loop of the builder (dinic.py:180-182): `f[u] = {}`, then
      `f[u][v] = {cap: c[u][v], flo: 0}` for `v` in `E[u]`, for each `u` of
      V in order. */
  method ForwardEntries<N(==, !new)>(G: Graph<N>, c: map<N, map<N, int>>)
    returns (nbrs: map<N, seq<N>>, f: map<(N, N), Entry>)
    requires BuilderReady(G, c)
    ensures forall x :: x in nbrs <==> x in G.V
    ensures forall x :: x in nbrs ==> nbrs[x] == Dedup(G.E[x])
    ensures forall e :: e in f <==> e.0 in G.V && e.1 in G.E[e.0]
    ensures forall e :: e in f ==> Forward(G, e) && f[e] == Entry(c[e.0][e.1], 0)
  {
    nbrs, f := map[], map[];
    for i := 0 to |G.V|
      invariant forall x :: x in nbrs <==> x in G.V[..i]
      invariant forall x :: x in nbrs ==> x in G.V && nbrs[x] == Dedup(G.E[x])
      invariant forall e :: e in f <==> e.0 in G.V[..i] && e.1 in G.E[e.0]
      invariant forall e :: e in f ==> Forward(G, e) && f[e] == Entry(c[e.0][e.1], 0)
    {
      var u := G.V[i];
      var row := if u in c then c[u] else map[];
      nbrs, f := FillRow(nbrs, f, u, G.E[u], row);
    }
    assert G.V[..|G.V|] == G.V;
  }

  /** The row of `x`, or `[]` before `f.setdefault(x, {})` creates it. */
  function RowOf<N(==)>(nbrs: map<N, seq<N>>, x: N): seq<N>
  {
    if x in nbrs then nbrs[x] else []
  }

  /** `setdefault(u, ...)` on a row: `u` is appended unless already a key. */
  function AddOnce<N(==)>(row: seq<N>, u: N): seq<N>
  {
    if u in row then row else row + [u]
  }

  /** The rows after the first `k` neighbours of AddReverse. */
  ghost predicate RevRows<N(!new)>(nbrs0: map<N, seq<N>>, u: N, vs: seq<N>, k: nat, nbrs: map<N, seq<N>>)
    requires k <= |vs|
  {
    && (forall x :: x in nbrs <==> x in nbrs0 || x in vs[..k])
    && (forall x :: x in nbrs ==>
          nbrs[x] == if x in vs[..k] then AddOnce(RowOf(nbrs0, x), u) else RowOf(nbrs0, x))
  }

  /** The entries after some setdefault pairs: those of `nbrs`, new ones
      at zero. */
  ghost predicate RevEntries<N(!new)>(f0: map<(N, N), Entry>, nbrs: map<N, seq<N>>, f: map<(N, N), Entry>)
  {
    && (forall e :: e in f <==> e.0 in nbrs && e.1 in nbrs[e.0])
    && (forall e :: e in f ==> f[e] == if e in f0 then f0[e] else Entry(0, 0))
  }

  lemma RevRowsStep<N(!new)>(nbrs0: map<N, seq<N>>, u: N, vs: seq<N>, k: nat, nbrs: map<N, seq<N>>)
    requires k < |vs| && RevRows(nbrs0, u, vs, k, nbrs)
    ensures RevRows(nbrs0, u, vs, k + 1, nbrs[vs[k] := AddOnce(RowOf(nbrs, vs[k]), u)])
  {
    var v, pre := vs[k], vs[..k];
    var nbrs' := nbrs[v := AddOnce(RowOf(nbrs, v), u)];
    assert vs[..k + 1] == pre + [v];
    forall x
      ensures x in nbrs' <==> x in nbrs0 || x in pre + [v]
      ensures x in nbrs' ==> nbrs'[x] == if x in pre + [v] then AddOnce(RowOf(nbrs0, x), u) else RowOf(nbrs0, x)
    {
      assert x in pre + [v] <==> x in pre || x == v;
      if x == v && v in pre {
        assert nbrs[v] == AddOnce(RowOf(nbrs0, v), u);
        assert AddOnce(AddOnce(RowOf(nbrs0, v), u), u) == AddOnce(RowOf(nbrs0, v), u);
      }
    }
  }

  lemma RevEntriesStep<N(!new)>(f0: map<(N, N), Entry>, nbrs0: map<N, seq<N>>, nbrs: map<N, seq<N>>, f: map<(N, N), Entry>,
                                nbrs': map<N, seq<N>>, f': map<(N, N), Entry>, v: N, u: N)
    requires forall e :: e in f0 <==> e.0 in nbrs0 && e.1 in nbrs0[e.0]
    requires RevEntries(f0, nbrs, f)
    requires f' == if (v, u) in f then f else f[(v, u) := Entry(0, 0)]
    requires forall e :: e in f' <==> e.0 in nbrs' && e.1 in nbrs'[e.0]
    requires forall e :: e in f0 ==> e in f
    ensures RevEntries(f0, nbrs', f')
  {
    if (v, u) !in f {
      assert (v, u) !in f0;
    }
  }

  /** The setdefault loop for one `u` (dinic.py:184-185): for each `v` in
      `vs`, `f.setdefault(v, {}).setdefault(u, {cap: 0, flo: 0})`. */
  method AddReverse<N(==, !new)>(nbrs0: map<N, seq<N>>, f0: map<(N, N), Entry>, u: N, vs: seq<N>)
    returns (nbrs: map<N, seq<N>>, f: map<(N, N), Entry>)
    requires forall e :: e in f0 <==> e.0 in nbrs0 && e.1 in nbrs0[e.0]
    ensures forall x :: x in nbrs <==> x in nbrs0 || x in vs
    ensures forall x :: x in nbrs ==>
      nbrs[x] == if x in vs then AddOnce(RowOf(nbrs0, x), u) else RowOf(nbrs0, x)
    ensures forall e :: e in f <==> e.0 in nbrs && e.1 in nbrs[e.0]
    ensures forall e :: e in f ==> f[e] == if e in f0 then f0[e] else Entry(0, 0)
  {
    nbrs, f := nbrs0, f0;
    for k := 0 to |vs|
      invariant RevRows(nbrs0, u, vs, k, nbrs)
      invariant RevEntries(f0, nbrs, f)
      invariant forall e :: e in f0 ==> e in f
    {
      var nbrs', f' := SetDefault(nbrs, f, vs[k], u);
      RevRowsStep(nbrs0, u, vs, k, nbrs);
      RevEntriesStep(f0, nbrs0, nbrs, f, nbrs', f', vs[k], u);
      nbrs, f := nbrs', f';
    }
    assert vs[..|vs|] == vs;
  }

  /** `f.setdefault(v, {}).setdefault(u, {cap: 0, flo: 0})`. */
  method SetDefault<N(==)>(nbrs0: map<N, seq<N>>, f0: map<(N, N), Entry>, v: N, u: N)
    returns (nbrs: map<N, seq<N>>, f: map<(N, N), Entry>)
    requires forall e :: e in f0 <==> e.0 in nbrs0 && e.1 in nbrs0[e.0]
    ensures nbrs == nbrs0[v := AddOnce(RowOf(nbrs0, v), u)]
    ensures f == if (v, u) in f0 then f0 else f0[(v, u) := Entry(0, 0)]
    ensures forall e :: e in f <==> e.0 in nbrs && e.1 in nbrs[e.0]
  {
    nbrs, f := nbrs0, f0;
    if v !in nbrs {
      nbrs := nbrs[v := []];
    }
    if (v, u) !in f {
      nbrs := nbrs[v := nbrs[v] + [u]];
      f := f[(v, u) := Entry(0, 0)];
    }
  }

  /** The second loop of the builder (dinic.py:183-185), over V in order:
      every node that V lists or that some edge enters gets a row, which
      lists the node's own edges and then the nodes with an edge into it,
      each once, in the order the loops meet them. */
  method ReverseEntries<N(==, !new)>(G: Graph<N>, c: map<N, map<N, int>>, nbrs0: map<N, seq<N>>, f0: map<(N, N), Entry>)
    returns (nbrs: map<N, seq<N>>, f: map<(N, N), Entry>)
    requires BuilderReady(G, c)
    requires forall x :: x in nbrs0 <==> x in G.V
    requires forall x :: x in nbrs0 ==> nbrs0[x] == Dedup(G.E[x])
    requires forall e :: e in f0 <==> e.0 in nbrs0 && e.1 in nbrs0[e.0]
    requires forall e :: e in f0 ==> Forward(G, e) && f0[e] == Entry(c[e.0][e.1], 0)
    ensures forall x :: x in nbrs <==> x in G.V || Incomers(G.V, G.E, x) != []
    ensures forall x :: x in nbrs ==> nbrs[x] == Dedup(Out(G, x) + Incomers(G.V, G.E, x))
    ensures forall e :: e in f <==> e.0 in nbrs && e.1 in nbrs[e.0]
    ensures forall e :: e in f ==> f[e] == Initial(G, c, e)
  {
    nbrs, f := nbrs0, f0;
    forall x | x in nbrs
      ensures nbrs[x] == Dedup(Out(G, x) + Incomers(G.V[..0], G.E, x))
    {
      assert Out(G, x) + Incomers(G.V[..0], G.E, x) == G.E[x];
    }
    for i := 0 to |G.V|
      invariant forall x :: x in nbrs <==> x in G.V || Incomers(G.V[..i], G.E, x) != []
      invariant forall x :: x in nbrs ==> nbrs[x] == Dedup(Out(G, x) + Incomers(G.V[..i], G.E, x))
      invariant forall e :: e in f <==> e.0 in nbrs && e.1 in nbrs[e.0]
      invariant forall e :: e in f ==> f[e] == Initial(G, c, e)
    {
      var u := G.V[i];
      ghost var nbrs1, f1 := nbrs, f;
      nbrs, f := AddReverse(nbrs, f, u, G.E[u]);
      forall x
        ensures x in nbrs <==> x in G.V || Incomers(G.V[..i + 1], G.E, x) != []
        ensures x in nbrs ==> nbrs[x] == Dedup(Out(G, x) + Incomers(G.V[..i + 1], G.E, x))
      {
        ReverseRowStep(G, nbrs1, nbrs, i, x);
      }
      forall e | e in f && e !in f1
        ensures f[e] == Initial(G, c, e)
      {
        ReverseEntryNew(G, nbrs1, i, e);
      }
    }
    assert G.V[..|G.V|] == G.V;
  }

  lemma ReverseRowStep<N>(G: Graph<N>, nbrs1: map<N, seq<N>>, nbrs: map<N, seq<N>>, i: nat, x: N)
    requires (forall w :: w in G.V ==> w in G.E) && i < |G.V|
    requires x in nbrs1 <==> x in G.V || Incomers(G.V[..i], G.E, x) != []
    requires x in nbrs1 ==> nbrs1[x] == Dedup(Out(G, x) + Incomers(G.V[..i], G.E, x))
    requires x in nbrs <==> x in nbrs1 || x in G.E[G.V[i]]
    requires x in nbrs ==>
      nbrs[x] == if x in G.E[G.V[i]] then AddOnce(RowOf(nbrs1, x), G.V[i]) else RowOf(nbrs1, x)
    ensures x in nbrs <==> x in G.V || Incomers(G.V[..i + 1], G.E, x) != []
    ensures x in nbrs ==> nbrs[x] == Dedup(Out(G, x) + Incomers(G.V[..i + 1], G.E, x))
  {
    var u := G.V[i];
    IncomersSnoc(G.V, G.E, x, i);
    var A := Out(G, x) + Incomers(G.V[..i], G.E, x);
    var B := Out(G, x) + Incomers(G.V[..i + 1], G.E, x);
    if x in G.E[u] {
      assert B == A + [u];
      DedupSnoc(A, u);
      if x in nbrs1 {
        DedupMember(A, u);
        assert RowOf(nbrs1, x) == Dedup(A);
      } else {
        assert Out(G, x) == [] && A == [];
        assert RowOf(nbrs1, x) == [] == Dedup(A);
      }
      assert AddOnce(Dedup(A), u) == Dedup(B);
    } else {
      assert B == A;
    }
  }

  /** An entry the second loop creates is never an input edge: those
      already have their entry from the first loop. */
  lemma ReverseEntryNew<N>(G: Graph<N>, nbrs1: map<N, seq<N>>, i: nat, e: (N, N))
    requires (forall w :: w in G.V ==> w in G.E) && i <= |G.V|
    requires e.0 in G.V ==> e.0 in nbrs1 && nbrs1[e.0] == Dedup(Out(G, e.0) + Incomers(G.V[..i], G.E, e.0))
    requires !(e.0 in nbrs1 && e.1 in nbrs1[e.0])
    ensures !Forward(G, e)
  {
    if Forward(G, e) {
      var A := Out(G, e.0) + Incomers(G.V[..i], G.E, e.0);
      assert e.1 in A;
      DedupMember(A, e.1);
    }
  }

  /** The residual graph of `dinic`: each row lists its keys once, and an
      entry exists exactly for the listed pairs, in both directions. */
  ghost predicate Shape<N(!new)>(nbrs: map<N, seq<N>>, f: map<(N, N), Entry>)
  {
    && (forall e :: e in f <==> e.0 in nbrs && e.1 in nbrs[e.0])
    && (forall e :: e in f ==> (e.1, e.0) in f)
    && (forall x :: x in nbrs ==> Distinct(nbrs[x]))
  }

  /** The builder of `dinic` (dinic.py:179-185).  Every node V lists or
      some edge enters has a row holding its own edges and then the nodes
      with an edge into it, each once; an input edge carries its capacity,
      any other listed pair capacity 0, all with flow 0. */
  method Build<N(==, !new)>(G: Graph<N>, c: map<N, map<N, int>>) returns (nbrs: map<N, seq<N>>, f: map<(N, N), Entry>)
    requires BuilderReady(G, c)
    ensures Shape(nbrs, f)
    ensures forall x :: x in nbrs <==> x in G.V || Incomers(G.V, G.E, x) != []
    ensures forall x :: x in nbrs ==> nbrs[x] == Dedup(Out(G, x) + Incomers(G.V, G.E, x))
    ensures forall e :: e in f <==> Forward(G, e) || Forward(G, (e.1, e.0))
    ensures forall e :: e in f ==> f[e] == Initial(G, c, e)
  {
    var nbrs0, f0 := ForwardEntries(G, c);
    nbrs, f := ReverseEntries(G, c, nbrs0, f0);
    forall e
      ensures e in f <==> Forward(G, e) || Forward(G, (e.1, e.0))
    {
      BuiltPair(G, nbrs, e);
    }
  }

  lemma BuiltPair<N>(G: Graph<N>, nbrs: map<N, seq<N>>, e: (N, N))
    requires forall w :: w in G.V ==> w in G.E
    requires forall x :: x in nbrs <==> x in G.V || Incomers(G.V, G.E, x) != []
    requires forall x :: x in nbrs ==> nbrs[x] == Dedup(Out(G, x) + Incomers(G.V, G.E, x))
    ensures e.0 in nbrs && e.1 in nbrs[e.0] <==> Forward(G, e) || Forward(G, (e.1, e.0))
  {
    IncomersMember(G.V, G.E, e.0, e.1);
    if e.0 in nbrs {
      DedupMember(Out(G, e.0) + Incomers(G.V, G.E, e.0), e.1);
    }
  }

  /** A node queued for levelling: some entry at level `m` or lower. */
  ghost predicate Queued<N>(q: seq<(N, int)>, v: N, m: int)
  {
    exists i :: 0 <= i < |q| && q[i].0 == v && q[i].1 <= m
  }

  /** A frame `(u, w, b)` of the blocking-flow stack: node `u` entered from
      `w` (`None` for the source); `back` is `b`, set once the children of
      `u` have been pushed and `u` waits to collect their demand. */
  datatype Frame<N> = Frame(u: N, w: Option<N>, back: bool)

  /** `L.get(v, -1) > L[u]` for levelled `u` with a non-negative level. */
  ghost predicate Rises<N>(L: map<N, int>, u: N, v: N)
  {
    u in L && v in L && L[v] > L[u]
  }

  /** A bound on every level, for the termination measure. */
  ghost function MaxOver<N>(L: map<N, int>, ks: set<N>): (m: int)
    requires ks <= L.Keys
    ensures forall x :: x in ks ==> L[x] <= m
    decreases ks
  {
    if ks == {} then 0
    else
      var x :| x in ks;
      var m := MaxOver(L, ks - {x});
      if L[x] > m then L[x] else m
  }

  /** Only flows move: the same entries with the same capacities, and the
      flows of `f[u][v]` and `f[v][u]` keep their sum. */
  ghost predicate Conserved<N(!new)>(f0: map<(N, N), Entry>, f: map<(N, N), Entry>)
  {
    && f.Keys == f0.Keys
    && (forall e :: e in f ==> f[e].capacity == f0[e].capacity)
    && (forall e :: e in f && (e.1, e.0) in f ==> f[e].flow + f[(e.1, e.0)].flow == f0[e].flow + f0[(e.1, e.0)].flow)
  }

  /** Flow moved only between levels: a pair that rises in neither
      direction keeps its entry. */
  ghost predicate OnlyRising<N(!new)>(L: map<N, int>, f0: map<(N, N), Entry>, f: map<(N, N), Entry>)
    requires f.Keys == f0.Keys
  {
    forall e :: e in f && !Rises(L, e.0, e.1) && !Rises(L, e.1, e.0) ==> f[e] == f0[e]
  }

  /** `f[u][v]["flo"] += d; f[v][u]["flo"] -= d`. */
  function Transfer<N(==)>(f: map<(N, N), Entry>, u: N, v: N, d: int): (r: map<(N, N), Entry>)
    requires (u, v) in f && (v, u) in f
    ensures r.Keys == f.Keys
  {
    var f1 := f[(u, v) := f[(u, v)].(flow := f[(u, v)].flow + d)];
    f1[(v, u) := f1[(v, u)].(flow := f1[(v, u)].flow - d)]
  }

  /** A transfer along a rising pair conserves flow sums and touches only
      that pair. */
  lemma TransferConserves<N(!new)>(L: map<N, int>, f: map<(N, N), Entry>, u: N, v: N, d: int)
    requires (u, v) in f && (v, u) in f && Rises(L, u, v)
    ensures Conserved(f, Transfer(f, u, v, d))
    ensures OnlyRising(L, f, Transfer(f, u, v, d))
  {
  }

  /** What the collecting loop over `vs` needs: a demand for `u`, and for
      each rising neighbour both entries of its pair and a demand. */
  ghost predicate GatherReady<N(!new)>(L: map<N, int>, u: N, vs: seq<N>, f: map<(N, N), Entry>, dem: map<N, int>)
  {
    && u in dem
    && forall v :: v in vs && Rises(L, u, v) ==> (u, v) in f && (v, u) in f && v in dem
  }

  /** The collecting loop of `dinic_blocking_flow` (dinic.py:220-223) over
      the row `vs`, from flows `f` and demands `dem`: for each rising `v`
      in turn, `f[u][v]["flo"] += dem[v]; f[v][u]["flo"] -= dem[v]`, then
      `dem[u] += dem[v]; dem[v] = 0`. */
  ghost function Gather<N(!new)>(L: map<N, int>, u: N, vs: seq<N>, f: map<(N, N), Entry>, dem: map<N, int>)
    : (r: (map<(N, N), Entry>, map<N, int>))
    requires GatherReady(L, u, vs, f, dem)
    ensures r.0.Keys == f.Keys && r.1.Keys == dem.Keys
  {
    if vs == [] then (f, dem)
    else
      var v := vs[|vs| - 1];
      var r1 := Gather(L, u, vs[..|vs| - 1], f, dem);
      if Rises(L, u, v) then
        (Transfer(r1.0, u, v, r1.1[v]), r1.1[u := r1.1[u] + r1.1[v]][v := 0])
      else r1
  }

  /** `(g, dem)` is what the collecting loop over `vs` makes of `(f, dem0)`. */
  ghost predicate GatheredTo<N(!new)>(L: map<N, int>, u: N, vs: seq<N>, f: map<(N, N), Entry>, dem0: map<N, int>,
                                      g: map<(N, N), Entry>, dem: map<N, int>)
  {
    GatherReady(L, u, vs, f, dem0) && (g, dem) == Gather(L, u, vs, f, dem0)
  }

  /** A row of the residual graph is ready for collecting once its
      rising neighbours have demands. */
  lemma RowReady<N(!new)>(nbrs: map<N, seq<N>>, L: map<N, int>, u: N, f: map<(N, N), Entry>, dem: map<N, int>)
    requires Shape(nbrs, f) && u in nbrs && u in dem
    requires forall v :: v in nbrs[u] && Rises(L, u, v) ==> v in dem
    ensures GatherReady(L, u, nbrs[u], f, dem)
  {
    forall v | v in nbrs[u] && Rises(L, u, v) ensures (u, v) in f && (v, u) in f {
      assert (u, v).0 in nbrs && (u, v).1 in nbrs[(u, v).0];
    }
  }

  /** So is every prefix of a ready row. */
  lemma PrefixReady<N(!new)>(L: map<N, int>, u: N, vs: seq<N>, k: int, f: map<(N, N), Entry>, dem: map<N, int>)
    requires GatherReady(L, u, vs, f, dem) && 0 <= k <= |vs|
    ensures GatherReady(L, u, vs[..k], f, dem)
  {
    forall v | v in vs[..k] ensures v in vs {
    }
  }

  /** One more neighbour `v` of the collecting loop. */
  lemma GatherStep<N(!new)>(L: map<N, int>, u: N, vs: seq<N>, v: N, f: map<(N, N), Entry>, dem0: map<N, int>,
                            g: map<(N, N), Entry>, dem: map<N, int>)
    requires GatheredTo(L, u, vs, f, dem0, g, dem) && GatherReady(L, u, vs + [v], f, dem0)
    ensures Rises(L, u, v) ==> (u, v) in g && (v, u) in g && u in dem && v in dem
    ensures Rises(L, u, v) ==>
      GatheredTo(L, u, vs + [v], f, dem0, Transfer(g, u, v, dem[v]), dem[u := dem[u] + dem[v]][v := 0])
    ensures !Rises(L, u, v) ==> GatheredTo(L, u, vs + [v], f, dem0, g, dem)
  {
    assert (vs + [v])[..|vs|] == vs;
  }

  /** An entry of a pair between `u` and a rising neighbour in `vs`. */
  ghost predicate Gathered<N>(L: map<N, int>, u: N, vs: seq<N>, e: (N, N))
  {
    (e.0 == u && e.1 in vs && Rises(L, u, e.1)) || (e.1 == u && e.0 in vs && Rises(L, u, e.0))
  }

  /** The demands of the rising neighbours in `vs`, summed. */
  ghost function RisingSum<N>(L: map<N, int>, u: N, vs: seq<N>, dem: map<N, int>): int
    requires forall v :: v in vs && Rises(L, u, v) ==> v in dem
  {
    if vs == [] then 0
    else
      var v := vs[|vs| - 1];
      RisingSum(L, u, vs[..|vs| - 1], dem) + if Rises(L, u, v) then dem[v] else 0
  }

  /** What the collecting loop computes over a row without repeats: `u`
      gathers the demands of its rising neighbours, each of which drops
      to 0; each rising pair carries that demand forward and gives it back
      in reverse; every other demand and entry is left alone. */
  lemma {:induction false} GatherAt<N(!new)>(L: map<N, int>, u: N, vs: seq<N>, f: map<(N, N), Entry>, dem: map<N, int>)
    requires GatherReady(L, u, vs, f, dem) && Distinct(vs)
    ensures var r := Gather(L, u, vs, f, dem);
      && r.1[u] == dem[u] + RisingSum(L, u, vs, dem)
      && (forall v :: v in vs && Rises(L, u, v) ==>
            && r.1[v] == 0
            && r.0[(u, v)] == f[(u, v)].(flow := f[(u, v)].flow + dem[v])
            && r.0[(v, u)] == f[(v, u)].(flow := f[(v, u)].flow - dem[v]))
      && (forall x :: x in dem && x != u && !(x in vs && Rises(L, u, x)) ==> r.1[x] == dem[x])
      && (forall e :: e in f && !Gathered(L, u, vs, e) ==> r.0[e] == f[e])
  {
    if vs != [] {
      var init, v := vs[..|vs| - 1], vs[|vs| - 1];
      assert vs == init + [v];
      assert Distinct(init) by {
        forall i, j | 0 <= i < j < |init| ensures init[i] != init[j] {
          assert init[i] == vs[i] && init[j] == vs[j];
        }
      }
      GatherAt(L, u, init, f, dem);
      if Rises(L, u, v) {
        assert v !in init by {
          forall i | 0 <= i < |init| ensures init[i] != v {
            assert init[i] == vs[i] && v == vs[|vs| - 1];
          }
        }
      }
    }
  }

  /** The state of the collecting loop after the prefix `vs`: the residual
      graph keeps its shape, pair sums and non-rising entries, and `(g, dem)`
      is the fold `Gather` of that prefix. */
  ghost predicate Collecting<N(!new)>(nbrs: map<N, seq<N>>, L: map<N, int>, u: N, vs: seq<N>,
                                      f0: map<(N, N), Entry>, dem0: map<N, int>, g: map<(N, N), Entry>, dem: map<N, int>)
  {
    && Shape(nbrs, g) && Conserved(f0, g) && OnlyRising(L, f0, g)
    && GatheredTo(L, u, vs, f0, dem0, g, dem)
  }

  /** One iteration of the collecting loop keeps `Collecting`. */
  lemma CollectStep<N(!new)>(nbrs: map<N, seq<N>>, L: map<N, int>, u: N, vs: seq<N>, k: int,
                             f0: map<(N, N), Entry>, dem0: map<N, int>, g: map<(N, N), Entry>, dem: map<N, int>)
    requires 0 <= k < |vs| && GatherReady(L, u, vs, f0, dem0)
    requires Collecting(nbrs, L, u, vs[..k], f0, dem0, g, dem)
    ensures var v := vs[k];
      if Rises(L, u, v) then
        && (u, v) in g && (v, u) in g && u in dem && v in dem
        && Collecting(nbrs, L, u, vs[..k + 1], f0, dem0, Transfer(g, u, v, dem[v]), dem[u := dem[u] + dem[v]][v := 0])
      else Collecting(nbrs, L, u, vs[..k + 1], f0, dem0, g, dem)
  {
    var v := vs[k];
    assert vs[..k + 1] == vs[..k] + [v];
    PrefixReady(L, u, vs, k + 1, f0, dem0);
    GatherStep(L, u, vs[..k], v, f0, dem0, g, dem);
    if Rises(L, u, v) {
      var g1 := Transfer(g, u, v, dem[v]);
      TransferConserves(L, g, u, v, dem[v]);
      ConservedRising(L, f0, g, g1);
      ShapeSameKeys(nbrs, g, g1);
    }
  }

  /** The collecting loop of `dinic_blocking_flow` (dinic.py:220-223) over
      the row `vs` of a residual graph `f0` with demands `dem0`. */
  method CollectRow<N(!new)>(nbrs: map<N, seq<N>>, L: map<N, int>, u: N, vs: seq<N>,
                             f0: map<(N, N), Entry>, dem0: map<N, int>)
    returns (g: map<(N, N), Entry>, dem: map<N, int>)
    requires Shape(nbrs, f0) && GatherReady(L, u, vs, f0, dem0) && u in L && L[u] >= 0
    ensures Collecting(nbrs, L, u, vs, f0, dem0, g, dem)
  {
    g, dem := f0, dem0;
    for k := 0 to |vs|
      invariant Collecting(nbrs, L, u, vs[..k], f0, dem0, g, dem)
    {
      var v := vs[k];
      CollectStep(nbrs, L, u, vs, k, f0, dem0, g, dem);
      if (if v in L then L[v] else -1) > L[u] {
        assert Rises(L, u, v);
        var d := dem[v];
        g := Transfer(g, u, v, d);
        dem := dem[u := dem[u] + d][v := 0];
      }
    }
    assert vs[..|vs|] == vs;
  }

  /** A node that the stack above position `i` will still enter. */
  ghost predicate Above<N>(st: seq<Frame<N>>, i: int, v: N)
  {
    exists j :: 0 <= i < j < |st| && st[j].u == v
  }

  /** The child frames the stack receives for `u`: each `v` of `vs`, in
      order, that lies on a later level. */
  ghost function Kids<N>(L: map<N, int>, u: N, vs: seq<N>): (r: seq<Frame<N>>)
    ensures forall i :: 0 <= i < |r| ==>
      r[i].w == Some(u) && !r[i].back && r[i].u in vs && Rises(L, u, r[i].u)
  {
    if vs == [] then []
    else
      var v := vs[|vs| - 1];
      Kids(L, u, vs[..|vs| - 1]) + if Rises(L, u, v) then [Frame(v, Some(u), false)] else []
  }

  /** Every rising neighbour gets a frame. */
  lemma {:induction false} KidsCover<N>(L: map<N, int>, u: N, vs: seq<N>, v: N)
    requires v in vs && Rises(L, u, v)
    ensures exists j :: 0 <= j < |Kids(L, u, vs)| && Kids(L, u, vs)[j].u == v
  {
    var init, last := vs[..|vs| - 1], vs[|vs| - 1];
    assert vs == init + [last];
    if v == last {
      assert Kids(L, u, vs)[|Kids(L, u, vs)| - 1].u == v;
    } else {
      KidsCover(L, u, init, v);
      var j :| 0 <= j < |Kids(L, u, init)| && Kids(L, u, init)[j].u == v;
      assert Kids(L, u, vs)[j] == Kids(L, u, init)[j];
    }
  }

  lemma ConservedRising<N(!new)>(L: map<N, int>, f0: map<(N, N), Entry>, f1: map<(N, N), Entry>, f2: map<(N, N), Entry>)
    requires Conserved(f0, f1) && Conserved(f1, f2)
    requires OnlyRising(L, f0, f1) && OnlyRising(L, f1, f2)
    ensures Conserved(f0, f2) && OnlyRising(L, f0, f2)
  {
  }

  lemma ConservedTrans<N(!new)>(f0: map<(N, N), Entry>, f1: map<(N, N), Entry>, f2: map<(N, N), Entry>)
    requires Conserved(f0, f1) && Conserved(f1, f2)
    ensures Conserved(f0, f2)
  {
  }

  /** How a pass computes levels: breadth-first as in dinic.py, or as the
      copy in J.py does it, which never writes a level. */
  datatype Levelling = Breadth | Unwritten

  /** How `dinic` ends: `t` no longer levelled, a `KeyError` for a source
      without a row or (`sup[None]`) for a source that is the sink, or the
      fuel bound reached. */
  datatype Outcome = Converged | NoSuchSource | SourceIsSink | OutOfFuel

  lemma ShapeSameKeys<N(!new)>(nbrs: map<N, seq<N>>, f0: map<(N, N), Entry>, f: map<(N, N), Entry>)
    requires Shape(nbrs, f0) && f.Keys == f0.Keys
    ensures Shape(nbrs, f)
  {
    assert forall e :: e in f <==> e in f0;
  }

  class LevelGraph<N(==, !new)> {
    const nbrs: map<N, seq<N>>
    var f: map<(N, N), Entry>

    ghost predicate Valid()
      reads this
    {
      Shape(nbrs, f)
    }

    /** The residual graph `dinic` builds (dinic.py:179-185). */
    constructor (G: Graph<N>, c: map<N, map<N, int>>)
      requires BuilderReady(G, c)
      ensures Valid()
      ensures forall x :: x in nbrs <==> x in G.V || Incomers(G.V, G.E, x) != []
      ensures forall x :: x in nbrs ==> nbrs[x] == Dedup(Out(G, x) + Incomers(G.V, G.E, x))
      ensures forall e :: e in f <==> Forward(G, e) || Forward(G, (e.1, e.0))
      ensures forall e :: e in f ==> f[e] == Initial(G, c, e)
    {
      var nbrs, f := Build(G, c);
      this.nbrs, this.f := nbrs, f;
    }

    /** `f[u][v]["cap"] - f[u][v]["flo"] > 0`. */
    ghost predicate Pos(u: N, v: N)
      reads this
    {
      (u, v) in f && f[(u, v)].capacity - f[(u, v)].flow > 0
    }

    /** A walk of positive-residual entries from `s` to `x`, as its nodes;
        it has `|p| - 1` edges. */
    ghost predicate PathD(p: seq<N>, s: N, x: N)
      reads this
    {
      && |p| >= 1 && p[0] == s && p[|p| - 1] == x
      && forall i :: 0 <= i < |p| - 1 ==> Pos(p[i], p[i + 1])
    }

    lemma PathSnoc(p: seq<N>, s: N, u: N, v: N)
      requires PathD(p, s, u) && Pos(u, v)
      ensures PathD(p + [v], s, v)
    {
      var p' := p + [v];
      assert forall i :: 0 <= i < |p| ==> p'[i] == p[i];
    }

    /** What the levels of `dinic_levels` mean: `L[s] = 0`, every levelled
        node is reached by a positive walk of `L[x]` edges, and every
        positive entry out of a levelled node leads to a levelled node at
        most one level further. */
    ghost predicate LevelsOk(s: N, L: map<N, int>)
      reads this
    {
      && s in L && L[s] == 0
      && (forall x :: x in L ==> x in nbrs && L[x] >= 0 && exists p :: PathD(p, s, x) && |p| == L[x] + 1)
      && (forall x, v :: x in L && Pos(x, v) ==> v in L && L[v] <= L[x] + 1)
    }

    /** Levels are breadth-first distances: a node is levelled exactly when
        a positive walk reaches it, and no walk is shorter than its
        level. */
    lemma {:induction false} LevelsShortest(s: N, L: map<N, int>, p: seq<N>, x: N)
      requires LevelsOk(s, L) && PathD(p, s, x)
      ensures x in L && L[x] <= |p| - 1
    {
      if |p| > 1 {
        var y := p[|p| - 2];
        assert PathD(p[..|p| - 1], s, y);
        LevelsShortest(s, L, p[..|p| - 1], y);
        assert Pos(y, x);
      }
    }

    lemma LevelsCover(s: N, L: map<N, int>, x: N)
      requires LevelsOk(s, L)
      ensures (exists p :: PathD(p, s, x)) <==> x in L
    {
      forall p | PathD(p, s, x)
        ensures x in L
      {
        LevelsShortest(s, L, p, x);
      }
    }

    /** The state of the `dinic_levels` loop: queue entries carry a walk
        of their level, levels along the queue never decrease and span at
        most one, every seen node has its level and a walk of that length,
        and every positive entry out of a seen node leads to a seen node
        at most one level further or to one queued at that level or
        lower. */
    ghost predicate LevelInv(s: N, L: map<N, int>, seen: set<N>, q: seq<(N, int)>,
                             qp: seq<seq<N>>, lp: map<N, seq<N>>)
      reads this
    {
      && seen <= nbrs.Keys && s in nbrs
      && QueueInv(s, q, qp)
      && Known(s, L, seen, q, lp)
      && ClosedInv(L, seen, q)
    }

    /** The queue: nodes with rows, each with a walk from `s` as long as its
        level, levels non-decreasing and at most one above the head's. */
    ghost predicate QueueInv(s: N, q: seq<(N, int)>, qp: seq<seq<N>>)
      reads this
    {
      && |qp| == |q|
      && (forall i :: 0 <= i < |q| ==> q[i].0 in nbrs && PathD(qp[i], s, q[i].0) && |qp[i]| == q[i].1 + 1)
      && (forall i, j :: 0 <= i < j < |q| ==> q[i].1 <= q[j].1)
      && (forall i :: 0 <= i < |q| ==> q[i].1 <= q[0].1 + 1)
    }

    /** The levels so far: `s` at 0, every seen node levelled by a walk of
        its length, and no level above the head of the queue. */
    ghost predicate Known(s: N, L: map<N, int>, seen: set<N>, q: seq<(N, int)>, lp: map<N, seq<N>>)
      reads this
    {
      && s in L && L[s] == 0
      && (forall x :: x in L <==> x in seen || x == s)
      && (s !in seen ==> seen == {} && q == [(s, 0)])
      && (forall x :: x in seen ==> x in lp && PathD(lp[x], s, x) && |lp[x]| == L[x] + 1)
      && (forall x :: x in seen && q != [] ==> L[x] <= q[0].1)
    }

    /** Every positive entry out of a seen node leads to a seen node at most
        one level further, or to one queued at that level. */
    ghost predicate ClosedInv(L: map<N, int>, seen: set<N>, q: seq<(N, int)>)
      reads this
      requires forall x :: x in seen ==> x in L
    {
      forall x, v :: x in seen && Pos(x, v) ==> (v in seen && L[v] <= L[x] + 1) || Queued(q, v, L[x] + 1)
    }

    lemma LevelInvInit(s: N)
      requires Valid() && s in nbrs
      ensures LevelInv(s, map[s := 0], {}, [(s, 0)], [[s]], map[])
    {
    }

    /** Popping a node already seen (`continue`). */
    lemma PopSeen(s: N, L: map<N, int>, seen: set<N>, q: seq<(N, int)>, qp: seq<seq<N>>, lp: map<N, seq<N>>)
      requires LevelInv(s, L, seen, q, qp, lp) && q != [] && q[0].0 in seen
      ensures LevelInv(s, L, seen, q[1..], qp[1..], lp)
    {
      var q' := q[1..];
      forall x, v | x in seen && Pos(x, v)
        ensures (v in seen && L[v] <= L[x] + 1) || Queued(q', v, L[x] + 1)
      {
        if !(v in seen && L[v] <= L[x] + 1) {
          var i :| 0 <= i < |q| && q[i].0 == v && q[i].1 <= L[x] + 1;
          if i > 0 {
            assert q'[i - 1] == q[i];
          }
        }
      }
      if q' != [] {
        assert q'[0] == q[1];
      }
    }

    /** Popping an unseen node `u` at level `n`: it gets level `n`, and its
        positive entries have been queued at level `n + 1`. */
    lemma PopNew(s: N, L: map<N, int>, seen: set<N>, q: seq<(N, int)>, qp: seq<seq<N>>, lp: map<N, seq<N>>,
                 q': seq<(N, int)>, qp': seq<seq<N>>)
      requires LevelInv(s, L, seen, q, qp, lp) && q != [] && q[0].0 !in seen
      requires |qp'| == |q'| && |q| - 1 <= |q'|
      requires q'[..|q| - 1] == q[1..] && qp'[..|q| - 1] == qp[1..]
      requires forall i :: |q| - 1 <= i < |q'| ==>
        q'[i].0 in nbrs && q'[i].1 == q[0].1 + 1 && Pos(q[0].0, q'[i].0) && qp'[i] == qp[0] + [q'[i].0]
      requires forall v :: Pos(q[0].0, v) ==> Queued(q', v, q[0].1 + 1)
      ensures LevelInv(s, L[q[0].0 := q[0].1], seen + {q[0].0}, q', qp', lp[q[0].0 := qp[0]])
    {
      assert forall i :: 0 <= i < |q| - 1 ==> q'[i] == q[i + 1] && qp'[i] == qp[i + 1];
      PopNewQueue(s, q, qp, q', qp');
      PopNewKnown(s, L, seen, q, qp, lp, q');
      PopNewClosure(L, seen, q, q', q[0].0, q[0].1);
    }

    lemma PopNewQueue(s: N, q: seq<(N, int)>, qp: seq<seq<N>>, q': seq<(N, int)>, qp': seq<seq<N>>)
      requires QueueInv(s, q, qp) && q != []
      requires |qp'| == |q'| && |q| - 1 <= |q'|
      requires forall i :: 0 <= i < |q| - 1 ==> q'[i] == q[i + 1] && qp'[i] == qp[i + 1]
      requires forall i :: |q| - 1 <= i < |q'| ==>
        q'[i].0 in nbrs && q'[i].1 == q[0].1 + 1 && Pos(q[0].0, q'[i].0) && qp'[i] == qp[0] + [q'[i].0]
      ensures QueueInv(s, q', qp')
    {
      forall i | 0 <= i < |q'|
        ensures q'[i].0 in nbrs && PathD(qp'[i], s, q'[i].0) && |qp'[i]| == q'[i].1 + 1
      {
        if i >= |q| - 1 {
          PathSnoc(qp[0], s, q[0].0, q'[i].0);
        }
      }
    }

    lemma PopNewKnown(s: N, L: map<N, int>, seen: set<N>, q: seq<(N, int)>, qp: seq<seq<N>>, lp: map<N, seq<N>>,
                      q': seq<(N, int)>)
      requires Known(s, L, seen, q, lp) && QueueInv(s, q, qp) && q != [] && q[0].0 !in seen
      requires |q| - 1 <= |q'|
      requires forall i :: 0 <= i < |q| - 1 ==> q'[i] == q[i + 1]
      requires forall i :: |q| - 1 <= i < |q'| ==> q'[i].1 == q[0].1 + 1
      ensures Known(s, L[q[0].0 := q[0].1], seen + {q[0].0}, q', lp[q[0].0 := qp[0]])
    {
      if s !in seen {
        assert q[0].0 == s;
      }
      if q' != [] && |q| > 1 {
        assert q'[0] == q[1];
      }
    }

    lemma PopNewClosure(L: map<N, int>, seen: set<N>, q: seq<(N, int)>, q': seq<(N, int)>, u: N, n: int)
      requires q != [] && q[0] == (u, n) && u !in seen
      requires |q| - 1 <= |q'| && forall i :: 0 <= i < |q| - 1 ==> q'[i] == q[i + 1]
      requires forall x :: x in seen ==> x in L && L[x] <= n
      requires forall x, v :: x in seen && Pos(x, v) ==> (v in seen && L[v] <= L[x] + 1) || Queued(q, v, L[x] + 1)
      requires forall v :: Pos(u, v) ==> Queued(q', v, n + 1)
      ensures ClosedInv(L[u := n], seen + {u}, q')
    {
      forall x, v | x in seen + {u} && Pos(x, v)
        ensures (v in seen + {u} && L[u := n][v] <= L[u := n][x] + 1) || Queued(q', v, L[u := n][x] + 1)
      {
        if x != u && !(v in seen && L[v] <= L[x] + 1) {
          var i :| 0 <= i < |q| && q[i].0 == v && q[i].1 <= L[x] + 1;
          if i > 0 {
            assert q'[i - 1] == q[i];
          }
        }
      }
    }

    /** Queue the positive entries of `u` in the order of its row
        (dinic.py:199-200). */
    method Enqueue(s: N, u: N, n: int, ghost path: seq<N>, q0: seq<(N, int)>, ghost qp0: seq<seq<N>>)
      returns (q: seq<(N, int)>, ghost qp: seq<seq<N>>)
      requires Valid() && u in nbrs && |qp0| == |q0|
      ensures |qp| == |q| && |q0| <= |q|
      ensures q[..|q0|] == q0 && qp[..|q0|] == qp0
      ensures forall i :: |q0| <= i < |q| ==>
        q[i].0 in nbrs && q[i].1 == n + 1 && Pos(u, q[i].0) && qp[i] == path + [q[i].0]
      ensures forall v :: Pos(u, v) ==> Queued(q, v, n + 1)
    {
      q, qp := q0, qp0;
      var vs := nbrs[u];
      for k := 0 to |vs|
        invariant |qp| == |q| && |q0| <= |q|
        invariant q[..|q0|] == q0 && qp[..|q0|] == qp0
        invariant forall i :: |q0| <= i < |q| ==>
          q[i].0 in nbrs && q[i].1 == n + 1 && Pos(u, q[i].0) && qp[i] == path + [q[i].0]
        invariant forall j :: 0 <= j < k && Pos(u, vs[j]) ==> Queued(q, vs[j], n + 1)
      {
        var v := vs[k];
        assert (u, v) in f && (v, u) in f;
        if f[(u, v)].capacity - f[(u, v)].flow > 0 {
          ghost var qb := q;
          q, qp := q + [(v, n + 1)], qp + [path + [v]];
          assert q[|q| - 1] == (v, n + 1);
          forall j | 0 <= j < k && Pos(u, vs[j])
            ensures Queued(q, vs[j], n + 1)
          {
            var i :| 0 <= i < |qb| && qb[i].0 == vs[j] && qb[i].1 <= n + 1;
            assert q[i] == qb[i];
          }
        }
      }
      forall v | Pos(u, v)
        ensures Queued(q, v, n + 1)
      {
        var j :| 0 <= j < |vs| && vs[j] == v;
      }
    }

    /** `dinic_levels` (dinic.py:193-201): breadth-first search from `s`
        over positive-residual entries; `None` is the `KeyError` of a
        source without a row. */
    method Levels(s: N) returns (r: Option<map<N, int>>)
      requires Valid()
      ensures r.None? <==> s !in nbrs
      ensures r.Some? ==> LevelsOk(s, r.value)
    {
      if s !in nbrs {
        return None;
      }
      var L := map[s := 0];
      var seen: set<N> := {};
      var q := [(s, 0)];
      ghost var qp := [[s]];
      ghost var lp: map<N, seq<N>> := map[];
      LevelInvInit(s);
      while q != []
        invariant LevelInv(s, L, seen, q, qp, lp)
        decreases nbrs.Keys - seen, |q|
      {
        var u, n := q[0].0, q[0].1;
        if u in seen {
          PopSeen(s, L, seen, q, qp, lp);
          q, qp := q[1..], qp[1..];
          continue;
        }
        var q', qp' := Enqueue(s, u, n, qp[0], q[1..], qp[1..]);
        PopNew(s, L, seen, q, qp, lp, q', qp');
        seen, L, lp := seen + {u}, L[u := n], lp[u := qp[0]];
        q, qp := q', qp';
      }
      r := Some(L);
      LevelsDone(s, L, seen, lp);
    }

    lemma LevelsDone(s: N, L: map<N, int>, seen: set<N>, lp: map<N, seq<N>>)
      requires LevelInv(s, L, seen, [], [], lp)
      ensures LevelsOk(s, L)
    {
      forall x | x in L
        ensures exists p :: PathD(p, s, x) && |p| == L[x] + 1
      {
        assert PathD(lp[x], s, x);
      }
    }
  
    /** Levels the blocking flow reads: levelled nodes have rows and
        non-negative levels. */
    ghost predicate Levelled(L: map<N, int>)
    {
      forall x :: x in L ==> x in nbrs && L[x] >= 0
    }

    ghost predicate Measured(L: map<N, int>, M: int)
    {
      Levelled(L) && forall x :: x in L ==> L[x] <= M
    }

    /** An upper bound on the iterations still owed to a frame that enters
        `u`: its own two, and those of the frames of its rising
        neighbours. */
    ghost function Work(L: map<N, int>, M: int, u: N): nat
      requires Measured(L, M) && u in L
      decreases M - L[u], 1, 0
    {
      2 + Children(L, M, u, nbrs[u])
    }

    ghost function Children(L: map<N, int>, M: int, u: N, vs: seq<N>): nat
      requires Measured(L, M) && u in L
      decreases M - L[u], 0, |vs|
    {
      if vs == [] then 0
      else
        var v := vs[|vs| - 1];
        Children(L, M, u, vs[..|vs| - 1]) + if Rises(L, u, v) then Work(L, M, v) else 0
    }

    ghost function StackWork(L: map<N, int>, M: int, st: seq<Frame<N>>): nat
      requires Measured(L, M) && forall i :: 0 <= i < |st| ==> st[i].u in L
    {
      if st == [] then 0
      else
        var fr := st[|st| - 1];
        StackWork(L, M, st[..|st| - 1]) + if fr.back then 1 else Work(L, M, fr.u)
    }

    lemma {:induction false} StackWorkAppend(L: map<N, int>, M: int, a: seq<Frame<N>>, b: seq<Frame<N>>)
      requires Measured(L, M)
      requires forall i :: 0 <= i < |a| ==> a[i].u in L
      requires forall i :: 0 <= i < |b| ==> b[i].u in L
      ensures StackWork(L, M, a + b) == StackWork(L, M, a) + StackWork(L, M, b)
    {
      if b != [] {
        assert (a + b)[..|a + b| - 1] == a + b[..|b| - 1];
        StackWorkAppend(L, M, a, b[..|b| - 1]);
      } else {
        assert a + b == a;
      }
    }

    lemma {:induction false} KidsWork(L: map<N, int>, M: int, u: N, vs: seq<N>)
      requires Measured(L, M) && u in L
      ensures StackWork(L, M, Kids(L, u, vs)) == Children(L, M, u, vs)
    {
      if vs != [] {
        var init, v := vs[..|vs| - 1], vs[|vs| - 1];
        KidsWork(L, M, u, init);
        var tail := if Rises(L, u, v) then [Frame(v, Some(u), false)] else [];
        StackWorkAppend(L, M, Kids(L, u, init), tail);
        if tail != [] {
          assert tail[..0] == [];
        }
      }
    }

    /** The state of the `dinic_blocking_flow` loop: every frame is
        levelled, only the source frame has no parent, a parent has a
        supply and a row listing the child, and a frame waiting to collect
        has, for each rising neighbour, a demand already or a frame above
        it that will enter that neighbour. */
    ghost predicate StackInv(L: map<N, int>, s: N, st: seq<Frame<N>>, sup: map<N, int>, dem: map<N, int>)
      requires Levelled(L)
    {
      && s in sup
      && (forall i :: 0 <= i < |st| ==> st[i].u in L)
      && (forall i :: 0 <= i < |st| && st[i].w.None? ==> st[i].u == s)
      && (forall i :: 0 <= i < |st| && st[i].w.Some? ==>
            st[i].w.value in sup && st[i].w.value in L && st[i].u in nbrs[st[i].w.value])
      && (forall i, v :: 0 <= i < |st| && st[i].back && v in nbrs[st[i].u] && Rises(L, st[i].u, v) ==>
            v in dem || Above(st, i, v))
    }

    /** Popping a frame whose node then has a demand. */
    lemma PopInv(L: map<N, int>, s: N, st: seq<Frame<N>>, sup: map<N, int>, dem: map<N, int>,
                 sup': map<N, int>, dem': map<N, int>)
      requires Levelled(L) && StackInv(L, s, st, sup, dem) && st != []
      requires sup.Keys <= sup'.Keys && dem.Keys <= dem'.Keys && st[|st| - 1].u in dem'
      ensures StackInv(L, s, st[..|st| - 1], sup', dem')
    {
      var k := |st| - 1;
      var st' := st[..k];
      forall i, v | 0 <= i < |st'| && st'[i].back && v in nbrs[st'[i].u] && Rises(L, st'[i].u, v)
        ensures v in dem' || Above(st', i, v)
      {
        assert st'[i] == st[i];
        if v !in dem {
          var j :| i < j < |st| && st[j].u == v;
          if j < k {
            assert st'[j] == st[j];
          }
        }
      }
    }

    /** Entering `u`: its frame turns into a collecting one and the frames
        of its rising neighbours go on top. */
    lemma ArriveInv(L: map<N, int>, s: N, st: seq<Frame<N>>, sup: map<N, int>, dem: map<N, int>, sup': map<N, int>)
      requires Levelled(L) && StackInv(L, s, st, sup, dem) && st != [] && !st[|st| - 1].back
      requires sup.Keys <= sup'.Keys && st[|st| - 1].u in sup'
      ensures var fr := st[|st| - 1];
        StackInv(L, s, st[..|st| - 1] + [fr.(back := true)] + Kids(L, fr.u, nbrs[fr.u]), sup', dem)
    {
      var k := |st| - 1;
      var fr := st[k];
      var ks := Kids(L, fr.u, nbrs[fr.u]);
      var st' := st[..k] + [fr.(back := true)] + ks;
      assert forall i :: 0 <= i < k ==> st'[i] == st[i];
      assert st'[k] == fr.(back := true);
      assert forall i :: 0 <= i < |ks| ==> st'[k + 1 + i] == ks[i];
      forall i, v | 0 <= i < |st'| && st'[i].back && v in nbrs[st'[i].u] && Rises(L, st'[i].u, v)
        ensures v in dem || Above(st', i, v)
      {
        if i < k {
          if v !in dem {
            var j :| i < j < |st| && st[j].u == v;
            if j < k {
              assert st'[j] == st[j];
            } else {
              assert st'[k].u == v;
            }
          }
        } else if i == k {
          KidsCover(L, fr.u, nbrs[fr.u], v);
          var j :| 0 <= j < |ks| && ks[j].u == v;
          assert st'[k + 1 + j].u == v;
        }
      }
    }

    lemma ArriveWork(L: map<N, int>, M: int, st: seq<Frame<N>>)
      requires Measured(L, M) && st != [] && !st[|st| - 1].back
      requires forall i :: 0 <= i < |st| ==> st[i].u in L
      ensures var fr := st[|st| - 1];
        var st' := st[..|st| - 1] + [fr.(back := true)] + Kids(L, fr.u, nbrs[fr.u]);
        (forall i :: 0 <= i < |st'| ==> st'[i].u in L) && StackWork(L, M, st') < StackWork(L, M, st)
    {
      var k := |st| - 1;
      var fr := st[k];
      var head := st[..k] + [fr.(back := true)];
      var ks := Kids(L, fr.u, nbrs[fr.u]);
      assert head[..k] == st[..k];
      StackWorkAppend(L, M, head, ks);
      KidsWork(L, M, fr.u, nbrs[fr.u]);
    }

    /** The children loop of `dinic_blocking_flow` (dinic.py:212-213):
        a frame for each neighbour on a later level, in row order. */
    method PushChildren(L: map<N, int>, u: N, st0: seq<Frame<N>>) returns (st: seq<Frame<N>>)
      requires Levelled(L) && u in L
      ensures st == st0 + Kids(L, u, nbrs[u])
    {
      st := st0;
      var vs := nbrs[u];
      for k := 0 to |vs|
        invariant st == st0 + Kids(L, u, vs[..k])
      {
        var v := vs[k];
        assert vs[..k + 1][..k] == vs[..k];
        if (if v in L then L[v] else -1) > L[u] {
          st := st + [Frame(v, Some(u), false)];
        }
      }
      assert vs[..|vs|] == vs;
    }

    /** The collecting step of `dinic_blocking_flow` (dinic.py:219-223):
        the demand of each rising neighbour is moved onto the pair
        `(u, v)` and gathered into the demand of `u`. */
    method Leave(L: map<N, int>, u: N, dem0: map<N, int>) returns (dem: map<N, int>)
      requires Valid() && Levelled(L) && u in L
      requires forall v :: v in nbrs[u] && Rises(L, u, v) ==> v in dem0
      modifies this
      ensures Valid() && Conserved(old(f), f) && OnlyRising(L, old(f), f)
      ensures dem.Keys == dem0.Keys + {u}
      ensures GatheredTo(L, u, nbrs[u], old(f), dem0[u := 0], f, dem)
    {
      RowReady(nbrs, L, u, f, dem0[u := 0]);
      var g;
      g, dem := CollectRow(nbrs, L, u, nbrs[u], f, dem0[u := 0]);
      f := g;
    }

    /** Entering a node other than the sink (dinic.py:211-213): its supply
        is what its parent can still send through the entry between them,
        and its frame is pushed back as a collecting one below the frames
        of its rising neighbours. */
    method Enter(L: map<N, int>, ghost M: int, s: N, st0: seq<Frame<N>>, sup0: map<N, int>, dem: map<N, int>)
      returns (st: seq<Frame<N>>, sup: map<N, int>)
      requires Valid() && Measured(L, M) && StackInv(L, s, st0, sup0, dem)
      requires st0 != [] && !st0[|st0| - 1].back
      ensures StackInv(L, s, st, sup, dem)
      ensures StackWork(L, M, st) < StackWork(L, M, st0)
      ensures sup0.Keys <= sup.Keys
      ensures var fr := st0[|st0| - 1];
        && st == st0[..|st0| - 1] + [fr.(back := true)] + Kids(L, fr.u, nbrs[fr.u])
        && sup == if fr.w.None? then sup0 else
             var w := fr.w.value;
             sup0[fr.u := Min(sup0[w], f[(w, fr.u)].capacity - f[(w, fr.u)].flow)]
    {
      var fr := st0[|st0| - 1];
      var u := fr.u;
      sup := sup0;
      if fr.w.Some? {
        var w := fr.w.value;
        sup := sup0[u := Min(sup0[w], f[(w, u)].capacity - f[(w, u)].flow)];
      }
      ArriveInv(L, s, st0, sup0, dem, sup);
      ArriveWork(L, M, st0);
      st := PushChildren(L, u, st0[..|st0| - 1] + [fr.(back := true)]);
    }

    /** Leaving a collecting frame (dinic.py:218-223): the demand gathered
        from the rising neighbours is taken from the parent's supply. */
    method Collect(L: map<N, int>, ghost M: int, s: N, st0: seq<Frame<N>>, sup0: map<N, int>, dem0: map<N, int>)
      returns (sup: map<N, int>, dem: map<N, int>)
      requires Valid() && Measured(L, M) && StackInv(L, s, st0, sup0, dem0)
      requires st0 != [] && st0[|st0| - 1].back
      modifies this
      ensures Valid() && Conserved(old(f), f) && OnlyRising(L, old(f), f)
      ensures StackInv(L, s, st0[..|st0| - 1], sup, dem)
      ensures StackWork(L, M, st0[..|st0| - 1]) < StackWork(L, M, st0)
      ensures var fr := st0[|st0| - 1];
        && GatheredTo(L, fr.u, nbrs[fr.u], old(f), dem0[fr.u := 0], f, dem)
        && sup == if fr.w.None? then sup0 else sup0[fr.w.value := sup0[fr.w.value] - dem[fr.u]]
    {
      var fr := st0[|st0| - 1];
      var u := fr.u;
      dem := Leave(L, u, dem0);
      sup := sup0;
      if fr.w.Some? {
        var w := fr.w.value;
        sup := sup0[w := sup0[w] - dem[u]];
      }
      PopInv(L, s, st0, sup0, dem0, sup, dem);
    }

    /** `dinic_blocking_flow` (dinic.py:204-224): a depth-first pass over
        the levels, carrying supply down from the source and demand back
        up from the sink.  Only flows move, flow sums of opposite entries
        are kept, and only pairs between levels change.  It fails
        (`sup[None]`: `KeyError`) exactly when the source is the sink. */
    method BlockingFlow(L: map<N, int>, s: N, t: N) returns (ok: bool)
      requires Valid() && Levelled(L) && s in L
      modifies this
      ensures Valid() && Conserved(old(f), f) && OnlyRising(L, old(f), f)
      ensures ok <==> s != t
      ensures !ok ==> f == old(f)
    {
      ghost var f0 := f;
      ghost var M := MaxOver(L, L.Keys);
      var st := [Frame(s, None, false)];
      var total := SourceCapacity(f, s, nbrs[s]);
      var sup := map[s := total];
      var dem := map[t := total];
      while st != []
        invariant Valid() && Conserved(f0, f) && OnlyRising(L, f0, f)
        invariant StackInv(L, s, st, sup, dem)
        invariant s == t ==> st == [Frame(s, None, false)] && f == f0
        decreases StackWork(L, M, st)
      {
        var st0 := st;
        var fr := st[|st| - 1];
        var u := fr.u;
        st := st[..|st| - 1];
        if !fr.back {
          if u == t {
            if fr.w.None? {
              return false;
            }
            var w := fr.w.value;
            var d := Min(sup[w], f[(w, u)].capacity - f[(w, u)].flow);
            PopInv(L, s, st0, sup, dem, sup[w := sup[w] - d], dem[u := d]);
            dem := dem[u := d];
            sup := sup[w := sup[w] - d];
          } else {
            st, sup := Enter(L, M, s, st0, sup, dem);
          }
        } else {
          ghost var fb := f;
          sup, dem := Collect(L, M, s, st0, sup, dem);
          ConservedRising(L, f0, fb, f);
        }
      }
      return true;
    }
  
    /** The inner loop of J.py's `dinic_levels` (J.py:24-27): each unseen
        neighbour behind a positive entry is queued once and marked seen. */
    method EnqueueUnseen(u: N, n: int, q0: seq<(N, int)>, seen0: set<N>) returns (q: seq<(N, int)>, seen: set<N>)
      requires Valid() && u in nbrs && seen0 <= nbrs.Keys
      ensures seen0 <= seen <= nbrs.Keys
      ensures |q0| <= |q| && q[..|q0|] == q0 && |q| - |q0| == |seen - seen0|
      ensures forall i :: |q0| <= i < |q| ==>
        q[i].0 in seen && q[i].0 !in seen0 && Pos(u, q[i].0) && q[i].1 == n + 1
      ensures forall v :: Pos(u, v) ==> v in seen
    {
      q, seen := q0, seen0;
      var vs := nbrs[u];
      for k := 0 to |vs|
        invariant seen0 <= seen <= nbrs.Keys
        invariant |q0| <= |q| && q[..|q0|] == q0 && |q| - |q0| == |seen - seen0|
        invariant forall i :: |q0| <= i < |q| ==>
          q[i].0 in seen && q[i].0 !in seen0 && Pos(u, q[i].0) && q[i].1 == n + 1
        invariant forall j :: 0 <= j < k && Pos(u, vs[j]) ==> vs[j] in seen
      {
        var v := vs[k];
        assert (u, v) in f && (v, u) in f;
        if f[(u, v)].capacity - f[(u, v)].flow > 0 {
          if v !in seen {
            assert (seen + {v}) - seen0 == (seen - seen0) + {v};
            q, seen := q + [(v, n + 1)], seen + {v};
          }
        }
      }
    }

    /** `dinic_levels` as copied into J.py (J.py:20-28).  It visits what the
        breadth-first scan visits, but records no level: only `{s: 0}`
        comes back.  `None` is the `KeyError` of a source without a
        row. */
    method LevelsJ(s: N) returns (r: Option<map<N, int>>)
      requires Valid()
      ensures r.None? <==> s !in nbrs
      ensures r.Some? ==> r.value == map[s := 0]
    {
      if s !in nbrs {
        return None;
      }
      var L := map[s := 0];
      var seen: set<N> := {};
      var q := [(s, 0)];
      while q != []
        invariant seen <= nbrs.Keys
        invariant forall i :: 0 <= i < |q| ==> q[i].0 in nbrs
        decreases nbrs.Keys - seen, |q|
      {
        var u, n := q[0].0, q[0].1;
        var q', seen' := EnqueueUnseen(u, n, q[1..], seen);
        if seen' != seen {
          var v :| v in seen' - seen;
          assert v in nbrs.Keys - seen && v !in nbrs.Keys - seen';
        }
        q, seen := q', seen';
      }
      return Some(L);
    }

    method Level(s: N, rule: Levelling) returns (r: Option<map<N, int>>)
      requires Valid()
      ensures r.None? <==> s !in nbrs
      ensures r.Some? ==> s in r.value && Levelled(r.value)
      ensures r.Some? && rule == Breadth ==> LevelsOk(s, r.value)
      ensures r.Some? && rule == Unwritten ==> r.value == map[s := 0]
    {
      if rule == Breadth {
        r := Levels(s);
      } else {
        r := LevelsJ(s);
      }
    }

    /** The passes of `dinic` (dinic.py:186-190, J.py:13-17): level, and
        while the sink is levelled run a blocking flow and level again;
        then report the flow out of the source.  Only flows move and
        opposite entries keep their flow sums.  With breadth-first levels
        the sink is unreachable once it stops; with J.py's levels no pass
        ever runs unless the source is the sink, which fails. */
    method Passes(s: N, t: N, fuel: nat, rule: Levelling) returns (outcome: Outcome, total: int)
      requires Valid()
      modifies this
      ensures Valid() && Conserved(old(f), f)
      ensures outcome == NoSuchSource <==> s !in nbrs
      ensures outcome == SourceIsSink <==> s in nbrs && s == t
      ensures outcome == NoSuchSource || outcome == SourceIsSink ==> f == old(f)
      ensures outcome == Converged ==> total == SourceFlow(f, s, nbrs[s])
      ensures outcome == Converged && rule == Breadth ==> forall p :: !PathD(p, s, t)
      ensures rule == Unwritten ==> f == old(f) && outcome != OutOfFuel
    {
      ghost var f0 := f;
      var r := Level(s, rule);
      if r.None? {
        return NoSuchSource, 0;
      }
      var L := r.value;
      var left := fuel;
      while t in L
        invariant Valid() && Conserved(f0, f) && s in nbrs && s in L && Levelled(L)
        invariant rule == Breadth ==> LevelsOk(s, L)
        invariant rule == Unwritten ==> L == map[s := 0] && f == f0
        invariant s == t ==> f == f0
        decreases left
      {
        ghost var fb := f;
        var ok := BlockingFlow(L, s, t);
        if !ok {
          return SourceIsSink, 0;
        }
        ConservedTrans(f0, fb, f);
        if left == 0 {
          return OutOfFuel, 0;
        }
        left := left - 1;
        r := Level(s, rule);
        L := r.value;
      }
      if rule == Breadth {
        LevelsCover(s, L, t);
      }
      return Converged, SourceFlow(f, s, nbrs[s]);
    }
  }

  /** `dinic` (dinic.py:177-190): build the residual graph, then run the
      passes.  Capacities are those of the input edges, and flows stay
      antisymmetric: `f[u][v]` carries the negation of `f[v][u]`. */
  method Run<N(==, !new)>(G: Graph<N>, s: N, t: N, c: map<N, map<N, int>>, fuel: nat)
    returns (g: LevelGraph<N>, outcome: Outcome, total: int)
    requires BuilderReady(G, c)
    ensures fresh(g) && g.Valid()
    ensures forall x :: x in g.nbrs <==> x in G.V || Incomers(G.V, G.E, x) != []
    ensures forall e :: e in g.f <==> Forward(G, e) || Forward(G, (e.1, e.0))
    ensures forall e :: e in g.f ==> g.f[e].capacity == Initial(G, c, e).capacity
    ensures forall e :: e in g.f ==> (e.1, e.0) in g.f && g.f[e].flow == -g.f[(e.1, e.0)].flow
    ensures outcome == NoSuchSource <==> s !in G.V && Incomers(G.V, G.E, s) == []
    ensures outcome == SourceIsSink <==> s in g.nbrs && s == t
    ensures outcome == Converged ==> (forall p :: !g.PathD(p, s, t)) && total == SourceFlow(g.f, s, g.nbrs[s])
  {
    g := new LevelGraph(G, c);
    outcome, total := g.Passes(s, t, fuel, Breadth);
  }

  /** `dinic` as J.py runs it (J.py:4-17), with its levelling: when the
      source has a row and is not the sink, no pass runs, every entry keeps
      its initial capacity and zero flow, and the reported flow is 0. */
  method RunJ<N(==, !new)>(G: Graph<N>, s: N, t: N, c: map<N, map<N, int>>)
    returns (g: LevelGraph<N>, outcome: Outcome, total: int)
    requires BuilderReady(G, c)
    ensures fresh(g) && g.Valid()
    ensures forall x :: x in g.nbrs <==> x in G.V || Incomers(G.V, G.E, x) != []
    ensures forall e :: e in g.f <==> Forward(G, e) || Forward(G, (e.1, e.0))
    ensures forall e :: e in g.f ==> g.f[e] == Initial(G, c, e)
    ensures outcome == NoSuchSource <==> s !in G.V && Incomers(G.V, G.E, s) == []
    ensures outcome == SourceIsSink <==> s in g.nbrs && s == t
    ensures outcome == Converged <==> s in g.nbrs && s != t
    ensures outcome == Converged ==> total == 0
  {
    g := new LevelGraph(G, c);
    outcome, total := g.Passes(s, t, 0, Unwritten);
    if outcome == Converged {
      SourceFlowZero(g.f, s, g.nbrs[s]);
    }
  }

  lemma {:induction false} SourceFlowZero<N>(f: map<(N, N), Entry>, s: N, outs: seq<N>)
    requires forall u :: u in outs ==> (s, u) in f && f[(s, u)].flow == 0
    ensures SourceFlow(f, s, outs) == 0
  {
    if outs != [] {
      SourceFlowZero(f, s, outs[..|outs| - 1]);
    }
  }
}
