// Graphs as the flow solvers see them: a node list V, an adjacency map E
// whose keys are iterated in a fixed order, and the reverse adjacency that
// `transpose` builds from them.  Nodes are of any type with equality, so
// the scheduling encoders can use their own node datatypes.

module FlowGraph {

  datatype Option<T> = None | Some(value: T)

  /** Python's `min` of two integers. */
  function Min(a: int, b: int): (m: int)
    ensures m <= a && m <= b && (m == a || m == b)
  {
    if b < a then b else a
  }

  /** One entry of a residual graph: the `{capacity, flow}` record the
      solvers keep for an ordered pair of nodes. */
  datatype Entry = Entry(capacity: int, flow: int)

  /** `keys` is the iteration order of the adjacency dictionary `E`. */
  datatype Graph<N> = Graph(V: seq<N>, keys: seq<N>, E: map<N, seq<N>>)

  predicate Distinct<T(==)>(s: seq<T>)
  {
    forall i, j :: 0 <= i < j < |s| ==> s[i] != s[j]
  }

  /** What `transpose` needs of its argument: the key order lists every key
      of E once, and every neighbour is a node of V (otherwise the append
      to `ET[v]` fails). */
  ghost predicate TransposeReady<N(!new)>(G: Graph<N>)
  {
    && Distinct(G.keys)
    && (forall u :: u in G.keys <==> u in G.E)
    && (forall u, v :: u in G.E && v in G.E[u] ==> v in G.V)
  }

  /** `n` copies of `u`. */
  function Copies<N>(u: N, n: nat): (r: seq<N>)
    ensures |r| == n
    ensures forall i :: 0 <= i < n ==> r[i] == u
  {
    seq(n, _ => u)
  }

  /** The reverse adjacency list of `v`: every key `u` (in key order), once
      for each occurrence of `v` in `E[u]`. */
  function Incoming<N>(keys: seq<N>, E: map<N, seq<N>>, v: N): seq<N>
    requires forall u :: u in keys ==> u in E
  {
    if keys == [] then []
    else
      var u := keys[|keys| - 1];
      Incoming(keys[..|keys| - 1], E, v) + Copies(u, multiset(E[u])[v])
  }

  lemma CopiesCount<N>(w: N, n: nat, u: N)
    ensures multiset(Copies(w, n))[u] == if u == w then n else 0
  {
    if n > 0 {
      assert Copies(w, n) == Copies(w, n - 1) + [w];
      CopiesCount(w, n - 1, u);
    } else {
      assert Copies(w, n) == [];
    }
  }

  /** `u` occurs in the reverse list of `v` exactly as often as `v` occurs
      in the forward list of `u`. */
  lemma {:induction false} IncomingCount<N>(keys: seq<N>, E: map<N, seq<N>>, v: N, u: N)
    requires forall x :: x in keys ==> x in E
    requires Distinct(keys)
    ensures multiset(Incoming(keys, E, v))[u] == if u in keys then multiset(E[u])[v] else 0
  {
    if keys != [] {
      var init, w := keys[..|keys| - 1], keys[|keys| - 1];
      assert keys == init + [w];
      IncomingCount(init, E, v, u);
      CopiesCount(w, multiset(E[w])[v], u);
      assert w !in init;
    }
  }

  /** Membership form of IncomingCount. */
  lemma IncomingMember<N>(keys: seq<N>, E: map<N, seq<N>>, v: N, u: N)
    requires forall x :: x in keys ==> x in E
    requires Distinct(keys)
    ensures u in Incoming(keys, E, v) <==> u in keys && v in E[u]
  {
    IncomingCount(keys, E, v, u);
    assert u in Incoming(keys, E, v) <==> multiset(Incoming(keys, E, v))[u] > 0;
    if u in keys {
      assert v in E[u] <==> multiset(E[u])[v] > 0;
    }
  }

  /** One step of AppendSource: `u` joins the list of `vs[k]` once more. */
  lemma AppendSourceStep<N>(ET0: map<N, seq<N>>, ET: map<N, seq<N>>, u: N, vs: seq<N>, k: nat)
    requires k < |vs| && vs[k] in ET
    requires forall v :: v in ET ==> v in ET0 && ET[v] == ET0[v] + Copies(u, multiset(vs[..k])[v])
    ensures forall v :: v in ET[vs[k] := ET[vs[k]] + [u]] ==>
      ET[vs[k] := ET[vs[k]] + [u]][v] == ET0[v] + Copies(u, multiset(vs[..k + 1])[v])
  {
    assert vs[..k + 1] == vs[..k] + [vs[k]];
    var n := multiset(vs[..k])[vs[k]];
    assert Copies(u, n + 1) == Copies(u, n) + [u];
  }

  /** The inner loop of `transpose`: `u` appended to the list of every `v`
      in `vs`, once per occurrence. */
  method AppendSource<N>(ET0: map<N, seq<N>>, u: N, vs: seq<N>) returns (ET: map<N, seq<N>>)
    requires forall v :: v in vs ==> v in ET0
    ensures ET.Keys == ET0.Keys
    ensures forall v :: v in ET ==> ET[v] == ET0[v] + Copies(u, multiset(vs)[v])
  {
    ET := ET0;
    for k := 0 to |vs|
      invariant ET.Keys == ET0.Keys
      invariant forall v :: v in ET ==> ET[v] == ET0[v] + Copies(u, multiset(vs[..k])[v])
    {
      AppendSourceStep(ET0, ET, u, vs, k);
      ET := ET[vs[k] := ET[vs[k]] + [u]];
    }
    assert vs[..|vs|] == vs;
  }

  lemma IncomingSnoc<N>(keys: seq<N>, E: map<N, seq<N>>, v: N, i: nat)
    requires i < |keys|
    requires forall x :: x in keys ==> x in E
    ensures Incoming(keys[..i + 1], E, v)
         == Incoming(keys[..i], E, v) + Copies(keys[i], multiset(E[keys[i]])[v])
  {
    assert keys[..i + 1][..i] == keys[..i];
  }

  /** `transpose`: one empty list per node of V, then, for each key `u` in
      order and each `v` in `E[u]`, `u` appended to the list of `v`. */
  method Transpose<N(!new)>(G: Graph<N>) returns (ET: map<N, seq<N>>)
    requires TransposeReady(G)
    ensures forall v :: v in ET <==> v in G.V
    ensures forall v :: v in ET ==> ET[v] == Incoming(G.keys, G.E, v)
  {
    ET := map[];
    for i := 0 to |G.V|
      invariant forall v :: v in ET <==> v in G.V[..i]
      invariant forall v :: v in ET ==> ET[v] == []
    {
      ET := ET[G.V[i] := []];
    }
    assert G.V[..|G.V|] == G.V;
    for i := 0 to |G.keys|
      invariant forall v :: v in ET <==> v in G.V
      invariant forall v :: v in ET ==> ET[v] == Incoming(G.keys[..i], G.E, v)
    {
      ET := AppendSource(ET, G.keys[i], G.E[G.keys[i]]);
      forall v | v in ET
        ensures ET[v] == Incoming(G.keys[..i + 1], G.E, v)
      {
        IncomingSnoc(G.keys, G.E, v, i);
      }
    }
    assert G.keys[..|G.keys|] == G.keys;
  }

  /** Reverse lists name exactly the keys that have an edge into the node,
      each as often as that edge is listed. */
  lemma TransposeCounts<N(!new)>(G: Graph<N>, ET: map<N, seq<N>>, u: N, v: N)
    requires TransposeReady(G)
    requires v in ET && ET[v] == Incoming(G.keys, G.E, v)
    requires u in G.E
    ensures multiset(ET[v])[u] == multiset(G.E[u])[v]
    ensures u in ET[v] <==> v in G.E[u]
  {
    IncomingCount(G.keys, G.E, v, u);
    IncomingMember(G.keys, G.E, v, u);
  }

  /** Sum of the flows on the entries `(s, u)` for `u` in `outs`: the
      `sum(f[s][u]["flow"] for u in ...)` both solvers return. */
  function SourceFlow<N(==)>(f: map<(N, N), Entry>, s: N, outs: seq<N>): int
    requires forall u :: u in outs ==> (s, u) in f
  {
    if outs == [] then 0
    else SourceFlow(f, s, outs[..|outs| - 1]) + f[(s, outs[|outs| - 1])].flow
  }

  /** Sum of the capacities on the same entries. */
  function SourceCapacity<N(==)>(f: map<(N, N), Entry>, s: N, outs: seq<N>): int
    requires forall u :: u in outs ==> (s, u) in f
  {
    if outs == [] then 0
    else SourceCapacity(f, s, outs[..|outs| - 1]) + f[(s, outs[|outs| - 1])].capacity
  }

  /** Every listed source entry carries exactly its capacity. */
  ghost predicate Saturated<N>(f: map<(N, N), Entry>, s: N, outs: seq<N>)
    requires forall u :: u in outs ==> (s, u) in f
  {
    forall u :: u in outs ==> f[(s, u)].flow == f[(s, u)].capacity
  }

  /** When no listed source entry carries more than its capacity, the
      reported flow is at most the total source capacity, and reaches it
      exactly when every source entry is saturated. */
  lemma {:induction false} SaturatedIffFull<N>(f: map<(N, N), Entry>, s: N, outs: seq<N>)
    requires forall u :: u in outs ==> (s, u) in f
    requires forall u :: u in outs ==> f[(s, u)].flow <= f[(s, u)].capacity
    ensures SourceFlow(f, s, outs) <= SourceCapacity(f, s, outs)
    ensures SourceFlow(f, s, outs) == SourceCapacity(f, s, outs) <==> Saturated(f, s, outs)
  {
    if outs != [] {
      var init, u := outs[..|outs| - 1], outs[|outs| - 1];
      assert outs == init + [u];
      SaturatedIffFull(f, s, init);
      assert Saturated(f, s, outs) <==> Saturated(f, s, init) && f[(s, u)].flow == f[(s, u)].capacity;
    }
  }

  /** The for-else verdict of both schedulers: "possible" unless some
      source entry carries a flow other than its capacity. */
  method AllSaturated<N(==)>(f: map<(N, N), Entry>, s: N, outs: seq<N>) returns (possible: bool)
    requires forall u :: u in outs ==> (s, u) in f
    ensures possible <==> Saturated(f, s, outs)
  {
    for k := 0 to |outs|
      invariant forall j :: 0 <= j < k ==> f[(s, outs[j])].flow == f[(s, outs[j])].capacity
    {
      var e := f[(s, outs[k])];
      if e.flow != e.capacity {
        return false;
      }
    }
    return true;
  }
}
