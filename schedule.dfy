// What the two scheduling encoders share: the node names of their
// networks, Python dictionaries with their key order, Python's indexing
// and `zip`, and the graph `(V, E)` read off a capacity dictionary.

module Schedule {
  import opened FlowGraph

  /** The node names the encoders format: `s`, `t`, `"{i}_w"` (the demand
      of period `i`), `"{i}_s{j}_q{q}"` (worker `j` on slot `q`, J.py),
      `"{i}_q{q}"` (slot `q` of period `i`) and `"{i}_q{q}_"` (its carry
      node, JFF.py).  Distinct constructors are distinct names. */
  datatype Node =
    | Source
    | Sink
    | Period(i: int)
    | Worker(i: int, j: int, q: int)
    | Avail(i: int, q: int)
    | Carry(i: int, q: int)

  /** A Python dictionary: its entries, and its keys in first-insertion
      order, which is the order iteration sees. */
  datatype Dict<K, V> = Dict(keys: seq<K>, m: map<K, V>)

  ghost predicate Ordered<K(!new), V>(d: Dict<K, V>)
  {
    Distinct(d.keys) && forall k :: k in d.keys <==> k in d.m
  }

  /** `{k: v}`. */
  function Single<K(!new), V>(k: K, v: V): (r: Dict<K, V>)
    ensures Ordered(r) && r.m == map[k := v]
  {
    Dict([k], map[k := v])
  }

  /** `d[k] = v`: a new key goes to the end, an existing one keeps its
      place. */
  function Put<K(==, !new), V>(d: Dict<K, V>, k: K, v: V): (r: Dict<K, V>)
    ensures r.m == d.m[k := v]
    ensures Ordered(d) ==> Ordered(r)
    ensures k in d.m ==> r.keys == d.keys
  {
    if k in d.m then Dict(d.keys, d.m[k := v]) else Dict(d.keys + [k], d.m[k := v])
  }

  datatype Error =
    | EmptyRow(row: int)            // `d, *data = []`: ValueError
    | SlotOutOfRange(row: int, worker: int)   // `qq[q - 1]`: IndexError
    | MissingPrevious(row: int, worker: int)  // `c[v_]`: KeyError

  datatype Result<T> = Ok(value: T) | Err(error: Error)

  /** Python's `xs[k]`: a negative index counts from the end, and an index
      outside `-len(xs) .. len(xs) - 1` raises `IndexError`. */
  function PyIndex(xs: seq<int>, k: int): (r: Option<int>)
    ensures r.Some? <==> -|xs| <= k < |xs|
    ensures r.Some? && k >= 0 ==> r.value == xs[k]
    ensures r.Some? && k < 0 ==> r.value == xs[|xs| + k]
  {
    if 0 <= k < |xs| then Some(xs[k])
    else if -|xs| <= k < 0 then Some(xs[|xs| + k])
    else None
  }

  /** The capacity dictionary as a plain map of maps. */
  function Caps(c: Dict<Node, Dict<Node, int>>): map<Node, map<Node, int>>
  {
    map k | k in c.m :: c.m[k].m
  }

  /** `(V, E)` with `E = dict((k, list(c[k].keys())) for k in c)`. */
  function GraphOf(V: seq<Node>, c: Dict<Node, Dict<Node, int>>): Graph<Node>
  {
    Graph(V, c.keys, map k | k in c.m :: c.m[k].keys)
  }

  /** What both encoders leave behind: every dictionary keeps its key
      order, V lists exactly the keys of `c`, every row names only keys of
      `c`, and no row names the source. */
  ghost predicate Network(V: seq<Node>, c: Dict<Node, Dict<Node, int>>)
  {
    && Ordered(c)
    && (forall k :: k in c.m ==> Ordered(c.m[k]))
    && (forall x :: x in V <==> x in c.m)
    && (forall k, x :: k in c.m && x in c.m[k].m ==> x in c.m)
    && (forall k :: k in c.m ==> Source !in c.m[k].m)
  }

  /** Such a network is what both solvers' builders need. */
  lemma NetworkReady(V: seq<Node>, c: Dict<Node, Dict<Node, int>>)
    requires Network(V, c)
    ensures var G := GraphOf(V, c);
      && TransposeReady(G)
      && (forall u :: u in G.V <==> u in G.E)
      && (forall u, v :: u in G.E && v in G.E[u] ==> u in Caps(c) && v in Caps(c)[u])
  {
  }

  /** Nothing in such a network leads back into the source. */
  lemma NoEdgeIntoSource(V: seq<Node>, c: Dict<Node, Dict<Node, int>>, u: Node)
    requires Network(V, c)
    ensures var G := GraphOf(V, c); u in G.E ==> Source !in G.E[u]
  {
    if u in c.m {
      assert GraphOf(V, c).E[u] == c.m[u].keys;
      assert Ordered(c.m[u]);
    }
  }

  /** The number of pairs `zip(data, ss)` yields for a row `(d, *data)`. */
  function Width(row: seq<int>, ss: seq<int>): (n: nat)
    requires |row| >= 1
    ensures n <= |row| - 1 && n <= |ss|
    ensures n == |row| - 1 || n == |ss|
  {
    if |row| - 1 < |ss| then |row| - 1 else |ss|
  }

  /** The parsed input: the 1-based slot `ss[j]` of each worker `j`, the
      slot sizes `qq`, and a row `(d, a_0, a_1, ...)` per period: the
      period's demand and the availability of each worker. */
  datatype Input = Input(ss: seq<int>, qq: seq<int>, rows: seq<seq<int>>)

  /** The 0-based slot of worker `j`: J.py's `q - 1`, JFF.py's
      `s2q[j]` (JFF.py:51).  Both write it into node names and index `qq`
      with it. */
  function Slot(inp: Input, j: int): int
  {
    if 0 <= j < |inp.ss| then inp.ss[j] - 1 else 0
  }

  /** `qq[q]`, Python-indexed, where it exists. */
  function Size(inp: Input, q: int): int
  {
    var r := PyIndex(inp.qq, q);
    if r.Some? then r.value else 0
  }

  /** `d` of row `k`. */
  function Demand(inp: Input, k: int): int
  {
    if 0 <= k < |inp.rows| && |inp.rows[k]| >= 1 then inp.rows[k][0] else 0
  }

  /** `a` of worker `j` in row `k`. */
  function Amount(inp: Input, k: int, j: int): int
  {
    if 0 <= k < |inp.rows| && 0 <= j && j + 1 < |inp.rows[k]| then inp.rows[k][j + 1] else 0
  }

  /** The pairs `(k, j)` the loops visit before worker `jj` of row `i`:
      `zip(data, ss)` pairs worker `j` of row `k` when both lists reach
      it. */
  ghost function DoneSet(inp: Input, i: int, jj: int): set<(int, int)>
  {
    set k, j | 0 <= k < |inp.rows| && 0 <= j < |inp.ss| && j + 1 < |inp.rows[k]| && (k < i || (k == i && j < jj)) :: (k, j)
  }

  /** Row `k` has a worker on slot `q`. */
  ghost predicate RowUses(inp: Input, k: int, q: int)
  {
    exists j :: 0 <= k < |inp.rows| && 0 <= j < |inp.ss| && j + 1 < |inp.rows[k]| && Slot(inp, j) == q
  }

  /** Every count in the input is non-negative: slot sizes, demands and
      availabilities. */
  ghost predicate Counts(inp: Input)
  {
    && (forall q :: 0 <= q < |inp.qq| ==> inp.qq[q] >= 0)
    && (forall k, j :: 0 <= k < |inp.rows| && 0 <= j < |inp.rows[k]| ==> inp.rows[k][j] >= 0)
  }

  /** Some visited worker of row `k` is on slot `q`. */
  ghost predicate Used(inp: Input, D: set<(int, int)>, k: int, q: int)
  {
    exists j :: (k, j) in D && Slot(inp, j) == q
  }

  /** Worker `j` of period `k` raises no error in either encoder: its
      slot is an index of `qq` and, after the first period, a worker of the
      period before is on the same slot, so that `c[v_]` exists. */
  ghost predicate WorkerOk(inp: Input, k: int, j: int)
  {
    && PyIndex(inp.qq, Slot(inp, j)).Some?
    && (k > 0 ==> RowUses(inp, k - 1, Slot(inp, j)))
  }

  /** The first `n` workers of period `k` raise no error. */
  ghost predicate PrefixOk(inp: Input, k: int, n: int)
  {
    forall j :: 0 <= j < n ==> WorkerOk(inp, k, j)
  }

  lemma PrefixNext(inp: Input, k: int, n: int)
    requires PrefixOk(inp, k, n) && WorkerOk(inp, k, n)
    ensures PrefixOk(inp, k, n + 1)
  {
  }

  /** Every worker `zip(data, ss)` pairs in period `k` raises no error. */
  ghost predicate RowOk(inp: Input, k: int)
  {
    0 <= k < |inp.rows| && forall j :: 0 <= j < |inp.ss| && j + 1 < |inp.rows[k]| ==> WorkerOk(inp, k, j)
  }

  /** The inputs both encoders accept without an exception: no line is
      empty, and every worker of every period passes `WorkerOk`. */
  ghost predicate InputOk(inp: Input)
  {
    RowsOk(inp, |inp.rows|)
  }

  /** The first `n` lines are nonempty and raise no error. */
  ghost predicate RowsOk(inp: Input, n: int)
  {
    forall k :: 0 <= k < n && k < |inp.rows| ==> |inp.rows[k]| >= 1 && RowOk(inp, k)
  }

  lemma RowsNext(inp: Input, n: int)
    requires 0 <= n < |inp.rows| && RowsOk(inp, n) && |inp.rows[n]| >= 1 && RowOk(inp, n)
    ensures RowsOk(inp, n + 1)
  {
  }

  /** A line that is empty or raises an error spoils the whole input. */
  lemma RowsStop(inp: Input, n: int)
    requires 0 <= n < |inp.rows| && !(|inp.rows[n]| >= 1 && RowOk(inp, n))
    ensures !InputOk(inp)
  {
  }

  /** A failing worker spoils its line. */
  lemma RowStop(inp: Input, k: int, j: int)
    requires 0 <= k < |inp.rows| && 0 <= j < |inp.ss| && j + 1 < |inp.rows[k]| && !WorkerOk(inp, k, j)
    ensures !RowOk(inp, k)
  {
  }

  /** A line is fine once all the workers `zip` pairs in it are. */
  lemma RowDone(inp: Input, k: int)
    requires 0 <= k < |inp.rows| && |inp.rows[k]| >= 1 && PrefixOk(inp, k, Width(inp.rows[k], inp.ss))
    ensures RowOk(inp, k)
  {
  }

  lemma UsedAdd(inp: Input, D: set<(int, int)>, i: int, j: int, k: int, q: int)
    ensures Used(inp, D + {(i, j)}, k, q) <==> Used(inp, D, k, q) || (k == i && q == Slot(inp, j))
  {
    if k == i && q == Slot(inp, j) {
      assert (i, j) in D + {(i, j)};
    }
    if Used(inp, D + {(i, j)}, k, q) && !(k == i && q == Slot(inp, j)) {
      var j' :| (k, j') in D + {(i, j)} && Slot(inp, j') == q;
      assert (k, j') in D;
    }
  }

  /** With row `k` fully visited, a slot is used in it exactly when the
      row has a worker on that slot. */
  lemma UsedRow(inp: Input, i: int, jj: int, k: int, q: int)
    requires 0 <= k < i
    ensures Used(inp, DoneSet(inp, i, jj), k, q) <==> RowUses(inp, k, q)
  {
    if RowUses(inp, k, q) {
      var j :| 0 <= k < |inp.rows| && 0 <= j < |inp.ss| && j + 1 < |inp.rows[k]| && Slot(inp, j) == q;
      assert (k, j) in DoneSet(inp, i, jj);
    }
  }

  lemma DoneNext(inp: Input, i: int, jj: int)
    requires 0 <= i < |inp.rows| && 0 <= jj
    ensures jj < |inp.ss| && jj + 1 < |inp.rows[i]| ==> DoneSet(inp, i, jj + 1) == DoneSet(inp, i, jj) + {(i, jj)}
    ensures !(jj < |inp.ss| && jj + 1 < |inp.rows[i]|) ==> DoneSet(inp, i, jj) == DoneSet(inp, i + 1, 0)
  {
  }

  /** Every pair in `D` lies in the first `np` periods. */
  ghost predicate Before(D: set<(int, int)>, np: int)
  {
    forall p :: p in D ==> 0 <= p.0 < np
  }
}
