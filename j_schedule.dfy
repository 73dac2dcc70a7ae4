// The scheduling encoder of J.py (J.py:58-68) and its verdict
// (J.py:76-80): one source edge per worker and period, a node per slot and
// period, a demand node per period, and a carry edge from a slot in one
// period to each worker on that slot in the next.  J.py runs its own copy
// of `dinic`, whose levelling never writes a level (Dinic.LevelsJ), so the
// verdict it prints depends on the availabilities alone.

module JSchedule {
  import opened FlowGraph
  import opened Schedule
  import Dinic

  /** The keys of `c` once the pairs in `D` and the first `np` periods have
      been encoded. */
  ghost predicate IsKey(inp: Input, D: set<(int, int)>, np: int, x: Node)
  {
    match x
    case Source => true
    case Sink => true
    case Period(k) => 0 <= k < np
    case Worker(k, j, q) => (k, j) in D && q == Slot(inp, j)
    case Avail(k, q) => Used(inp, D, k, q)
    case Carry(_, _) => false
  }

  /** `c[s]`: an edge of capacity `a` to each visited worker's node. */
  ghost predicate SourceRow(inp: Input, D: set<(int, int)>, c: Dict<Node, Dict<Node, int>>)
  {
    && Source in c.m
    && (forall x :: x in c.m[Source].m <==> x.Worker? && (x.i, x.j) in D && x.q == Slot(inp, x.j))
    && (forall x :: x in c.m[Source].m && x.Worker? ==> c.m[Source].m[x] == Amount(inp, x.i, x.j))
  }

  /** `c[t] = {}`, `c[w] = {t: d}` and `c[u] = {v: qq[q]}`. */
  ghost predicate InnerRows(inp: Input, c: Dict<Node, Dict<Node, int>>)
  {
    && Sink in c.m && c.m[Sink].m == map[]
    && (forall x :: x in c.m && x.Period? ==> c.m[x].m == map[Sink := Demand(inp, x.i)])
    && (forall x :: x in c.m && x.Worker? ==> c.m[x].m == map[Avail(x.i, x.q) := Size(inp, x.q)])
  }

  /** `c[v]` for slot node `v = Avail(k, q)`: `{w: min(qq[q], d)}` plus a
      carry edge of capacity `qq[q]` to each encoded worker of period
      `k + 1` on slot `q`. */
  ghost predicate AvailRow(inp: Input, c: Dict<Node, Dict<Node, int>>, x: Node)
    requires x in c.m && x.Avail?
  {
    && (forall y :: y in c.m[x].m <==> y == Period(x.i) || (y.Worker? && y.i == x.i + 1 && y.q == x.q && y in c.m))
    && Period(x.i) in c.m[x].m
    && c.m[x].m[Period(x.i)] == Min(Size(inp, x.q), Demand(inp, x.i))
    && (forall y :: y in c.m[x].m && y.Worker? ==> c.m[x].m[y] == Size(inp, x.q))
  }

  /** The keys of `c` are those `IsKey` names. */
  ghost predicate KeysAre(inp: Input, D: set<(int, int)>, np: int, c: Dict<Node, Dict<Node, int>>)
  {
    forall x :: x in c.m <==> IsKey(inp, D, np, x)
  }

  ghost predicate AvailRows(inp: Input, c: Dict<Node, Dict<Node, int>>)
  {
    forall x :: x in c.m && x.Avail? ==> AvailRow(inp, c, x)
  }

  /** The encoder's state after the pairs `D` and the first `np` periods. */
  ghost predicate State(inp: Input, D: set<(int, int)>, np: int, V: seq<Node>, c: Dict<Node, Dict<Node, int>>)
  {
    && Before(D, np)
    && Network(V, c)
    && KeysAre(inp, D, np, c)
    && SourceRow(inp, D, c)
    && InnerRows(inp, c)
    && AvailRows(inp, c)
  }

  /** The rows after one worker step (J.py:64-68) that places worker `j`
      of period `i` on slot `q` with availability `a`, slot size `cap`
      and demand `d`: the source gains an edge to the worker node `u`,
      `c[u]` and `c[v]` are (re)assigned for the slot node `v`, and after
      the first period the previous period's slot node gains a carry edge
      to `u`. */
  ghost function Rows(c0: Dict<Node, Dict<Node, int>>, i: int, j: int, q: int, a: int, cap: int, d: int): map<Node, Dict<Node, int>>
    requires Source in c0.m
    requires i > 0 ==> Avail(i - 1, q) in c0.m
  {
    var u, v := Worker(i, j, q), Avail(i, q);
    var m := c0.m[Source := Put(c0.m[Source], u, a)][u := Single(v, cap)][v := Single(Period(i), Min(cap, d))];
    if i > 0 then m[Avail(i - 1, q) := Put(c0.m[Avail(i - 1, q)], u, cap)] else m
  }

  /** `Rows` with the values J.py reads from the input. */
  ghost function WorkerRows(inp: Input, i: int, j: int, c0: Dict<Node, Dict<Node, int>>): map<Node, Dict<Node, int>>
    requires Source in c0.m
    requires i > 0 ==> Avail(i - 1, Slot(inp, j)) in c0.m
  {
    var q := Slot(inp, j);
    Rows(c0, i, j, q, Amount(inp, i, j), Size(inp, q), Demand(inp, i))
  }

  /** The bounds on a worker step's indices. */
  ghost predicate StepIndex(inp: Input, i: int, j: int)
  {
    0 <= i < |inp.rows| && 0 <= j < |inp.ss| && j + 1 < |inp.rows[i]|
  }

  lemma StepKeys(inp: Input, D: set<(int, int)>, i: int, j: int, c0: Dict<Node, Dict<Node, int>>, c: Dict<Node, Dict<Node, int>>)
    requires Source in c0.m && (i > 0 ==> Avail(i - 1, Slot(inp, j)) in c0.m)
    requires KeysAre(inp, D, i + 1, c0)
    requires c.m == WorkerRows(inp, i, j, c0)
    ensures KeysAre(inp, D + {(i, j)}, i + 1, c)
  {
    forall x
      ensures x in c.m <==> IsKey(inp, D + {(i, j)}, i + 1, x)
    {
      if x.Avail? {
        UsedAdd(inp, D, i, j, x.i, x.q);
      }
    }
  }

  lemma StepSource(inp: Input, D: set<(int, int)>, i: int, j: int, c0: Dict<Node, Dict<Node, int>>, c: Dict<Node, Dict<Node, int>>)
    requires SourceRow(inp, D, c0) && (i > 0 ==> Avail(i - 1, Slot(inp, j)) in c0.m)
    requires c.m == WorkerRows(inp, i, j, c0)
    ensures SourceRow(inp, D + {(i, j)}, c)
  {
  }

  lemma StepInner(inp: Input, i: int, j: int, c0: Dict<Node, Dict<Node, int>>, c: Dict<Node, Dict<Node, int>>)
    requires Source in c0.m && (i > 0 ==> Avail(i - 1, Slot(inp, j)) in c0.m)
    requires InnerRows(inp, c0)
    requires c.m == WorkerRows(inp, i, j, c0)
    ensures InnerRows(inp, c)
  {
  }

  lemma StepAvail(inp: Input, i: int, j: int, c0: Dict<Node, Dict<Node, int>>, c: Dict<Node, Dict<Node, int>>, x: Node)
    requires Source in c0.m && (i > 0 ==> Avail(i - 1, Slot(inp, j)) in c0.m)
    requires AvailRows(inp, c0)
    requires c.m == WorkerRows(inp, i, j, c0)
    requires forall y :: y in c.m && y.Worker? ==> y.i <= i
    requires forall y :: y in c.m && y.Avail? ==> 0 <= y.i
    requires x in c.m && x.Avail?
    ensures AvailRow(inp, c, x)
  {
    var q := Slot(inp, j);
    var u, v := Worker(i, j, q), Avail(i, q);
    if x == v {
    } else if i > 0 && x == Avail(i - 1, q) {
      assert AvailRow(inp, c0, x);
    } else {
      assert AvailRow(inp, c0, x);
      assert c.m[x] == c0.m[x];
    }
  }

  lemma StepNetwork(inp: Input, i: int, j: int, V0: seq<Node>, c0: Dict<Node, Dict<Node, int>>, c: Dict<Node, Dict<Node, int>>)
    requires Network(V0, c0) && Source in c0.m && Period(i) in c0.m
    requires i > 0 ==> Avail(i - 1, Slot(inp, j)) in c0.m
    requires Ordered(c) && c.m == WorkerRows(inp, i, j, c0)
    ensures var q := Slot(inp, j); Network(V0 + [Worker(i, j, q)] + [Avail(i, q)], c)
  {
    var q := Slot(inp, j);
    var u, v := Worker(i, j, q), Avail(i, q);
    forall k | k in c.m
      ensures Ordered(c.m[k]) && Source !in c.m[k].m && forall x :: x in c.m[k].m ==> x in c.m
    {
      if k != Source && k != u && k != v && k != Avail(i - 1, q) {
        assert c.m[k] == c0.m[k];
      }
    }
  }

  lemma StepBounds(inp: Input, D: set<(int, int)>, i: int, j: int, c: Dict<Node, Dict<Node, int>>)
    requires 0 <= i && Before(D, i + 1)
    requires KeysAre(inp, D + {(i, j)}, i + 1, c)
    ensures forall y :: y in c.m && (y.Worker? || y.Avail?) ==> 0 <= y.i <= i
  {
    forall y | y in c.m && y.Avail?
      ensures 0 <= y.i <= i
    {
      var j' :| (y.i, j') in D + {(i, j)} && Slot(inp, j') == y.q;
    }
  }

  lemma StepPairs(D: set<(int, int)>, i: int, j: int)
    requires 0 <= i && Before(D, i + 1)
    ensures Before(D + {(i, j)}, i + 1)
  {
  }

  lemma StepAvailRows(inp: Input, D: set<(int, int)>, i: int, j: int, c0: Dict<Node, Dict<Node, int>>, c: Dict<Node, Dict<Node, int>>)
    requires 0 <= i && Before(D, i + 1)
    requires Source in c0.m && (i > 0 ==> Avail(i - 1, Slot(inp, j)) in c0.m)
    requires AvailRows(inp, c0)
    requires KeysAre(inp, D, i + 1, c0)
    requires c.m == WorkerRows(inp, i, j, c0)
    ensures AvailRows(inp, c)
  {
    StepKeys(inp, D, i, j, c0, c);
    StepBounds(inp, D, i, j, c);
    forall x | x in c.m && x.Avail?
      ensures AvailRow(inp, c, x)
    {
      StepAvail(inp, i, j, c0, c, x);
    }
  }

  /** A worker step keeps the encoder's state, with the pair `(i, j)`
      added. */
  lemma StepState(inp: Input, i: int, j: int, V0: seq<Node>, c0: Dict<Node, Dict<Node, int>>,
                  c: Dict<Node, Dict<Node, int>>)
    requires StepIndex(inp, i, j) && State(inp, DoneSet(inp, i, j), i + 1, V0, c0)
    requires i > 0 ==> Avail(i - 1, Slot(inp, j)) in c0.m
    requires Ordered(c) && c.m == WorkerRows(inp, i, j, c0)
    ensures var q := Slot(inp, j); State(inp, DoneSet(inp, i, j + 1), i + 1, V0 + [Worker(i, j, q)] + [Avail(i, q)], c)
  {
    var D := DoneSet(inp, i, j);
    DoneNext(inp, i, j);
    assert Period(i) in c0.m;
    StepPairs(D, i, j);
    StepKeys(inp, D, i, j, c0, c);
    StepSource(inp, D, i, j, c0, c);
    StepInner(inp, i, j, c0, c);
    StepAvailRows(inp, D, i, j, c0, c);
    StepNetwork(inp, i, j, V0, c0, c);
  }

  /** After the first period, `c[v_]` exists exactly when the previous
      period has a worker on the slot. */
  lemma PreviousSlot(inp: Input, i: int, j: int, c0: Dict<Node, Dict<Node, int>>)
    requires 0 < i && KeysAre(inp, DoneSet(inp, i, j), i + 1, c0)
    ensures Avail(i - 1, Slot(inp, j)) in c0.m <==> RowUses(inp, i - 1, Slot(inp, j))
  {
    UsedRow(inp, i, j, i - 1, Slot(inp, j));
    assert Avail(i - 1, Slot(inp, j)) in c0.m <==> IsKey(inp, DoneSet(inp, i, j), i + 1, Avail(i - 1, Slot(inp, j)));
  }

  /** The dictionary updates of one worker step (J.py:63-68), in J.py's
      order: `qq[q]` raises `IndexError` when `q` is not an index of
      `qq`, and `c[v_]` raises `KeyError` when the previous period has no
      node for slot `q`. */
  method Place(c0: Dict<Node, Dict<Node, int>>, i: int, j: int, q: int, a: int, qq: seq<int>, d: int)
    returns (r: Result<Dict<Node, Dict<Node, int>>>)
    requires Ordered(c0) && Source in c0.m && (forall x :: x in c0.m ==> Ordered(c0.m[x]))
    requires forall x :: x in c0.m && x.Avail? ==> 0 <= x.i
    ensures r.Err? && PyIndex(qq, q).None? ==> r.error == SlotOutOfRange(i, j)
    ensures r.Err? && PyIndex(qq, q).Some? ==> r.error == MissingPrevious(i, j)
    ensures r.Ok? <==> PyIndex(qq, q).Some? && (i > 0 ==> Avail(i - 1, q) in c0.m)
    ensures r.Ok? ==> Ordered(r.value) && r.value.m == Rows(c0, i, j, q, a, PyIndex(qq, q).value, d)
  {
    var u, v, w := Worker(i, j, q), Avail(i, q), Period(i);
    var c := Put(c0, Source, Put(c0.m[Source], u, a));
    var cap := PyIndex(qq, q);
    if cap.None? {
      return Err(SlotOutOfRange(i, j));
    }
    c := Put(c, u, Single(v, cap.value));
    c := Put(c, v, Single(w, Min(cap.value, d)));
    if i > 0 {
      var v' := Avail(i - 1, q);
      if v' !in c.m {
        return Err(MissingPrevious(i, j));
      }
      assert c.m[v'] == c0.m[v'];
      c := Put(c, v', Put(c.m[v'], u, cap.value));
    }
    return Ok(c);
  }

  /** One worker of one period (J.py:63-68).  It fails exactly when the
      worker's slot is not an index of `qq` or, after the first period,
      when no worker of the previous period used that slot. */
  method EncodeWorker(inp: Input, i: int, j: int, V0: seq<Node>, c0: Dict<Node, Dict<Node, int>>)
    returns (r: Result<(seq<Node>, Dict<Node, Dict<Node, int>>)>)
    requires StepIndex(inp, i, j)
    requires State(inp, DoneSet(inp, i, j), i + 1, V0, c0)
    ensures r.Ok? <==> WorkerOk(inp, i, j)
    ensures r.Ok? ==> State(inp, DoneSet(inp, i, j + 1), i + 1, r.value.0, r.value.1)
  {
    var q := Slot(inp, j);
    var V := V0 + [Worker(i, j, q)] + [Avail(i, q)];
    if i > 0 {
      PreviousSlot(inp, i, j, c0);
    }
    var placed := Place(c0, i, j, q, Amount(inp, i, j), inp.qq, Demand(inp, i));
    if placed.Err? {
      return Err(placed.error);
    }
    var c := placed.value;
    StepState(inp, i, j, V0, c0, c);
    return Ok((V, c));
  }

  lemma PeriodKeys(inp: Input, D: set<(int, int)>, i: int, c0: Dict<Node, Dict<Node, int>>, c: Dict<Node, Dict<Node, int>>)
    requires 0 <= i && KeysAre(inp, D, i, c0) && Before(D, i)
    requires c.m == c0.m[Period(i) := Single(Sink, Demand(inp, i))]
    ensures KeysAre(inp, D, i + 1, c) && Before(D, i + 1)
  {
    forall x
      ensures x in c.m <==> IsKey(inp, D, i + 1, x)
    {
      assert x in c0.m <==> IsKey(inp, D, i, x);
      if !x.Period? {
        assert IsKey(inp, D, i + 1, x) == IsKey(inp, D, i, x);
      }
    }
  }

  lemma PeriodAvail(inp: Input, i: int, c0: Dict<Node, Dict<Node, int>>, c: Dict<Node, Dict<Node, int>>)
    requires AvailRows(inp, c0)
    requires c.m == c0.m[Period(i) := Single(Sink, Demand(inp, i))]
    ensures AvailRows(inp, c)
  {
    forall x | x in c.m && x.Avail?
      ensures AvailRow(inp, c, x)
    {
      assert AvailRow(inp, c0, x);
      assert c.m[x] == c0.m[x];
    }
  }

  lemma PeriodNetwork(V0: seq<Node>, i: int, d: int, c0: Dict<Node, Dict<Node, int>>, c: Dict<Node, Dict<Node, int>>)
    requires Network(V0, c0) && Sink in c0.m
    requires Ordered(c) && c.m == c0.m[Period(i) := Single(Sink, d)]
    ensures Network(V0 + [Period(i)], c)
  {
    forall k | k in c.m
      ensures Ordered(c.m[k]) && Source !in c.m[k].m && forall x :: x in c.m[k].m ==> x in c.m
    {
      if k != Period(i) {
        assert c.m[k] == c0.m[k];
      }
    }
  }

  /** `w = "{i}_w"; V.append(w); c[w] = {t: d}` (J.py:62) moves the state
      on to the next period. */
  lemma PeriodState(inp: Input, D: set<(int, int)>, i: int, V0: seq<Node>, c0: Dict<Node, Dict<Node, int>>,
                    c: Dict<Node, Dict<Node, int>>)
    requires 0 <= i < |inp.rows| && |inp.rows[i]| >= 1 && State(inp, D, i, V0, c0)
    requires Ordered(c) && c.m == c0.m[Period(i) := Single(Sink, Demand(inp, i))]
    ensures State(inp, D, i + 1, V0 + [Period(i)], c)
  {
    PeriodKeys(inp, D, i, c0, c);
    PeriodAvail(inp, i, c0, c);
    PeriodNetwork(V0, i, Demand(inp, i), c0, c);
  }

  /** `V, c = [s, t], {s: {}, t: {}}` (J.py:58) is the state before any
      period. */
  lemma InitialState(inp: Input, c: Dict<Node, Dict<Node, int>>)
    requires c == Dict([Source, Sink], map[Source := Dict([], map[]), Sink := Dict([], map[])])
    ensures State(inp, DoneSet(inp, 0, 0), 0, [Source, Sink], c)
  {
    var D := DoneSet(inp, 0, 0);
    assert D == {};
    assert Network([Source, Sink], c);
    assert KeysAre(inp, D, 0, c);
    InitialRows(inp, c);
  }

  lemma InitialRows(inp: Input, c: Dict<Node, Dict<Node, int>>)
    requires c == Dict([Source, Sink], map[Source := Dict([], map[]), Sink := Dict([], map[])])
    ensures SourceRow(inp, {}, c) && InnerRows(inp, c) && AvailRows(inp, c)
  {
  }

  /** One period: its demand node, then its workers in order (J.py:62-68).
      It fails exactly when one of the period's workers fails
      `WorkerOk`. */
  method EncodeRow(inp: Input, i: int, V0: seq<Node>, c0: Dict<Node, Dict<Node, int>>)
    returns (r: Result<(seq<Node>, Dict<Node, Dict<Node, int>>)>)
    requires 0 <= i < |inp.rows| && |inp.rows[i]| >= 1
    requires State(inp, DoneSet(inp, i, 0), i, V0, c0)
    ensures r.Ok? <==> RowOk(inp, i)
    ensures r.Ok? ==> State(inp, DoneSet(inp, i + 1, 0), i + 1, r.value.0, r.value.1)
  {
    var w := Period(i);
    var V := V0 + [w];
    var c := Put(c0, w, Single(Sink, inp.rows[i][0]));
    PeriodState(inp, DoneSet(inp, i, 0), i, V0, c0, c);
    for j := 0 to Width(inp.rows[i], inp.ss)
      invariant State(inp, DoneSet(inp, i, j), i + 1, V, c)
      invariant PrefixOk(inp, i, j)
    {
      var placed := EncodeWorker(inp, i, j, V, c);
      if placed.Err? {
        RowStop(inp, i, j);
        return Err(placed.error);
      }
      PrefixNext(inp, i, j);
      V, c := placed.value.0, placed.value.1;
    }
    DoneNext(inp, i, Width(inp.rows[i], inp.ss));
    RowDone(inp, i);
    return Ok((V, c));
  }

  /** The whole encoder (J.py:58-68): `V = [s, t]`, `c = {s: {}, t: {}}`,
      then one period per input line.  It fails exactly when the input is
      not `InputOk`, and otherwise leaves the network `State` describes
      with every worker of every period placed. */
  method Encode(inp: Input) returns (r: Result<(seq<Node>, Dict<Node, Dict<Node, int>>)>)
    ensures r.Ok? <==> InputOk(inp)
    ensures r.Ok? ==> State(inp, DoneSet(inp, |inp.rows|, 0), |inp.rows|, r.value.0, r.value.1)
  {
    var V := [Source, Sink];
    var c := Dict([Source, Sink], map[Source := Dict([], map[]), Sink := Dict([], map[])]);
    InitialState(inp, c);
    for i := 0 to |inp.rows|
      invariant State(inp, DoneSet(inp, i, 0), i, V, c)
      invariant RowsOk(inp, i)
    {
      if |inp.rows[i]| == 0 {
        RowsStop(inp, i);
        return Err(EmptyRow(i));
      }
      var placed := EncodeRow(inp, i, V, c);
      if placed.Err? {
        RowsStop(inp, i);
        return Err(placed.error);
      }
      RowsNext(inp, i);
      V, c := placed.value.0, placed.value.1;
    }
    return Ok((V, c));
  }

  /** Every availability J.py encodes is zero. */
  ghost predicate AllIdle(inp: Input)
  {
    forall p :: p in DoneSet(inp, |inp.rows|, 0) ==> Amount(inp, p.0, p.1) == 0
  }

  /** On the network the encoder builds, with the flow J.py's `dinic`
      leaves (every entry as the builder made it), the source entries are
      all saturated exactly when every availability is zero: each carries
      flow 0 against capacity `a`. */
  lemma VerdictJ(inp: Input, V: seq<Node>, c: Dict<Node, Dict<Node, int>>, nbrs: map<Node, seq<Node>>, f: map<(Node, Node), Entry>)
    requires State(inp, DoneSet(inp, |inp.rows|, 0), |inp.rows|, V, c)
    requires Dinic.BuilderReady(GraphOf(V, c), Caps(c))
    requires Source in nbrs && forall e :: e in f <==> e.0 in nbrs && e.1 in nbrs[e.0]
    requires forall e :: e in f <==> Dinic.Forward(GraphOf(V, c), e) || Dinic.Forward(GraphOf(V, c), (e.1, e.0))
    requires forall e :: e in f ==> f[e] == Dinic.Initial(GraphOf(V, c), Caps(c), e)
    ensures Saturated(f, Source, nbrs[Source]) <==> AllIdle(inp)
  {
    var D := DoneSet(inp, |inp.rows|, 0);
    var G := GraphOf(V, c);
    assert Ordered(c.m[Source]);
    forall u | u in nbrs[Source]
      ensures u in c.m[Source].m && f[(Source, u)] == Entry(Amount(inp, u.i, u.j), 0)
    {
      assert (Source, u) in f;
      NoEdgeIntoSource(V, c, u);
      assert Dinic.Forward(G, (Source, u));
    }
    if Saturated(f, Source, nbrs[Source]) {
      forall p | p in D
        ensures Amount(inp, p.0, p.1) == 0
      {
        var u := Worker(p.0, p.1, Slot(inp, p.1));
        assert u in c.m[Source].m;
        assert Dinic.Forward(G, (Source, u));
        assert (Source, u) in f;
      }
    }
  }

  /** The verdict of J.py (J.py:73-80): encode, run its `dinic`, and answer
      "possible" exactly when every source entry is saturated.  The
      encoder's errors come back as they are; otherwise the answer is
      "possible" exactly when every availability is zero, whatever the
      demands and slot sizes, since J.py's levelling never lets a pass
      push flow. */
  method FeasibleJ(inp: Input) returns (r: Result<bool>)
    ensures r.Ok? <==> InputOk(inp)
    ensures r.Ok? ==> (r.value <==> AllIdle(inp))
  {
    var encoded := Encode(inp);
    if encoded.Err? {
      return Err(encoded.error);
    }
    var V, c := encoded.value.0, encoded.value.1;
    NetworkReady(V, c);
    var G := GraphOf(V, c);
    var g, outcome, total := Dinic.RunJ(G, Source, Sink, Caps(c));
    assert Source in g.nbrs;
    var possible := AllSaturated(g.f, Source, g.nbrs[Source]);
    VerdictJ(inp, V, c, g.nbrs, g.f);
    return Ok(possible);
  }
}
