// The scheduling encoder of JFF.py (JFF.py:54-67) and its verdict
// (JFF.py:71-79): one source edge per slot and period carrying the sum of
// the availabilities of the workers on that slot, a slot node and a carry
// node per slot and period, a demand node per period, and a carry edge
// from a slot's carry node in one period to the same slot in the next.
// JFF.py solves the network with its copy of `ford_fulkerson`.

module JffSchedule {
  import opened FlowGraph
  import opened Schedule
  import FordFulkerson
  import opened Augmentation

  /** The sum of `a` over the workers `j < n` of period `k` that are on
      slot `q` and that `zip(data, s2q)` pairs. */
  function Total(inp: Input, k: int, q: int, n: nat): int
  {
    if n == 0 then 0
    else Total(inp, k, q, n - 1) + (if n - 1 < |inp.ss| && Slot(inp, n - 1) == q then Amount(inp, k, n - 1) else 0)
  }

  /** `c[s]["{k}_q{q}"]` once the pairs before worker `jj` of period `i`
      are placed: the whole period's sum before `i`, the first `jj`
      workers' sum in period `i`, nothing after. */
  function Accum(inp: Input, i: int, jj: int, k: int, q: int): int
  {
    Total(inp, k, q, if k < i then |inp.ss| else if k == i && jj >= 0 then jj else 0)
  }

  /** Past the last worker `zip` pairs, the sum stops growing. */
  lemma {:induction false} TotalPast(inp: Input, k: int, q: int, n: nat)
    requires 0 <= k < |inp.rows| && |inp.rows[k]| >= 1 && n >= Width(inp.rows[k], inp.ss)
    ensures Total(inp, k, q, n) == Total(inp, k, q, Width(inp.rows[k], inp.ss))
  {
    if n > Width(inp.rows[k], inp.ss) {
      TotalPast(inp, k, q, n - 1);
    }
  }

  /** A slot no placed worker of the period uses has sum 0. */
  lemma {:induction false} TotalUnused(inp: Input, i: int, jj: nat, q: int)
    requires 0 <= i < |inp.rows| && !Used(inp, DoneSet(inp, i, jj), i, q)
    ensures Total(inp, i, q, jj) == 0
  {
    if jj > 0 {
      if Used(inp, DoneSet(inp, i, jj - 1), i, q) {
        var j :| (i, j) in DoneSet(inp, i, jj - 1) && Slot(inp, j) == q;
        assert (i, j) in DoneSet(inp, i, jj);
      }
      if jj - 1 < |inp.ss| && jj < |inp.rows[i]| && Slot(inp, jj - 1) == q {
        assert (i, jj - 1) in DoneSet(inp, i, jj);
      }
      TotalUnused(inp, i, jj - 1, q);
    }
  }

  /** The keys of `c` once the pairs `D` and the first `np` periods have
      been encoded: a slot node `"{k}_q{q}"` and its carry node
      `"{k}_q{q}_"` for each slot a placed worker of period `k` is on. */
  ghost predicate IsKey(inp: Input, D: set<(int, int)>, np: int, x: Node)
  {
    match x
    case Source => true
    case Sink => true
    case Period(k) => 0 <= k < np
    case Worker(_, _, _) => false
    case Avail(k, q) => Used(inp, D, k, q)
    case Carry(k, q) => Used(inp, D, k, q)
  }

  ghost predicate KeysAre(inp: Input, D: set<(int, int)>, np: int, c: Dict<Node, Dict<Node, int>>)
  {
    forall x :: x in c.m <==> IsKey(inp, D, np, x)
  }

  /** `c[s]`: one edge per slot node, carrying the availabilities summed
      so far. */
  ghost predicate SourceRow(inp: Input, i: int, jj: int, c: Dict<Node, Dict<Node, int>>)
  {
    && Source in c.m
    && (forall x :: x in c.m[Source].m <==> x.Avail? && Used(inp, DoneSet(inp, i, jj), x.i, x.q))
    && (forall x :: x in c.m[Source].m && x.Avail? ==> c.m[Source].m[x] == Accum(inp, i, jj, x.i, x.q))
  }

  /** `c[t] = {}`, `c[w] = {t: d}` and `c[u] = {v: qsz[q]}`. */
  ghost predicate InnerRows(inp: Input, c: Dict<Node, Dict<Node, int>>)
  {
    && Sink in c.m && c.m[Sink].m == map[]
    && (forall x :: x in c.m && x.Period? ==> c.m[x].m == map[Sink := Demand(inp, x.i)])
    && (forall x :: x in c.m && x.Avail? ==> c.m[x].m == map[Carry(x.i, x.q) := Size(inp, x.q)])
  }

  /** `c[v]` for carry node `v = Carry(k, q)`: `{w: min(qsz[q], d)}` plus
      an edge of capacity `qsz[q]` to the same slot of period `k + 1` once
      that exists. */
  ghost predicate CarryRow(inp: Input, c: Dict<Node, Dict<Node, int>>, x: Node)
    requires x in c.m && x.Carry?
  {
    && (forall y :: y in c.m[x].m <==> y == Period(x.i) || (y == Avail(x.i + 1, x.q) && y in c.m))
    && Period(x.i) in c.m[x].m
    && c.m[x].m[Period(x.i)] == Min(Size(inp, x.q), Demand(inp, x.i))
    && (Avail(x.i + 1, x.q) in c.m[x].m ==> c.m[x].m[Avail(x.i + 1, x.q)] == Size(inp, x.q))
  }

  ghost predicate CarryRows(inp: Input, c: Dict<Node, Dict<Node, int>>)
  {
    forall x :: x in c.m && x.Carry? ==> CarryRow(inp, c, x)
  }

  /** The encoder's state before worker `jj` of period `i`, with the first
      `np` periods' demand nodes in place. */
  ghost predicate State(inp: Input, i: int, jj: int, np: int, V: seq<Node>, c: Dict<Node, Dict<Node, int>>)
  {
    && Before(DoneSet(inp, i, jj), np)
    && Network(V, c)
    && KeysAre(inp, DoneSet(inp, i, jj), np, c)
    && SourceRow(inp, i, jj, c)
    && InnerRows(inp, c)
    && CarryRows(inp, c)
  }

  /** The rows after one worker step (JFF.py:62-66) that adds
      availability `a` for period `i` on slot `q`, with slot size `cap`
      and demand `d`: the source edge to the slot node `u` grows by `a`
      (starting from 0), `c[u]` and `c[v]` are (re)assigned for the carry
      node `v`, and after the first period the previous period's carry
      node gains an edge to `u`. */
  ghost function Rows(c0: Dict<Node, Dict<Node, int>>, i: int, q: int, a: int, cap: int, d: int): map<Node, Dict<Node, int>>
    requires Source in c0.m
    requires i > 0 ==> Carry(i - 1, q) in c0.m
  {
    var u, v := Avail(i, q), Carry(i, q);
    var src := c0.m[Source];
    var m := c0.m[Source := Put(src, u, (if u in src.m then src.m[u] else 0) + a)]
                 [u := Single(v, cap)]
                 [v := Single(Period(i), Min(cap, d))];
    if i > 0 then m[Carry(i - 1, q) := Put(c0.m[Carry(i - 1, q)], u, cap)] else m
  }

  /** `Rows` with the values JFF.py reads from the input. */
  ghost function WorkerRows(inp: Input, i: int, j: int, c0: Dict<Node, Dict<Node, int>>): map<Node, Dict<Node, int>>
    requires Source in c0.m
    requires i > 0 ==> Carry(i - 1, Slot(inp, j)) in c0.m
  {
    var q := Slot(inp, j);
    Rows(c0, i, q, Amount(inp, i, j), Size(inp, q), Demand(inp, i))
  }

  /** The bounds on a worker step's indices. */
  ghost predicate StepIndex(inp: Input, i: int, j: int)
  {
    0 <= i < |inp.rows| && 0 <= j < |inp.ss| && j + 1 < |inp.rows[i]|
  }

  lemma StepKeys(inp: Input, D: set<(int, int)>, i: int, j: int, c0: Dict<Node, Dict<Node, int>>, c: Dict<Node, Dict<Node, int>>)
    requires Source in c0.m && (i > 0 ==> Carry(i - 1, Slot(inp, j)) in c0.m)
    requires KeysAre(inp, D, i + 1, c0)
    requires c.m == WorkerRows(inp, i, j, c0)
    ensures KeysAre(inp, D + {(i, j)}, i + 1, c)
  {
    forall x
      ensures x in c.m <==> IsKey(inp, D + {(i, j)}, i + 1, x)
    {
      if x.Avail? || x.Carry? {
        UsedAdd(inp, D, i, j, x.i, x.q);
      }
    }
  }

  /** Placing worker `jj` of period `i` on slot `q` adds its
      availability to that slot's sum and to no other. */
  lemma AccumNext(inp: Input, i: int, jj: int, k: int, q: int)
    requires StepIndex(inp, i, jj)
    ensures Accum(inp, i, jj + 1, k, q) == Accum(inp, i, jj, k, q) + (if k == i && q == Slot(inp, jj) then Amount(inp, i, jj) else 0)
  {
  }

  lemma SourceKeys(inp: Input, i: int, jj: int, src0: Dict<Node, int>, src: Dict<Node, int>)
    requires StepIndex(inp, i, jj)
    requires forall x :: x in src0.m <==> x.Avail? && Used(inp, DoneSet(inp, i, jj), x.i, x.q)
    requires src.m.Keys == src0.m.Keys + {Avail(i, Slot(inp, jj))}
    ensures forall x :: x in src.m <==> x.Avail? && Used(inp, DoneSet(inp, i, jj + 1), x.i, x.q)
  {
    DoneNext(inp, i, jj);
    forall x
      ensures x in src.m <==> x.Avail? && Used(inp, DoneSet(inp, i, jj + 1), x.i, x.q)
    {
      if x.Avail? {
        UsedAdd(inp, DoneSet(inp, i, jj), i, jj, x.i, x.q);
      }
    }
  }

  lemma SourceValues(inp: Input, i: int, jj: int, src0: Dict<Node, int>, src: Dict<Node, int>)
    requires StepIndex(inp, i, jj)
    requires forall x :: x in src0.m <==> x.Avail? && Used(inp, DoneSet(inp, i, jj), x.i, x.q)
    requires forall x :: x in src0.m && x.Avail? ==> src0.m[x] == Accum(inp, i, jj, x.i, x.q)
    requires var u := Avail(i, Slot(inp, jj));
      src.m == src0.m[u := (if u in src0.m then src0.m[u] else 0) + Amount(inp, i, jj)]
    ensures forall x :: x in src.m && x.Avail? ==> src.m[x] == Accum(inp, i, jj + 1, x.i, x.q)
  {
    var q := Slot(inp, jj);
    var u := Avail(i, q);
    if u !in src0.m {
      TotalUnused(inp, i, jj, q);
    }
    forall x | x in src.m && x.Avail?
      ensures src.m[x] == Accum(inp, i, jj + 1, x.i, x.q)
    {
      AccumNext(inp, i, jj, x.i, x.q);
    }
  }

  lemma StepSource(inp: Input, i: int, jj: int, c0: Dict<Node, Dict<Node, int>>, c: Dict<Node, Dict<Node, int>>)
    requires StepIndex(inp, i, jj) && SourceRow(inp, i, jj, c0)
    requires i > 0 ==> Carry(i - 1, Slot(inp, jj)) in c0.m
    requires c.m == WorkerRows(inp, i, jj, c0)
    ensures SourceRow(inp, i, jj + 1, c)
  {
    SourceKeys(inp, i, jj, c0.m[Source], c.m[Source]);
    SourceValues(inp, i, jj, c0.m[Source], c.m[Source]);
  }

  lemma StepInner(inp: Input, i: int, j: int, c0: Dict<Node, Dict<Node, int>>, c: Dict<Node, Dict<Node, int>>)
    requires Source in c0.m && (i > 0 ==> Carry(i - 1, Slot(inp, j)) in c0.m)
    requires InnerRows(inp, c0)
    requires c.m == WorkerRows(inp, i, j, c0)
    ensures InnerRows(inp, c)
  {
  }

  lemma StepBounds(inp: Input, D: set<(int, int)>, i: int, j: int, c: Dict<Node, Dict<Node, int>>)
    requires 0 <= i && Before(D, i + 1)
    requires KeysAre(inp, D + {(i, j)}, i + 1, c)
    ensures forall y :: y in c.m && (y.Avail? || y.Carry?) ==> 0 <= y.i <= i
  {
    forall y | y in c.m && (y.Avail? || y.Carry?)
      ensures 0 <= y.i <= i
    {
      var j' :| (y.i, j') in D + {(i, j)} && Slot(inp, j') == y.q;
    }
  }

  lemma StepCarry(inp: Input, i: int, j: int, c0: Dict<Node, Dict<Node, int>>, c: Dict<Node, Dict<Node, int>>, x: Node)
    requires Source in c0.m && (i > 0 ==> Carry(i - 1, Slot(inp, j)) in c0.m)
    requires CarryRows(inp, c0)
    requires c.m == WorkerRows(inp, i, j, c0)
    requires forall y :: y in c.m && (y.Avail? || y.Carry?) ==> 0 <= y.i <= i
    requires x in c.m && x.Carry?
    ensures CarryRow(inp, c, x)
  {
    var q := Slot(inp, j);
    var u, v := Avail(i, q), Carry(i, q);
    if x == v {
    } else if i > 0 && x == Carry(i - 1, q) {
      assert CarryRow(inp, c0, x);
    } else {
      assert CarryRow(inp, c0, x);
      assert c.m[x] == c0.m[x];
    }
  }

  lemma StepCarryRows(inp: Input, D: set<(int, int)>, i: int, j: int, c0: Dict<Node, Dict<Node, int>>, c: Dict<Node, Dict<Node, int>>)
    requires 0 <= i && Before(D, i + 1)
    requires Source in c0.m && (i > 0 ==> Carry(i - 1, Slot(inp, j)) in c0.m)
    requires CarryRows(inp, c0)
    requires KeysAre(inp, D, i + 1, c0)
    requires c.m == WorkerRows(inp, i, j, c0)
    ensures CarryRows(inp, c)
  {
    StepKeys(inp, D, i, j, c0, c);
    StepBounds(inp, D, i, j, c);
    forall x | x in c.m && x.Carry?
      ensures CarryRow(inp, c, x)
    {
      StepCarry(inp, i, j, c0, c, x);
    }
  }

  lemma StepNetwork(inp: Input, i: int, j: int, V0: seq<Node>, c0: Dict<Node, Dict<Node, int>>, c: Dict<Node, Dict<Node, int>>)
    requires Network(V0, c0) && Source in c0.m && Period(i) in c0.m
    requires i > 0 ==> Carry(i - 1, Slot(inp, j)) in c0.m
    requires Ordered(c) && c.m == WorkerRows(inp, i, j, c0)
    ensures var q := Slot(inp, j); Network(V0 + [Avail(i, q), Carry(i, q)], c)
  {
    var q := Slot(inp, j);
    var u, v := Avail(i, q), Carry(i, q);
    forall k | k in c.m
      ensures Ordered(c.m[k]) && Source !in c.m[k].m && forall x :: x in c.m[k].m ==> x in c.m
    {
      if k != Source && k != u && k != v && k != Carry(i - 1, q) {
        assert c.m[k] == c0.m[k];
      }
    }
  }

  lemma StepPairs(D: set<(int, int)>, i: int, j: int)
    requires 0 <= i && Before(D, i + 1)
    ensures Before(D + {(i, j)}, i + 1)
  {
  }

  /** A worker step keeps the encoder's state, one worker further on. */
  lemma StepState(inp: Input, i: int, j: int, V0: seq<Node>, c0: Dict<Node, Dict<Node, int>>, c: Dict<Node, Dict<Node, int>>)
    requires StepIndex(inp, i, j) && State(inp, i, j, i + 1, V0, c0)
    requires i > 0 ==> Carry(i - 1, Slot(inp, j)) in c0.m
    requires Ordered(c) && c.m == WorkerRows(inp, i, j, c0)
    ensures var q := Slot(inp, j); State(inp, i, j + 1, i + 1, V0 + [Avail(i, q), Carry(i, q)], c)
  {
    var D := DoneSet(inp, i, j);
    DoneNext(inp, i, j);
    assert Period(i) in c0.m;
    StepPairs(D, i, j);
    StepKeys(inp, D, i, j, c0, c);
    StepSource(inp, i, j, c0, c);
    StepInner(inp, i, j, c0, c);
    StepCarryRows(inp, D, i, j, c0, c);
    StepNetwork(inp, i, j, V0, c0, c);
  }

  /** After the first period, `c[v_]` exists exactly when the previous
      period has a worker on the slot. */
  lemma PreviousSlot(inp: Input, i: int, j: int, c0: Dict<Node, Dict<Node, int>>)
    requires 0 < i && KeysAre(inp, DoneSet(inp, i, j), i + 1, c0)
    ensures Carry(i - 1, Slot(inp, j)) in c0.m <==> RowUses(inp, i - 1, Slot(inp, j))
  {
    UsedRow(inp, i, j, i - 1, Slot(inp, j));
    assert Carry(i - 1, Slot(inp, j)) in c0.m <==> IsKey(inp, DoneSet(inp, i, j), i + 1, Carry(i - 1, Slot(inp, j)));
  }

  /** The dictionary updates of one worker step (JFF.py:63-66), in
      JFF.py's order: `c[s].setdefault(u, 0); c[s][u] += a`, then
      `qsz[q]` raises `IndexError` when `q` is not an index of `qsz`, and
      `c[v_]` raises `KeyError` when the previous period has no carry node
      for slot `q`. */
  method Place(c0: Dict<Node, Dict<Node, int>>, i: int, j: int, q: int, a: int, qsz: seq<int>, d: int)
    returns (r: Result<Dict<Node, Dict<Node, int>>>)
    requires Ordered(c0) && Source in c0.m && (forall x :: x in c0.m ==> Ordered(c0.m[x]))
    requires forall x :: x in c0.m && x.Carry? ==> 0 <= x.i
    ensures r.Err? && PyIndex(qsz, q).None? ==> r.error == SlotOutOfRange(i, j)
    ensures r.Err? && PyIndex(qsz, q).Some? ==> r.error == MissingPrevious(i, j)
    ensures r.Ok? <==> PyIndex(qsz, q).Some? && (i > 0 ==> Carry(i - 1, q) in c0.m)
    ensures r.Ok? ==> Ordered(r.value) && r.value.m == Rows(c0, i, q, a, PyIndex(qsz, q).value, d)
  {
    var u, v, w := Avail(i, q), Carry(i, q), Period(i);
    var src := c0.m[Source];
    ghost var before := if u in src.m then src.m[u] else 0;
    if u !in src.m {
      src := Put(src, u, 0);
    }
    src := Put(src, u, src.m[u] + a);
    assert src == Put(c0.m[Source], u, before + a);
    var c := Put(c0, Source, src);
    var cap := PyIndex(qsz, q);
    if cap.None? {
      return Err(SlotOutOfRange(i, j));
    }
    c := Put(c, u, Single(v, cap.value));
    c := Put(c, v, Single(w, Min(cap.value, d)));
    if i > 0 {
      var v' := Carry(i - 1, q);
      if v' !in c.m {
        return Err(MissingPrevious(i, j));
      }
      assert c.m[v'] == c0.m[v'];
      c := Put(c, v', Put(c.m[v'], u, cap.value));
    }
    return Ok(c);
  }

  /** One worker of one period (JFF.py:61-67).  It fails exactly when the
      worker's slot is not an index of `qsz` or, after the first period,
      when no worker of the previous period used that slot. */
  method EncodeWorker(inp: Input, i: int, j: int, V0: seq<Node>, c0: Dict<Node, Dict<Node, int>>)
    returns (r: Result<(seq<Node>, Dict<Node, Dict<Node, int>>)>)
    requires StepIndex(inp, i, j)
    requires State(inp, i, j, i + 1, V0, c0)
    ensures r.Ok? <==> WorkerOk(inp, i, j)
    ensures r.Ok? ==> State(inp, i, j + 1, i + 1, r.value.0, r.value.1)
  {
    var q := Slot(inp, j);
    if i > 0 {
      PreviousSlot(inp, i, j, c0);
    }
    var placed := Place(c0, i, j, q, Amount(inp, i, j), inp.qq, Demand(inp, i));
    if placed.Err? {
      return Err(placed.error);
    }
    var c := placed.value;
    var V := V0 + [Avail(i, q), Carry(i, q)];
    StepState(inp, i, j, V0, c0, c);
    return Ok((V, c));
  }

  lemma PeriodKeys(inp: Input, D: set<(int, int)>, i: int, c0: Dict<Node, Dict<Node, int>>, c: Dict<Node, Dict<Node, int>>)
    requires 0 <= i && KeysAre(inp, D, i, c0) && Before(D, i)
    requires c.m == c0.m[Period(i) := Single(Sink, Demand(inp, i))]
    ensures KeysAre(inp, D, i + 1, c) && Before(D, i + 1)
  {
    forall x
      ensures x in c.m <==> IsKey(inp, D, i + 1, x)
    {
      assert x in c0.m <==> IsKey(inp, D, i, x);
      if !x.Period? {
        assert IsKey(inp, D, i + 1, x) == IsKey(inp, D, i, x);
      }
    }
  }

  lemma PeriodCarry(inp: Input, i: int, c0: Dict<Node, Dict<Node, int>>, c: Dict<Node, Dict<Node, int>>)
    requires CarryRows(inp, c0)
    requires c.m == c0.m[Period(i) := Single(Sink, Demand(inp, i))]
    ensures CarryRows(inp, c)
  {
    forall x | x in c.m && x.Carry?
      ensures CarryRow(inp, c, x)
    {
      assert CarryRow(inp, c0, x);
      assert c.m[x] == c0.m[x];
    }
  }

  lemma PeriodNetwork(V0: seq<Node>, i: int, d: int, c0: Dict<Node, Dict<Node, int>>, c: Dict<Node, Dict<Node, int>>)
    requires Network(V0, c0) && Sink in c0.m
    requires Ordered(c) && c.m == c0.m[Period(i) := Single(Sink, d)]
    ensures Network(V0 + [Period(i)], c)
  {
    forall k | k in c.m
      ensures Ordered(c.m[k]) && Source !in c.m[k].m && forall x :: x in c.m[k].m ==> x in c.m
    {
      if k != Period(i) {
        assert c.m[k] == c0.m[k];
      }
    }
  }

  /** `w = "{i}_w"; c[w] = {t: d}; V += [w]` (JFF.py:59-60) moves the
      state on to the next period. */
  lemma PeriodState(inp: Input, i: int, V0: seq<Node>, c0: Dict<Node, Dict<Node, int>>, c: Dict<Node, Dict<Node, int>>)
    requires 0 <= i < |inp.rows| && |inp.rows[i]| >= 1 && State(inp, i, 0, i, V0, c0)
    requires Ordered(c) && c.m == c0.m[Period(i) := Single(Sink, Demand(inp, i))]
    ensures State(inp, i, 0, i + 1, V0 + [Period(i)], c)
  {
    PeriodKeys(inp, DoneSet(inp, i, 0), i, c0, c);
    PeriodCarry(inp, i, c0, c);
    PeriodNetwork(V0, i, Demand(inp, i), c0, c);
  }

  /** Once every worker `zip` pairs in period `i` is placed, the state is
      the one before period `i + 1`. */
  lemma RowEnd(inp: Input, i: int, V: seq<Node>, c: Dict<Node, Dict<Node, int>>)
    requires 0 <= i < |inp.rows| && |inp.rows[i]| >= 1
    requires State(inp, i, Width(inp.rows[i], inp.ss), i + 1, V, c)
    ensures State(inp, i + 1, 0, i + 1, V, c)
  {
    var n := Width(inp.rows[i], inp.ss);
    DoneNext(inp, i, n);
    forall x | x in c.m[Source].m && x.Avail?
      ensures c.m[Source].m[x] == Accum(inp, i + 1, 0, x.i, x.q)
    {
      if x.i == i {
        TotalPast(inp, i, x.q, |inp.ss|);
      }
    }
  }

  /** `c = {s: {}, t: {}}; V = [s, t]` (JFF.py:54-55) is the state before
      any period. */
  lemma InitialState(inp: Input, c: Dict<Node, Dict<Node, int>>)
    requires c == Dict([Source, Sink], map[Source := Dict([], map[]), Sink := Dict([], map[])])
    ensures State(inp, 0, 0, 0, [Source, Sink], c)
  {
    assert DoneSet(inp, 0, 0) == {};
  }

  /** One period: its demand node, then its workers in order (JFF.py:59-67).
      It fails exactly when one of the period's workers fails
      `WorkerOk`. */
  method EncodeRow(inp: Input, i: int, V0: seq<Node>, c0: Dict<Node, Dict<Node, int>>)
    returns (r: Result<(seq<Node>, Dict<Node, Dict<Node, int>>)>)
    requires 0 <= i < |inp.rows| && |inp.rows[i]| >= 1
    requires State(inp, i, 0, i, V0, c0)
    ensures r.Ok? <==> RowOk(inp, i)
    ensures r.Ok? ==> State(inp, i + 1, 0, i + 1, r.value.0, r.value.1)
  {
    var w := Period(i);
    var c := Put(c0, w, Single(Sink, inp.rows[i][0]));
    var V := V0 + [w];
    PeriodState(inp, i, V0, c0, c);
    for j := 0 to Width(inp.rows[i], inp.ss)
      invariant State(inp, i, j, i + 1, V, c)
      invariant PrefixOk(inp, i, j)
    {
      var placed := EncodeWorker(inp, i, j, V, c);
      if placed.Err? {
        RowStop(inp, i, j);
        return Err(placed.error);
      }
      PrefixNext(inp, i, j);
      V, c := placed.value.0, placed.value.1;
    }
    RowEnd(inp, i, V, c);
    RowDone(inp, i);
    return Ok((V, c));
  }

  /** The whole encoder (JFF.py:54-67).  It fails exactly when the input
      is not `InputOk`, and otherwise leaves the network `State`
      describes with every worker of every period placed. */
  method Encode(inp: Input) returns (r: Result<(seq<Node>, Dict<Node, Dict<Node, int>>)>)
    ensures r.Ok? <==> InputOk(inp)
    ensures r.Ok? ==> State(inp, |inp.rows|, 0, |inp.rows|, r.value.0, r.value.1)
  {
    var c := Dict([Source, Sink], map[Source := Dict([], map[]), Sink := Dict([], map[])]);
    var V := [Source, Sink];
    InitialState(inp, c);
    for i := 0 to |inp.rows|
      invariant State(inp, i, 0, i, V, c)
      invariant RowsOk(inp, i)
    {
      if |inp.rows[i]| == 0 {
        RowsStop(inp, i);
        return Err(EmptyRow(i));
      }
      var placed := EncodeRow(inp, i, V, c);
      if placed.Err? {
        RowsStop(inp, i);
        return Err(placed.error);
      }
      RowsNext(inp, i);
      V, c := placed.value.0, placed.value.1;
    }
    return Ok((V, c));
  }

  /** After the whole input, the source has one entry per slot a period
      uses, carrying that period's summed availability on the slot. */
  lemma SourceEdges(inp: Input, V: seq<Node>, c: Dict<Node, Dict<Node, int>>)
    requires State(inp, |inp.rows|, 0, |inp.rows|, V, c)
    ensures Source in c.m
    ensures forall x :: x in c.m[Source].m <==> x.Avail? && RowUses(inp, x.i, x.q)
    ensures forall x :: x in c.m[Source].m ==> c.m[Source].m[x] == Total(inp, x.i, x.q, |inp.ss|)
  {
    var D := DoneSet(inp, |inp.rows|, 0);
    forall x: Node | x.Avail?
      ensures x in c.m[Source].m <==> RowUses(inp, x.i, x.q)
    {
      if x in c.m[Source].m {
        assert Used(inp, D, x.i, x.q);
        var j :| (x.i, j) in D && Slot(inp, j) == x.q;
        assert 0 <= x.i < |inp.rows|;
        UsedRow(inp, |inp.rows|, 0, x.i, x.q);
      } else if RowUses(inp, x.i, x.q) {
        UsedRow(inp, |inp.rows|, 0, x.i, x.q);
      }
    }
    forall x | x in c.m[Source].m
      ensures c.m[Source].m[x] == Total(inp, x.i, x.q, |inp.ss|)
    {
      assert RowUses(inp, x.i, x.q);
    }
  }

  /** With non-negative counts, every slot size is non-negative. */
  lemma SizeCount(inp: Input, q: int)
    requires Counts(inp)
    ensures Size(inp, q) >= 0
  {
    var r := PyIndex(inp.qq, q);
    if r.Some? && q < 0 {
      assert inp.qq[|inp.qq| + q] >= 0;
    }
  }

  /** With non-negative counts, every partial sum is non-negative. */
  lemma {:induction false} TotalCount(inp: Input, k: int, q: int, n: nat)
    requires Counts(inp)
    ensures Total(inp, k, q, n) >= 0
  {
    if n > 0 {
      TotalCount(inp, k, q, n - 1);
      if 0 <= k < |inp.rows| && n < |inp.rows[k]| {
        assert inp.rows[k][n] >= 0;
      }
    }
  }

  /** With non-negative counts, every capacity the encoder writes is
      non-negative. */
  lemma CapacitiesCount(inp: Input, i: int, jj: int, np: int, V: seq<Node>, c: Dict<Node, Dict<Node, int>>)
    requires Counts(inp) && State(inp, i, jj, np, V, c)
    ensures forall k, x :: k in c.m && x in c.m[k].m ==> c.m[k].m[x] >= 0
  {
    forall k, x | k in c.m && x in c.m[k].m
      ensures c.m[k].m[x] >= 0
    {
      match k
      case Source =>
        TotalCount(inp, x.i, x.q, if x.i < i then |inp.ss| else if x.i == i && jj >= 0 then jj else 0);
      case Sink =>
      case Period(p) =>
        if 0 <= p < |inp.rows| && |inp.rows[p]| >= 1 {
          assert inp.rows[p][0] >= 0;
        }
      case Worker(_, _, _) =>
      case Avail(_, q) =>
        SizeCount(inp, q);
      case Carry(p, q) =>
        assert CarryRow(inp, c, k);
        SizeCount(inp, q);
        if 0 <= p < |inp.rows| && |inp.rows[p]| >= 1 {
          assert inp.rows[p][0] >= 0;
        }
    }
  }

  /** The verdict of JFF.py (JFF.py:69-79): encode, run its
      `ford_fulkerson` (at most `fuel` augmentations; as written, or with
      the cancelling update when `cancelling`), and answer "possible"
      exactly when every source entry is saturated.  The encoder's errors
      come back as they are.  Otherwise the source entries are exactly the
      slot nodes `{k}_q{q}` of the slots period `k` uses, each with the
      period's summed availability on that slot as capacity; and with the
      cancelling update and non-negative counts every entry stays within
      capacity, so "possible" means the flow out of the source equals the
      sum of all availabilities. */
  method FeasibleJff(inp: Input, fuel: nat, cancelling: bool)
    returns (r: Result<bool>, g: FordFulkerson.ResidualGraph?<Node>, outcome: FordFulkerson.Outcome)
    ensures r.Ok? <==> InputOk(inp)
    ensures r.Ok? ==> g != null && g.Valid() && Source in g.E
    ensures r.Ok? ==> outcome != FordFulkerson.EmptyPath && outcome != FordFulkerson.NoSuchSource
    ensures r.Ok? ==> forall x :: x in g.E[Source] <==> x.Avail? && RowUses(inp, x.i, x.q)
    ensures r.Ok? ==> forall x :: x in g.E[Source] ==>
      (Source, x) in g.f && g.f[(Source, x)].capacity == Total(inp, x.i, x.q, |inp.ss|)
    ensures r.Ok? ==> (r.value <==> Saturated(g.f, Source, g.E[Source]))
    ensures r.Ok? && outcome == FordFulkerson.Converged ==> !g.Reachable(Source, Sink)
    ensures r.Ok? && cancelling && Counts(inp) ==>
      && Respects(g.f)
      && (r.value <==> SourceFlow(g.f, Source, g.E[Source]) == SourceCapacity(g.f, Source, g.E[Source]))
  {
    var encoded := Encode(inp);
    if encoded.Err? {
      return Err(encoded.error), null, FordFulkerson.NoSuchSource;
    }
    var V, c := encoded.value.0, encoded.value.1;
    NetworkReady(V, c);
    SourceEdges(inp, V, c);
    var G := GraphOf(V, c);
    assert Ordered(c.m[Source]);
    g := new FordFulkerson.ResidualGraph(G, Caps(c));
    if Counts(inp) {
      CapacitiesCount(inp, |inp.rows|, 0, |inp.rows|, V, c);
      forall u, v | u in G.E && v in G.E[u]
        ensures Caps(c)[u][v] >= 0
      {
        assert Ordered(c.m[u]);
      }
      FordFulkerson.StartRespects(G, Caps(c), g.f);
    }
    outcome := g.Solve(Source, Sink, fuel, cancelling);
    var possible := AllSaturated(g.f, Source, G.E[Source]);
    if cancelling && Counts(inp) {
      SaturatedIffFull(g.f, Source, G.E[Source]);
    }
    return Ok(possible), g, outcome;
  }
}
