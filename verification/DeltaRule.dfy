/** The gated delta-rule step of src/backend/cpu/cpu_op.c, over the reals: the matrix of
    one head is decayed, read, corrected and read out in fused loops over one buffer. */
module DeltaRule {
  import opened Strides

  /** A square matrix in row-major order. */
  predicate Square(s: seq<real>, d: nat) {
    |s| == Stride(d, d)
  }

  function At(s: seq<real>, d: nat, i: nat, j: nat): real
    requires Square(s, d) && i < d && j < d
  {
    StrideBelow(i, d, d);
    s[Stride(i, d) + j]
  }

  /** Column j of the matrix against the first n entries of k: what the memory answers. */
  function Recall(s: seq<real>, d: nat, k: seq<real>, j: nat, n: nat): real
    requires Square(s, d) && |k| == d && j < d && n <= d
  {
    if n == 0 then 0.0 else Recall(s, d, k, j, n - 1) + At(s, d, n - 1, j) * k[n - 1]
  }

  /** The same after every entry has been scaled by g. */
  lemma {:induction false} RecallScaled(s: seq<real>, t: seq<real>, d: nat, k: seq<real>, j: nat, n: nat, g: real)
    requires Square(s, d) && Square(t, d) && |k| == d && j < d && n <= d
    requires forall e :: 0 <= e < |s| ==> t[e] == s[e] * g
    ensures Recall(t, d, k, j, n) == Recall(s, d, k, j, n) * g
  {
    if n > 0 {
      RecallScaled(s, t, d, k, j, n - 1, g);
      StrideBelow(n - 1, d, d);
    }
  }

  /** The correction for column j. */
  function Delta(s: seq<real>, d: nat, k: seq<real>, v: seq<real>, g: real, b: real, j: nat): real
    requires Square(s, d) && |k| == |v| == d && j < d
  {
    (v[j] - Recall(s, d, k, j, d) * g) * b
  }

  /** t is s decayed by g, plus the outer product of k and the corrections. */
  predicate Corrected(t: seq<real>, s: seq<real>, d: nat, k: seq<real>, v: seq<real>, g: real, b: real)
    requires Square(s, d) && Square(t, d) && |k| == |v| == d
  {
    forall i, j :: 0 <= i < d && 0 <= j < d ==> At(t, d, i, j) == At(s, d, i, j) * g + k[i] * Delta(s, d, k, v, g, b, j)
  }

  function Norm(k: seq<real>, n: nat): real
    requires n <= |k|
  {
    if n == 0 then 0.0 else Norm(k, n - 1) + k[n - 1] * k[n - 1]
  }

  /** Asked for the same key again, the memory answers its decayed answer moved towards v
      by the share b times the squared norm of the key. */
  lemma {:induction false} RecallCorrected(t: seq<real>, s: seq<real>, d: nat, k: seq<real>, v: seq<real>, g: real, b: real,
                                           j: nat, n: nat)
    requires Square(s, d) && Square(t, d) && |k| == |v| == d && j < d && n <= d && Corrected(t, s, d, k, v, g, b)
    ensures Recall(t, d, k, j, n) == Recall(s, d, k, j, n) * g + Norm(k, n) * Delta(s, d, k, v, g, b, j)
  {
    if n > 0 {
      hide At;
      RecallCorrected(t, s, d, k, v, g, b, j, n - 1);
      var x := Delta(s, d, k, v, g, b, j);
      hide Delta;
      assert At(t, d, n - 1, j) == At(s, d, n - 1, j) * g + k[n - 1] * x;
      Distribute(Recall(s, d, k, j, n - 1), Norm(k, n - 1), At(s, d, n - 1, j), g, k[n - 1], x);
    }
  }

  lemma Distribute(r: real, m: real, a: real, g: real, k: real, x: real)
    ensures (r * g + m * x) + (a * g + k * x) * k == (r + a * k) * g + (m + k * k) * x
  {
  }

  /** For a key of norm one: the answer is the decayed one and v, mixed in shares 1 - b and b.
      With b = 1 the memory answers v itself. */
  lemma RecallMixes(t: seq<real>, s: seq<real>, d: nat, k: seq<real>, v: seq<real>, g: real, b: real, j: nat)
    requires Square(s, d) && Square(t, d) && |k| == |v| == d && j < d && Corrected(t, s, d, k, v, g, b) && Norm(k, d) == 1.0
    ensures Recall(t, d, k, j, d) == (1.0 - b) * (Recall(s, d, k, j, d) * g) + b * v[j]
  {
    hide Recall, Norm;
    RecallCorrected(t, s, d, k, v, g, b, j, d);
  }

  // ------------------------------------------------------------------------ the loops

  /** Step 1 of gated_delta_step. The matrix is that of one head, at so. */
  method Decay(state: array<real>, so: nat, size: nat, g: real)
    requires so + size <= state.Length
    modifies state
    ensures forall e :: 0 <= e < state.Length ==> state[e] == if so <= e < so + size then old(state[e]) * g else old(state[e])
  {
    for e := 0 to size
      invariant forall i :: 0 <= i < state.Length ==> state[i] == if so <= i < so + e then old(state[i]) * g else old(state[i])
    {
      state[so + e] := state[so + e] * g;
    }
  }

  /** Step 2: reading with the key. */
  method Read(state: array<real>, so: nat, d: nat, k: seq<real>, ghost t: seq<real>) returns (mem: array<real>)
    requires so + |t| <= state.Length && state[so..so + |t|] == t && Square(t, d) && |k| == d
    ensures fresh(mem) && mem.Length == d && forall j :: 0 <= j < d ==> mem[j] == Recall(t, d, k, j, d)
  {
    mem := new real[d](_ => 0.0);
    for i := 0 to d
      invariant forall j :: 0 <= j < d ==> mem[j] == Recall(t, d, k, j, i)
    {
      StrideBelow(i, d, d);
      hide Stride;
      for j := 0 to d
        invariant forall c :: 0 <= c < d ==> mem[c] == if c < j then Recall(t, d, k, c, i + 1) else Recall(t, d, k, c, i)
      {
        assert At(t, d, i, j) == state[so..so + |t|][Stride(i, d) + j];
        mem[j] := mem[j] + state[so + Stride(i, d) + j] * k[i];
      }
    }
  }

  /** t is s after the corrections x have been added to the first n rows. */
  ghost predicate AddedRows(t: seq<real>, s: seq<real>, d: nat, k: seq<real>, x: seq<real>, n: nat)
    requires Square(s, d) && |k| == |x| == d && n <= d
  {
    && Square(t, d)
    && (forall i, j :: 0 <= i < n && 0 <= j < d ==> At(t, d, i, j) == At(s, d, i, j) + k[i] * x[j])
    && (forall i, j :: n <= i < d && 0 <= j < d ==> At(t, d, i, j) == At(s, d, i, j))
  }

  /** Reading the first n rows looks at no other row. */
  lemma {:induction false} RecallFrame(s: seq<real>, t: seq<real>, d: nat, q: seq<real>, c: nat, n: nat)
    requires Square(s, d) && Square(t, d) && |q| == d && c < d && n <= d
    requires forall i, j :: 0 <= i < n && 0 <= j < d ==> At(t, d, i, j) == At(s, d, i, j)
    ensures Recall(t, d, q, c, n) == Recall(s, d, q, c, n)
  {
    if n > 0 { RecallFrame(s, t, d, q, c, n - 1); }
  }

  /** One row of steps 4 and 5: the row is corrected and at once added to the readout. */
  method AddRow(state: array<real>, ro: nat, d: nat, ki: real, qi: real, x: seq<real>, out: array<real>)
    requires ro + d <= state.Length && |x| == d && out.Length == d && out != state
    modifies state, out
    ensures Bumped(old(state[..]), state[..], ro, seq(d, j requires 0 <= j < d => ki * x[j]))
    ensures forall j :: 0 <= j < d ==> out[j] == old(out[j]) + state[ro + j] * qi
  {
    for j := 0 to d
      invariant forall e :: 0 <= e < state.Length ==>
                  state[e] == if ro <= e < ro + j then old(state[e]) + ki * x[e - ro] else old(state[e])
      invariant forall c :: 0 <= c < d ==> out[c] == if c < j then old(out[c]) + state[ro + c] * qi else old(out[c])
    {
      state[ro + j] := state[ro + j] + ki * x[j];
      out[j] := out[j] + state[ro + j] * qi;
    }
  }

  /** b is a with y added from position ro on. */
  ghost predicate Bumped(a: seq<real>, b: seq<real>, ro: nat, y: seq<real>) {
    && ro + |y| <= |a| == |b|
    && forall e :: 0 <= e < |a| ==> b[e] == if ro <= e < ro + |y| then a[e] + y[e - ro] else a[e]
  }

  /** t' is t with y added to row i. */
  ghost predicate RowPlus(t: seq<real>, t': seq<real>, d: nat, i: nat, y: seq<real>)
    requires Square(t, d) && i < d && |y| == d
  {
    && |t'| == |t| && Stride(i, d) + d <= |t|
    && forall e :: 0 <= e < |t| ==> t'[e] == if Stride(i, d) <= e < Stride(i, d) + d then t[e] + y[e - Stride(i, d)] else t[e]
  }

  lemma RowPlusAt(t: seq<real>, t': seq<real>, d: nat, i: nat, y: seq<real>, r: nat, j: nat)
    requires Square(t, d) && i < d && |y| == d && RowPlus(t, t', d, i, y) && r < d && j < d
    ensures At(t', d, r, j) == if r == i then At(t, d, r, j) + y[j] else At(t, d, r, j)
  {
    StrideBelow(r, d, d);
    if r != i { StrideApart(r, i, d); }
    hide Stride;
  }

  lemma RowAdded(t: seq<real>, t': seq<real>, s: seq<real>, d: nat, k: seq<real>, x: seq<real>, i: nat, y: seq<real>)
    requires Square(s, d) && |k| == |x| == |y| == d && i < d && AddedRows(t, s, d, k, x, i)
    requires RowPlus(t, t', d, i, y) && forall j :: 0 <= j < d ==> y[j] == k[i] * x[j]
    ensures AddedRows(t', s, d, k, x, i + 1)
  {
    hide At, RowPlus;
    RowPlusLength(t, t', d, i, y);
    forall r, j | 0 <= r < d && 0 <= j < d ensures At(t', d, r, j) == if r == i then At(t, d, r, j) + y[j] else At(t, d, r, j) {
      RowPlusAt(t, t', d, i, y, r, j);
    }
  }

  lemma RowPlusLength(t: seq<real>, t': seq<real>, d: nat, i: nat, y: seq<real>)
    requires Square(t, d) && i < d && |y| == d && RowPlus(t, t', d, i, y)
    ensures |t'| == |t|
  {
  }

  /** Reading one row more after that row has been corrected. */
  lemma ReadoutRow(t: seq<real>, t': seq<real>, d: nat, q: seq<real>, i: nat, y: seq<real>, j: nat)
    requires Square(t, d) && i < d && |y| == |q| == d && RowPlus(t, t', d, i, y) && j < d
    ensures Square(t', d) && Stride(i, d) + j < |t'|
    ensures Recall(t', d, q, j, i + 1) == Recall(t, d, q, j, i) + t'[Stride(i, d) + j] * q[i]
  {
    RowPlusLength(t, t', d, i, y);
    AtIs(t', d, i, j);
    hide At, RowPlus;
    forall r, c | 0 <= r < i && 0 <= c < d ensures At(t', d, r, c) == At(t, d, r, c) {
      RowPlusAt(t, t', d, i, y, r, c);
    }
    RecallFrame(t, t', d, q, j, i);
  }

  lemma AtIs(t: seq<real>, d: nat, i: nat, j: nat)
    requires Square(t, d) && i < d && j < d
    ensures Stride(i, d) + j < |t| && At(t, d, i, j) == t[Stride(i, d) + j]
  {
    StrideBelow(i, d, d);
  }

  lemma NothingAdded(s: seq<real>, d: nat, k: seq<real>, x: seq<real>)
    requires Square(s, d) && |k| == |x| == d
    ensures AddedRows(s, s, d, k, x, 0)
  {
  }

  lemma AddedSquare(t: seq<real>, s: seq<real>, d: nat, k: seq<real>, x: seq<real>, n: nat)
    requires Square(s, d) && |k| == |x| == d && n <= d && AddedRows(t, s, d, k, x, n)
    ensures Square(t, d)
  {
  }

  /** Steps 4 and 5 of gated_delta_step for one head. */
  method AddAndReadOut(state: array<real>, so: nat, d: nat, k: seq<real>, q: seq<real>, x: seq<real>, ghost s: seq<real>)
    returns (out: array<real>)
    requires Square(s, d) && so + |s| <= state.Length && state[so..so + |s|] == s && |k| == |q| == |x| == d
    modifies state
    ensures fresh(out) && out.Length == d && AddedRows(state[so..so + |s|], s, d, k, x, d)
    ensures forall j :: 0 <= j < d ==> out[j] == Recall(state[so..so + |s|], d, q, j, d)
    ensures forall e :: 0 <= e < state.Length && !(so <= e < so + |s|) ==> state[e] == old(state[e])
  {
    hide At, AddedRows, Recall, Bumped, RowPlus;
    out := new real[d](_ => 0.0);
    ghost var t := s;
    NothingAdded(s, d, k, x);
    forall j | 0 <= j < d ensures Recall(s, d, q, j, 0) == 0.0 { RecallNothing(s, d, q, j); }
    for i := 0 to d
      invariant state[so..so + |s|] == t && AddedRows(t, s, d, k, x, i) && Square(t, d)
      invariant forall j :: 0 <= j < d ==> out[j] == Recall(t, d, q, j, i)
      invariant forall e :: 0 <= e < state.Length && !(so <= e < so + |s|) ==> state[e] == old(state[e])
    {
      StrideBelow(i, d, d);
      hide Stride;
      ghost var y, before := seq(d, j requires 0 <= j < d => k[i] * x[j]), state[..];
      AddRow(state, so + Stride(i, d), d, k[i], q[i], x, out);
      ghost var after := state[..];
      ghost var t' := after[so..so + |s|];
      BlockBumped(before, after, so, |s|, d, i, y);
      RowAdded(t, t', s, d, k, x, i, y);
      forall j | 0 <= j < d ensures out[j] == Recall(t', d, q, j, i + 1) {
        ReadoutRow(t, t', d, q, i, y, j);
        assert t'[Stride(i, d) + j] == after[so + (Stride(i, d) + j)];
      }
      AddedSquare(t', s, d, k, x, i + 1);
      t := t';
    }
  }

  /** A change inside one head's block is a change of that block alone. */
  lemma BlockBumped(a: seq<real>, b: seq<real>, so: nat, n: nat, d: nat, i: nat, y: seq<real>)
    requires so + n <= |a| && Square(a[so..so + n], d) && i < d && |y| == d && Stride(i, d) + d <= n
    requires Bumped(a, b, so + Stride(i, d), y)
    ensures RowPlus(a[so..so + n], b[so..so + n], d, i, y)
    ensures forall e :: 0 <= e < |a| && !(so <= e < so + n) ==> b[e] == a[e]
  {
    hide Stride;
    var at, s, t := Stride(i, d), a[so..so + n], b[so..so + n];
    forall e | 0 <= e < n ensures t[e] == if at <= e < at + d then s[e] + y[e - at] else s[e] {
      assert t[e] == b[so + e] && s[e] == a[so + e];
    }
  }

  lemma RecallNothing(s: seq<real>, d: nat, q: seq<real>, j: nat)
    requires Square(s, d) && |q| == d && j < d
    ensures Recall(s, d, q, j, 0) == 0.0
  {
  }

  // ------------------------------------------------------------------------ all heads

  /** What the step makes of one head: t is the corrected matrix, o its readout with q. */
  ghost predicate HeadDone(t: seq<real>, o: seq<real>, s: seq<real>, d: nat, q: seq<real>, k: seq<real>, v: seq<real>, g: real, b: real)
    requires Square(s, d) && |q| == |k| == |v| == d
  {
    && Square(t, d) && |o| == d && Corrected(t, s, d, k, v, g, b)
    && forall j :: 0 <= j < d ==> o[j] == Recall(t, d, q, j, d)
  }

  /** gated_delta_step for one head, in place. */
  method HeadStep(state: array<real>, so: nat, d: nat, q: seq<real>, k: seq<real>, v: seq<real>, g: real, b: real,
                  ghost s: seq<real>) returns (out: array<real>)
    requires Square(s, d) && so + |s| <= state.Length && state[so..so + |s|] == s && |q| == |k| == |v| == d
    modifies state
    ensures fresh(out) && HeadDone(state[so..so + |s|], out[..], s, d, q, k, v, g, b)
    ensures forall e :: 0 <= e < state.Length && !(so <= e < so + |s|) ==> state[e] == old(state[e])
  {
    hide Stride, At, AddedRows, Corrected, Recall, Delta;
    Decay(state, so, Stride(d, d), g);
    ghost var t := state[so..so + |s|];
    forall e | 0 <= e < |s| ensures t[e] == s[e] * g {
      assert s[e] == old(state[so + e]) && t[e] == state[so + e];
    }
    var mem := Read(state, so, d, k, t);
    var x := Corrections(mem, v, b, d);
    CorrectionsAre(s, t, d, k, v, g, b, mem[..], x);
    out := AddAndReadOut(state, so, d, k, q, x, t);
    DecayedThenAdded(s, t, state[so..so + |s|], d, k, v, x, g, b);
  }

  /** Step 3: what each column lacks. */
  method Corrections(mem: array<real>, v: seq<real>, b: real, d: nat) returns (x: seq<real>)
    requires mem.Length == |v| == d
    ensures |x| == d && forall j :: 0 <= j < d ==> x[j] == (v[j] - mem[j]) * b
  {
    x := [];
    for j := 0 to d
      invariant |x| == j && forall i :: 0 <= i < j ==> x[i] == (v[i] - mem[i]) * b
    {
      x := x + [(v[j] - mem[j]) * b];
    }
  }

  lemma CorrectionsAre(s: seq<real>, t: seq<real>, d: nat, k: seq<real>, v: seq<real>, g: real, b: real, mem: seq<real>, x: seq<real>)
    requires Square(s, d) && Square(t, d) && |k| == |v| == |mem| == |x| == d
    requires forall e :: 0 <= e < |s| ==> t[e] == s[e] * g
    requires forall j :: 0 <= j < d ==> mem[j] == Recall(t, d, k, j, d) && x[j] == (v[j] - mem[j]) * b
    ensures forall j :: 0 <= j < d ==> x[j] == Delta(s, d, k, v, g, b, j)
  {
    hide Recall;
    forall j | 0 <= j < d ensures x[j] == Delta(s, d, k, v, g, b, j) {
      RecallScaled(s, t, d, k, j, d, g);
    }
  }

  lemma DecayedThenAdded(s: seq<real>, t: seq<real>, u: seq<real>, d: nat, k: seq<real>, v: seq<real>, x: seq<real>, g: real, b: real)
    requires Square(s, d) && Square(t, d) && |k| == |v| == |x| == d && AddedRows(u, t, d, k, x, d)
    requires forall e :: 0 <= e < |s| ==> t[e] == s[e] * g
    requires forall j :: 0 <= j < d ==> x[j] == Delta(s, d, k, v, g, b, j)
    ensures Square(u, d) && Corrected(u, s, d, k, v, g, b)
  {
    hide Delta;
    forall i, j | 0 <= i < d && 0 <= j < d ensures At(u, d, i, j) == At(s, d, i, j) * g + k[i] * Delta(s, d, k, v, g, b, j) {
      AtIs(s, d, i, j);
      AtIs(t, d, i, j);
    }
  }

  /** Row r of a matrix with d columns. */
  function RowOf(m: seq<real>, d: nat, r: nat): (row: seq<real>)
    requires Stride(r, d) + d <= |m|
    ensures |row| == d
  {
    m[Stride(r, d)..Stride(r, d) + d]
  }

  /** The query and key head that value head h reads. */
  function KeyHead(h: nat, keyHeads: nat): (r: nat)
    requires keyHeads > 0
    ensures r < keyHeads
  {
    h % keyHeads
  }

  /** The matrix of head h. */
  function BlockOf(state: seq<real>, d: nat, h: nat): (s: seq<real>)
    requires Stride(h, Stride(d, d)) + Stride(d, d) <= |state|
    ensures Square(s, d)
  {
    state[Stride(h, Stride(d, d))..Stride(h, Stride(d, d)) + Stride(d, d)]
  }

  /** All heads have their data. */
  ghost predicate Shapes(heads: nat, keyHeads: nat, d: nat, q: seq<real>, k: seq<real>, v: seq<real>) {
    keyHeads > 0 && |q| == |k| == Stride(keyHeads, d) && |v| == Stride(heads, d)
  }

  lemma ShapeOf(heads: nat, keyHeads: nat, d: nat, h: nat)
    requires keyHeads > 0 && h < heads
    ensures Stride(h, Stride(d, d)) + Stride(d, d) <= Stride(heads, Stride(d, d))
    ensures Stride(h, d) + d <= Stride(heads, d) && Stride(KeyHead(h, keyHeads), d) + d <= Stride(keyHeads, d)
  {
    StrideBelow(h, heads, Stride(d, d));
    StrideBelow(h, heads, d);
    StrideBelow(KeyHead(h, keyHeads), keyHeads, d);
  }

  /** Head h after the step, from the state before it. */
  ghost predicate HeadOk(h: nat, state: seq<real>, before: seq<real>, output: seq<real>, d: nat, keyHeads: nat,
                         q: seq<real>, k: seq<real>, v: seq<real>, g: seq<real>, b: seq<real>)
    requires h < |g| == |b| && Shapes(|g|, keyHeads, d, q, k, v) && |output| == Stride(|g|, d)
    requires |state| == |before| == Stride(|g|, Stride(d, d))
  {
    ShapeOf(|g|, keyHeads, d, h);
    HeadDone(BlockOf(state, d, h), RowOf(output, d, h), BlockOf(before, d, h), d,
             RowOf(q, d, KeyHead(h, keyHeads)), RowOf(k, d, KeyHead(h, keyHeads)), RowOf(v, d, h), g[h], b[h])
  }

  /** gated_delta_step: every head's matrix is corrected in place and read out, and no head
      touches another. */
  method GatedDeltaStep(q: seq<real>, k: seq<real>, v: seq<real>, state: array<real>, g: seq<real>, b: seq<real>,
                        output: array<real>, keyHeads: nat, d: nat)
    requires |g| == |b| && Shapes(|g|, keyHeads, d, q, k, v) && output.Length == Stride(|g|, d)
    requires state.Length == Stride(|g|, Stride(d, d)) && state != output
    modifies state, output
    ensures forall h :: 0 <= h < |g| ==> HeadOk(h, state[..], old(state[..]), output[..], d, keyHeads, q, k, v, g, b)
  {
    hide HeadOk, HeadDone, Stride, KeyHead;
    ghost var before := state[..];
    for h := 0 to |g|
      invariant forall i :: 0 <= i < h ==> HeadOk(i, state[..], before, output[..], d, keyHeads, q, k, v, g, b)
      invariant forall e :: Stride(h, Stride(d, d)) <= e < state.Length ==> state[e] == before[e]
    {
      ghost var mid, o := state[..], output[..];
      HeadTurn(h, q, k, v, state, g, b, output, keyHeads, d, before);
      StrideBelow(h, |g|, Stride(d, d));
      forall i | 0 <= i < h ensures HeadOk(i, state[..], before, output[..], d, keyHeads, q, k, v, g, b) {
        OtherHead(i, h, mid, state[..], before, o, output[..], d, keyHeads, q, k, v, g, b);
      }
    }
  }

  /** One round of the loop over the heads. */
  method HeadTurn(h: nat, q: seq<real>, k: seq<real>, v: seq<real>, state: array<real>, g: seq<real>, b: seq<real>,
                  output: array<real>, keyHeads: nat, d: nat, ghost before: seq<real>)
    requires h < |g| == |b| && Shapes(|g|, keyHeads, d, q, k, v) && output.Length == Stride(|g|, d)
    requires state.Length == |before| == Stride(|g|, Stride(d, d)) && state != output
    requires forall e :: Stride(h, Stride(d, d)) <= e < state.Length ==> state[e] == before[e]
    modifies state, output
    ensures HeadOk(h, state[..], before, output[..], d, keyHeads, q, k, v, g, b)
    ensures SameOutside(state[..], old(state[..]), Stride(h, Stride(d, d)), Stride(d, d))
    ensures SameOutside(output[..], old(output[..]), Stride(h, d), d)
  {
    hide HeadDone, Stride, KeyHead;
    ShapeOf(|g|, keyHeads, d, h);
    var kh, at, n := KeyHead(h, keyHeads), Stride(h, Stride(d, d)), Stride(d, d);
    ghost var s := BlockOf(before, d, h);
    assert state[at..at + n] == s;
    var row := HeadStep(state, at, d, RowOf(q, d, kh), RowOf(k, d, kh), RowOf(v, d, h), g[h], b[h], s);
    assert BlockOf(state[..], d, h) == state[at..at + |s|];
    RowLength(state[at..at + |s|], row[..], s, d, RowOf(q, d, kh), RowOf(k, d, kh), RowOf(v, d, h), g[h], b[h]);
    ghost var done := state[..];
    StoreRow(output, Stride(h, d), row[..]);
    assert state[..] == done && RowOf(output[..], d, h) == row[..];
  }

  ghost predicate SameOutside(a: seq<real>, b: seq<real>, at: nat, n: nat) {
    |a| == |b| && forall e :: 0 <= e < |a| && !(at <= e < at + n) ==> a[e] == b[e]
  }

  method StoreRow(output: array<real>, at: nat, row: seq<real>)
    requires at + |row| <= output.Length
    modifies output
    ensures output[at..at + |row|] == row && SameOutside(output[..], old(output[..]), at, |row|)
  {
    forall j | 0 <= j < |row| { output[at + j] := row[j]; }
  }

  lemma RowLength(t: seq<real>, o: seq<real>, s: seq<real>, d: nat, q: seq<real>, k: seq<real>, v: seq<real>, g: real, b: real)
    requires Square(s, d) && |q| == |k| == |v| == d && HeadDone(t, o, s, d, q, k, v, g, b)
    ensures |o| == d
  {
  }

  /** The work of head h leaves an earlier head i alone. */
  lemma OtherHead(i: nat, h: nat, mid: seq<real>, state: seq<real>, before: seq<real>, o: seq<real>, output: seq<real>, d: nat,
                  keyHeads: nat, q: seq<real>, k: seq<real>, v: seq<real>, g: seq<real>, b: seq<real>)
    requires i < h < |g| == |b| && Shapes(|g|, keyHeads, d, q, k, v) && |output| == |o| == Stride(|g|, d)
    requires |mid| == |state| == |before| == Stride(|g|, Stride(d, d))
    requires HeadOk(i, mid, before, o, d, keyHeads, q, k, v, g, b)
    requires SameOutside(state, mid, Stride(h, Stride(d, d)), Stride(d, d)) && SameOutside(output, o, Stride(h, d), d)
    ensures HeadOk(i, state, before, output, d, keyHeads, q, k, v, g, b)
  {
    hide HeadDone, Stride, KeyHead;
    StrideBelow(i, h, Stride(d, d));
    StrideBelow(i, h, d);
    ShapeOf(|g|, keyHeads, d, i);
    assert BlockOf(state, d, i) == BlockOf(mid, d, i);
    assert RowOf(output, d, i) == RowOf(o, d, i);
  }
}
