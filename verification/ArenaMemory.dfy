/** The arenas the executor runs over: rows in slots, and why writing one node's
    slot leaves every value that is still needed in place. */
module ArenaMemory {
  import opened Graph
  import opened ArenaPlan
  import opened GraphValue

  /** The result of arena_plan. */
  datatype Layout = Layout(dims: seq<nat>, need: seq<nat>, release: seq<nat>, offs: seq<nat>, size: seq<nat>)

  ghost predicate Planned(g: seq<GraphNode>, nUbatch: nat, pl: Layout) {
    && Backward(g)
    && IsDims(g, pl.dims) && IsNeed(g, pl.dims, nUbatch, pl.need) && IsRelease(g, pl.release)
    && |pl.offs| == |g| && |pl.size| == BACKEND_COUNT && PlanOk(g, pl.release, pl.need, pl.offs, pl.size)
  }

  /** Words per row of a node's slot; an input holds one token id per row. */
  function RowWidth(g: seq<GraphNode>, pl: Layout, i: nat): nat
    requires i < |g| && |pl.dims| == |g|
  {
    if g[i].op.Input? then 1 else pl.dims[i]
  }

  function WordOff(pl: Layout, i: nat): nat
    requires i < |pl.offs|
  {
    pl.offs[i] / 4
  }

  // ---------------------------------------------------------------- one arena

  function Splice(mem: seq<Word>, at: nat, row: seq<Word>): (r: seq<Word>)
    requires at + |row| <= |mem|
    ensures |r| == |mem|
  {
    mem[..at] + row + mem[at + |row|..]
  }

  /** Consecutive rows of width w from word off on. */
  ghost predicate Holds(mem: seq<Word>, off: nat, w: nat, rows: seq<RowData>) {
    forall r :: 0 <= r < |rows| ==> HoldsRow(mem, off + r * w, w, rows[r])
  }

  ghost predicate HoldsRow(mem: seq<Word>, at: nat, w: nat, row: RowData) {
    at + w <= |mem| && mem[at..at + w] == row
  }

  lemma RowInside(r: nat, n: nat, w: nat)
    requires r < n
    ensures r * w + w <= n * w
  {
    MulMono(r + 1, n, w);
  }

  lemma SpliceKeeps(mem: seq<Word>, at: nat, row: seq<Word>, lo: nat, w: nat)
    requires at + |row| <= |mem| && lo + w <= |mem|
    requires at + |row| <= lo || lo + w <= at
    ensures Splice(mem, at, row)[lo..lo + w] == mem[lo..lo + w]
  {
  }

  /** Writing elsewhere. */
  lemma HoldsFrame(mem: seq<Word>, at: nat, row: seq<Word>, off: nat, w: nat, rows: seq<RowData>)
    requires at + |row| <= |mem| && Holds(mem, off, w, rows)
    requires at + |row| <= off || off + |rows| * w <= at
    ensures Holds(Splice(mem, at, row), off, w, rows)
  {
    hide HoldsRow;
    forall r | 0 <= r < |rows| ensures HoldsRow(Splice(mem, at, row), off + r * w, w, rows[r]) {
      assert HoldsRow(mem, off + r * w, w, rows[r]);
      RowInside(r, |rows|, w);
      RowFrame(mem, at, row, off + r * w, w, rows[r]);
    }
  }

  lemma RowFrame(mem: seq<Word>, at: nat, row: seq<Word>, lo: nat, w: nat, data: RowData)
    requires at + |row| <= |mem| && HoldsRow(mem, lo, w, data) && (at + |row| <= lo || lo + w <= at)
    ensures HoldsRow(Splice(mem, at, row), lo, w, data)
  {
    SpliceKeeps(mem, at, row, lo, w);
  }

  /** Writing the next row. */
  lemma HoldsExtend(mem: seq<Word>, off: nat, w: nat, rows: seq<RowData>, row: RowData)
    requires Holds(mem, off, w, rows) && |row| == w && off + |rows| * w + w <= |mem|
    ensures Holds(Splice(mem, off + |rows| * w, row), off, w, rows + [row])
  {
    hide HoldsRow, Splice;
    var at := off + |rows| * w;
    HoldsFrame(mem, at, row, off, w, rows);
    RowPlaced(mem, at, row);
    var mem' := Splice(mem, at, row);
    forall r | 0 <= r < |rows + [row]| ensures HoldsRow(mem', off + r * w, w, (rows + [row])[r]) {
      if r < |rows| { assert HoldsRow(mem', off + r * w, w, rows[r]); }
    }
  }

  lemma RowPlaced(mem: seq<Word>, at: nat, row: RowData)
    requires at + |row| <= |mem|
    ensures HoldsRow(Splice(mem, at, row), at, |row|, row)
  {
  }

  // ------------------------------------------------------------ all the arenas

  ghost predicate Sized(pl: Layout, mem: seq<seq<Word>>) {
    |mem| == |pl.size| == BACKEND_COUNT && forall b :: 0 <= b < BACKEND_COUNT ==> pl.size[b] <= 4 * |mem[b]|
  }

  /** Node j's slot holds its values at positions pos..pos+n-1. */
  ghost predicate HasRows(m: Model, g: seq<GraphNode>, pl: Layout, t: seq<Word>, mem: seq<seq<Word>>, j: nat, pos: nat, n: nat)
    requires Backward(g) && j < |g| == |pl.dims| == |pl.offs| && pos + n <= |t| && |mem| == BACKEND_COUNT
  {
    Holds(mem[g[j].backend], WordOff(pl, j), RowWidth(g, pl, j), Column(m, g, t, j, pos, pos + n))
  }

  /** Before node i runs on the batch pos..pos+n-1, every earlier node that is
      still read has its rows in place. */
  ghost predicate Ready(m: Model, g: seq<GraphNode>, pl: Layout, t: seq<Word>, mem: seq<seq<Word>>, i: nat, pos: nat, n: nat)
    requires Backward(g) && i <= |g| == |pl.dims| == |pl.offs| == |pl.release| && pos + n <= |t| && |mem| == BACKEND_COUNT
  {
    forall j :: 0 <= j < i && i <= pl.release[j] ==> HasRows(m, g, pl, t, mem, j, pos, n)
  }

  /** A slot in words: where it starts, and that n <= n_ubatch rows fit. */
  lemma SlotFits(g: seq<GraphNode>, nUbatch: nat, pl: Layout, mem: seq<seq<Word>>, i: nat, rows: nat)
    requires Planned(g, nUbatch, pl) && Sized(pl, mem) && i < |g|
    requires if g[i].op.Input? then rows <= g[i].ne0 else if Sink(g, i) then rows <= 1 else rows <= nUbatch
    ensures var w := RowWidth(g, pl, i);
            && rows * w * 4 <= pl.need[i] && WordOff(pl, i) * 4 == pl.offs[i]
            && WordOff(pl, i) + rows * w <= |mem[g[i].backend]|
  {
    hide Planned, Sized, Sink, Align16;
    OffsetFacts(g, nUbatch, pl, mem, i);
    var w := RowWidth(g, pl, i);
    var cap := if g[i].op.Input? then g[i].ne0 else if Sink(g, i) then 1 else nUbatch;
    MulMono(rows, cap, w);
    NeedIs(g, nUbatch, pl, i, cap, cap * w);
    AlignedAtLeast(cap * w * 4);
    WordsOfBytes(pl.offs[i], pl.need[i], pl.size[g[i].backend], |mem[g[i].backend]|, rows * w);
  }

  lemma AlignedAtLeast(x: nat)
    ensures x <= Align16(x)
  {
  }

  /** A planned slot starts aligned and ends inside its arena. */
  lemma OffsetFacts(g: seq<GraphNode>, nUbatch: nat, pl: Layout, mem: seq<seq<Word>>, i: nat)
    requires Planned(g, nUbatch, pl) && Sized(pl, mem) && i < |g|
    ensures |pl.dims| == |pl.need| == |pl.offs| == |g| && |mem| == |pl.size| == BACKEND_COUNT
    ensures pl.offs[i] % 16 == 0 && pl.offs[i] + pl.need[i] <= pl.size[g[i].backend] <= 4 * |mem[g[i].backend]|
  {
    hide Apart;
  }

  lemma NeedIs(g: seq<GraphNode>, nUbatch: nat, pl: Layout, i: nat, cap: nat, words: nat)
    requires Planned(g, nUbatch, pl) && i < |g|
    requires cap == if g[i].op.Input? then g[i].ne0 else if Sink(g, i) then 1 else nUbatch
    requires words == cap * RowWidth(g, pl, i)
    ensures pl.need[i] == Align16(words * 4)
  {
    hide IsDims, IsRelease, Backward, PlanOk, Sink;
  }

  lemma WordsOfBytes(off: nat, need: nat, size: nat, len: nat, words: nat)
    requires off % 16 == 0 && off + need <= size <= 4 * len && words * 4 <= need
    ensures off / 4 * 4 == off && off / 4 + words <= len
  {
  }

  lemma PlannedSizes(g: seq<GraphNode>, nUbatch: nat, pl: Layout)
    requires Planned(g, nUbatch, pl)
    ensures |pl.dims| == |pl.need| == |pl.release| == |pl.offs| == |g|
  {
  }

  /** Node j is still read when node i runs, so that their slots are apart. */
  lemma SlotsApart(g: seq<GraphNode>, nUbatch: nat, pl: Layout, mem: seq<seq<Word>>, j: nat, i: nat, n: nat, at: nat, len: nat)
    requires Planned(g, nUbatch, pl) && Sized(pl, mem) && j < i < |g| && n <= nUbatch
    requires !Sink(g, j) && (g[j].op.Input? ==> n <= g[j].ne0) && i <= pl.release[j] && g[j].backend == g[i].backend
    requires WordOff(pl, i) <= at && at * 4 + len * 4 <= pl.offs[i] + pl.need[i]
    ensures at + len <= WordOff(pl, j) || WordOff(pl, j) + n * RowWidth(g, pl, j) <= at
  {
    hide IsDims, IsNeed, IsRelease, Backward, Sink;
    PlannedSizes(g, nUbatch, pl);
    SlotFits(g, nUbatch, pl, mem, j, n);
    assert Apart(Slot(pl.offs, pl.need, j), Slot(pl.offs, pl.need, i));
    assert pl.offs[i] % 16 == 0;
    InWords(pl.offs[i], pl.offs[j], pl.need[j], pl.need[i], n * RowWidth(g, pl, j), at, len);
  }

  lemma InWords(offI: nat, offJ: nat, needJ: nat, needI: nat, words: nat, at: nat, len: nat)
    requires offI % 16 == 0 && offJ / 4 * 4 == offJ && words * 4 <= needJ
    requires offJ + needJ <= offI || offI + needI <= offJ
    requires offI / 4 <= at && at * 4 + len * 4 <= offI + needI
    ensures at + len <= offJ / 4 || offJ / 4 + words <= at
  {
  }

  /** Node j, which is still needed, is not touched by writing inside node i's slot. */
  lemma RowsFrame(m: Model, g: seq<GraphNode>, nUbatch: nat, pl: Layout, t: seq<Word>, mem: seq<seq<Word>>,
                  i: nat, j: nat, pos: nat, n: nat, at: nat, row: seq<Word>)
    requires Backward(g) && |pl.dims| == |pl.offs| == |g| && |mem| == BACKEND_COUNT
    requires Planned(g, nUbatch, pl) && Sized(pl, mem) && j < i < |g| && n <= nUbatch && pos + n <= |t|
    requires !Sink(g, j) && (g[j].op.Input? ==> n <= g[j].ne0) && i <= pl.release[j]
    requires WordOff(pl, i) <= at && at + |row| <= |mem[g[i].backend]|
    requires at * 4 + |row| * 4 <= pl.offs[i] + pl.need[i]
    requires HasRows(m, g, pl, t, mem, j, pos, n)
    ensures var b := g[i].backend; HasRows(m, g, pl, t, mem[b := Splice(mem[b], at, row)], j, pos, n)
  {
    hide Holds, Splice, RowWidth, Column, Planned, Sized, Sink, Backward, Val;
    var b := g[i].backend;
    if g[j].backend == b {
      SlotsApart(g, nUbatch, pl, mem, j, i, n, at, |row|);
      ColumnLength(m, g, t, j, pos, n);
      HoldsFrame(mem[b], at, row, WordOff(pl, j), RowWidth(g, pl, j), Column(m, g, t, j, pos, pos + n));
    }
  }

  lemma ColumnLength(m: Model, g: seq<GraphNode>, t: seq<Word>, j: nat, pos: nat, n: nat)
    requires Backward(g) && j < |g| && pos + n <= |t|
    ensures |Column(m, g, t, j, pos, pos + n)| == n
  {
  }

  /** Writing inside node i's slot leaves the nodes still needed in place. */
  lemma ReadyFrame(m: Model, g: seq<GraphNode>, nUbatch: nat, pl: Layout, t: seq<Word>, mem: seq<seq<Word>>,
                   i: nat, pos: nat, n: nat, at: nat, row: seq<Word>)
    requires Planned(g, nUbatch, pl) && Sized(pl, mem) && i < |g| && n <= nUbatch && pos + n <= |t|
    requires forall j :: 0 <= j < i ==> !Sink(g, j)
    requires forall j :: 0 <= j < |g| && g[j].op.Input? ==> n <= g[j].ne0
    requires Ready(m, g, pl, t, mem, i, pos, n)
    requires WordOff(pl, i) <= at && at + |row| <= |mem[g[i].backend]|
    requires at * 4 + |row| * 4 <= pl.offs[i] + pl.need[i]
    ensures var b := g[i].backend; Ready(m, g, pl, t, mem[b := Splice(mem[b], at, row)], i, pos, n)
  {
    hide HasRows, IsDims, IsNeed, IsRelease, PlanOk;
    PlannedSizes(g, nUbatch, pl);
    var b := g[i].backend;
    var mem' := mem[b := Splice(mem[b], at, row)];
    forall j | 0 <= j < i && i <= pl.release[j] ensures HasRows(m, g, pl, t, mem', j, pos, n) {
      RowsFrame(m, g, nUbatch, pl, t, mem, i, j, pos, n, at, row);
    }
  }
}
