/** The automatic context size of src/core.c: how many layers fit on the device at a
    context size, and the search for the largest context at which all of them do. Byte
    counts are unbounded integers. */
module AutoContext {

  const DEFAULT_CTX_SIZE: nat := 4096
  const RESERVE: nat := 384 * 1024 * 1024

  /** What the estimate reads of a model: per layer the bytes of its weights and whether it
      has a key projection; the bytes of the embedding and output tensors (0 if absent). */
  datatype Model = Model(layers: seq<Layer>, embedding: nat, output: nat, kvHeads: nat, kvHeadDim: nat, width: nat)
  datatype Layer = Layer(weights: nat, attention: bool)

  function Max(a: nat, b: nat): nat {
    if a < b then b else a
  }

  function Min(a: nat, b: nat): nat {
    if a < b then a else b
  }

  /** gpu_memory_budget: 384 MiB are kept back, and of the rest a tenth, to within 9 bytes. */
  function Budget(free: nat): (r: nat)
    ensures free <= 402653184 ==> r == 0
    ensures free > 402653184 ==> 10 * r <= 9 * (free - 402653184) <= 10 * r + 81
  {
    if free > RESERVE then (free - RESERVE) / 10 * 9 else 0
  }

  /** Bytes of keys and values per attention layer. */
  function KvBytes(m: Model, ctx: nat, slots: nat): nat {
    ctx * (m.kvHeads * m.kvHeadDim * 8 * slots)
  }

  /** Each layer's share of the activation arena: 36 rows of floats per token. */
  function ArenaBytes(m: Model, rows: nat, slots: nat): nat
    requires |m.layers| > 0
  {
    rows * (m.width * 144 * slots) / |m.layers|
  }

  /** The arena holds ubatch rows, or the whole context when that is 0. */
  function Rows(ctx: nat, ubatch: nat): nat {
    if ubatch != 0 then ubatch else ctx
  }

  function LayerBytes(m: Model, l: nat, kv: nat, arena: nat): nat
    requires l < |m.layers|
  {
    m.layers[l].weights + (if m.layers[l].attention then kv else 0) + arena
  }

  /** Bytes used by the embedding and the first n layers. */
  function Used(m: Model, n: nat, kv: nat, arena: nat): nat
    requires n <= |m.layers|
  {
    if n == 0 then m.embedding else Used(m, n - 1, kv, arena) + LayerBytes(m, n - 1, kv, arena)
  }

  /** The largest number of leading layers within the budget. */
  function Leading(m: Model, n: nat, kv: nat, arena: nat, budget: nat): (r: nat)
    requires n <= |m.layers|
    ensures r <= n
  {
    if n == 0 then 0
    else if Used(m, n, kv, arena) <= budget then n
    else Leading(m, n - 1, kv, arena, budget)
  }

  /** gpu_layers_fit_at, as a function: all layers count only with the output tensor. */
  function LayersFit(m: Model, ctx: nat, ubatch: nat, parallel: int, free: nat): (r: nat)
    ensures r <= |m.layers|
  {
    var slots: nat := if parallel < 1 then 1 else parallel;
    if |m.layers| == 0 || free == 0 then 0
    else
      var kv, arena := KvBytes(m, ctx, slots), ArenaBytes(m, Rows(ctx, ubatch), slots);
      var n := Leading(m, |m.layers|, kv, arena, Budget(free));
      if n == |m.layers| && Used(m, n, kv, arena) + m.output > Budget(free) then n - 1 else n
  }

  predicate AllFit(m: Model, ctx: nat, ubatch: nat, parallel: int, free: nat) {
    LayersFit(m, ctx, ubatch, parallel, free) >= |m.layers|
  }

  lemma {:induction false} UsedGrows(m: Model, n: nat, k: nat, kv: nat, arena: nat)
    requires n <= k <= |m.layers|
    ensures Used(m, n, kv, arena) <= Used(m, k, kv, arena)
  {
    if n < k { UsedGrows(m, n, k - 1, kv, arena); }
  }

  /** All layers fit exactly when everything together is within the budget. */
  lemma AllFitMeans(m: Model, ctx: nat, ubatch: nat, parallel: int, free: nat)
    requires |m.layers| > 0 && free > 0
    ensures var slots: nat := if parallel < 1 then 1 else parallel;
            var kv, arena := KvBytes(m, ctx, slots), ArenaBytes(m, Rows(ctx, ubatch), slots);
            AllFit(m, ctx, ubatch, parallel, free) <==> Used(m, |m.layers|, kv, arena) + m.output <= Budget(free)
  {
    hide KvBytes, ArenaBytes, Budget;
  }

  /** gpu_layers_fit_at. */
  method LayersFitAt(m: Model, ctx: nat, ubatch: nat, parallel: int, free: nat) returns (n: nat)
    ensures n == LayersFit(m, ctx, ubatch, parallel, free)
  {
    hide KvBytes, ArenaBytes, Budget;
    var slots: nat := if parallel < 1 then 1 else parallel;
    var L := |m.layers|;
    if L == 0 || free == 0 { return 0; }
    var budget := Budget(free);
    var used := m.embedding;
    var kv, arena := KvBytes(m, ctx, slots), ArenaBytes(m, Rows(ctx, ubatch), slots);
    n := 0;
    var l := 0;
    while l < L
      invariant l == n <= L && used == Used(m, n, kv, arena)
      invariant n > 0 ==> used <= budget
    {
      var add := LayerBytes(m, l, kv, arena);
      if used + add > budget { break; }
      used := used + add;
      n := n + 1;
      l := l + 1;
    }
    LeadingIs(m, n, kv, arena, budget);
    if n == L {
      if used + m.output > budget { n := n - 1; }
    }
  }

  lemma LeadingIs(m: Model, n: nat, kv: nat, arena: nat, budget: nat)
    requires n <= |m.layers| && (n > 0 ==> Used(m, n, kv, arena) <= budget)
    requires n < |m.layers| ==> Used(m, n + 1, kv, arena) > budget
    ensures Leading(m, |m.layers|, kv, arena, budget) == n
  {
    LeadingBelow(m, n, |m.layers|, kv, arena, budget);
  }

  lemma {:induction false} LeadingBelow(m: Model, n: nat, k: nat, kv: nat, arena: nat, budget: nat)
    requires n <= k <= |m.layers| && (n > 0 ==> Used(m, n, kv, arena) <= budget)
    requires n < |m.layers| ==> Used(m, n + 1, kv, arena) > budget
    ensures Leading(m, k, kv, arena, budget) == n
    decreases k
  {
    if n < k {
      UsedGrows(m, n + 1, k, kv, arena);
      LeadingBelow(m, n, k - 1, kv, arena, budget);
    }
  }

  // ---------------------------------------------------------- what a session allocates

  function Sum(sizes: seq<nat>): nat {
    if sizes == [] then 0 else Sum(sizes[..|sizes| - 1]) + sizes[|sizes| - 1]
  }

  lemma {:induction false} SumAppend(a: seq<nat>, b: seq<nat>)
    ensures Sum(a + b) == Sum(a) + Sum(b)
  {
    if b == [] {
      assert a + b == a;
    } else {
      SumAppend(a, b[..|b| - 1]);
      assert (a + b)[..|a + b| - 1] == a + b[..|b| - 1];
    }
  }

  /** Bytes of an array of four-byte floats. */
  function FloatBytes(rows: nat, columns: nat): nat {
    rows * columns * 4
  }

  /** The cache arrays of the first n layers for one slot: keys and values of every layer
      with attention, a row for every position and in it every head. */
  function Caches(m: Model, n: nat, ctx: nat): seq<nat>
    requires n <= |m.layers|
  {
    if n == 0 then []
    else
      var one := FloatBytes(ctx, m.kvHeads * m.kvHeadDim);
      Caches(m, n - 1, ctx) + if m.layers[n - 1].attention then [one, one] else []
  }

  /** The same for every slot. */
  function AllCaches(m: Model, n: nat, ctx: nat, slots: nat): seq<nat>
    requires n <= |m.layers|
  {
    if slots == 0 then [] else AllCaches(m, n, ctx, slots - 1) + Caches(m, n, ctx)
  }

  function WeightSizes(m: Model, n: nat): seq<nat>
    requires n <= |m.layers|
  {
    seq(n, l requires 0 <= l < n => m.layers[l].weights)
  }

  /** The layers' equal shares of the arena, which has 36 rows of the model's width for every
      token of the micro-batch and every slot. */
  function ArenaShare(m: Model, rows: nat, slots: nat): nat
    requires |m.layers| > 0
  {
    slots * FloatBytes(36 * rows, m.width) / |m.layers|
  }

  /** Everything the first n layers put on the device, with the embedding. */
  function Resident(m: Model, n: nat, ctx: nat, rows: nat, slots: nat): nat
    requires n <= |m.layers| && |m.layers| > 0
  {
    m.embedding + Sum(WeightSizes(m, n)) + Sum(AllCaches(m, n, ctx, slots)) + n * ArenaShare(m, rows, slots)
  }

  function Attention(m: Model, n: nat): nat
    requires n <= |m.layers|
  {
    if n == 0 then 0 else Attention(m, n - 1) + if m.layers[n - 1].attention then 1 else 0
  }

  function Mul(a: nat, b: nat): nat { a * b }

  lemma MulNext(a: nat, b: nat)
    ensures Mul(a + 1, b) == Mul(a, b) + b && Mul(0, b) == 0
  {
  }

  lemma {:induction false} CachesSum(m: Model, n: nat, ctx: nat)
    requires n <= |m.layers|
    ensures Sum(Caches(m, n, ctx)) == Mul(Attention(m, n), 2 * FloatBytes(ctx, m.kvHeads * m.kvHeadDim))
  {
    hide FloatBytes, Mul, Sum;
    var one := FloatBytes(ctx, m.kvHeads * m.kvHeadDim);
    if n == 0 {
      SumNothing();
      MulNext(0, 2 * one);
    } else {
      CachesSum(m, n - 1, ctx);
      if m.layers[n - 1].attention {
        SumAppend(Caches(m, n - 1, ctx), [one, one]);
        SumTwo(one, one);
        MulNext(Attention(m, n - 1), 2 * one);
      } else {
        assert Caches(m, n, ctx) == Caches(m, n - 1, ctx);
      }
    }
  }

  lemma SumNothing()
    ensures Sum([]) == 0
  {
  }

  lemma SumTwo(a: nat, b: nat)
    ensures Sum([a, b]) == a + b
  {
    assert [a, b][..1] == [a] && Sum([a]) == a;
  }

  lemma {:induction false} AllCachesSum(m: Model, n: nat, ctx: nat, slots: nat)
    requires n <= |m.layers|
    ensures Sum(AllCaches(m, n, ctx, slots)) == Mul(slots, Sum(Caches(m, n, ctx)))
  {
    hide Caches, Mul, Sum;
    MulNext(0, Sum(Caches(m, n, ctx)));
    SumNothing();
    if slots > 0 {
      AllCachesSum(m, n, ctx, slots - 1);
      SumAppend(AllCaches(m, n, ctx, slots - 1), Caches(m, n, ctx));
      MulNext(slots - 1, Sum(Caches(m, n, ctx)));
    }
  }

  lemma {:induction false} UsedIs(m: Model, n: nat, kv: nat, arena: nat)
    requires n <= |m.layers|
    ensures Used(m, n, kv, arena) == m.embedding + Sum(WeightSizes(m, n)) + Mul(Attention(m, n), kv) + Mul(n, arena)
  {
    hide Mul, Sum;
    SumNothing();
    MulNext(0, kv);
    MulNext(0, arena);
    if n > 0 {
      UsedIs(m, n - 1, kv, arena);
      assert WeightSizes(m, n) == WeightSizes(m, n - 1) + [m.layers[n - 1].weights];
      SumAppend(WeightSizes(m, n - 1), [m.layers[n - 1].weights]);
      SumOne(m.layers[n - 1].weights);
      MulNext(n - 1, arena);
      MulNext(Attention(m, n - 1), kv);
    }
  }

  lemma SumOne(a: nat)
    ensures Sum([a]) == a
  {
  }

  /** The bytes charged per attention layer are those of its two arrays in every slot. */
  lemma KvIsTwoArrays(m: Model, ctx: nat, slots: nat)
    ensures KvBytes(m, ctx, slots) == slots * (2 * FloatBytes(ctx, m.kvHeads * m.kvHeadDim))
  {
    Regroup(ctx, m.kvHeads * m.kvHeadDim, slots);
  }

  lemma Regroup(c: nat, a: nat, s: nat)
    ensures c * (a * 8 * s) == s * (2 * (c * a * 4))
  {
    var p := c * a;
    assert c * (a * 8 * s) == c * (a * (8 * s)) == p * (8 * s);
  }

  lemma MulThrough(a: nat, b: nat, c: nat)
    ensures Mul(a, Mul(b, c)) == Mul(b, Mul(a, c))
  {
  }

  lemma ArenaIsShare(m: Model, rows: nat, slots: nat)
    requires |m.layers| > 0
    ensures ArenaBytes(m, rows, slots) == ArenaShare(m, rows, slots)
  {
    ArenaRegroup(rows, m.width, slots);
  }

  lemma ArenaRegroup(r: nat, w: nat, s: nat)
    ensures r * (w * 144 * s) == s * (36 * r * w * 4)
  {
    var p := r * w;
    assert r * (w * 144 * s) == r * (w * (144 * s)) == p * (144 * s);
    assert 36 * r * w * 4 == 144 * p;
  }

  /** What the fitting loop adds up is what a session of that size puts on the device. */
  lemma UsedIsResident(m: Model, n: nat, ctx: nat, rows: nat, slots: nat)
    requires n <= |m.layers| && |m.layers| > 0
    ensures Used(m, n, KvBytes(m, ctx, slots), ArenaBytes(m, rows, slots)) == Resident(m, n, ctx, rows, slots)
  {
    hide Used, KvBytes, ArenaBytes, ArenaShare, FloatBytes, Caches, AllCaches, WeightSizes, Sum, Attention, Mul;
    var pair := 2 * FloatBytes(ctx, m.kvHeads * m.kvHeadDim);
    UsedIs(m, n, KvBytes(m, ctx, slots), ArenaBytes(m, rows, slots));
    AllCachesSum(m, n, ctx, slots);
    CachesSum(m, n, ctx);
    KvIsTwoArrays(m, ctx, slots);
    ArenaIsShare(m, rows, slots);
    MulIs(slots, pair);
    MulIs(n, ArenaShare(m, rows, slots));
    MulThrough(Attention(m, n), slots, pair);
  }

  lemma MulIs(a: nat, b: nat)
    ensures Mul(a, b) == a * b
  {
  }

  /** gpu_layers_fit_at: with a number of slots of at least one, as many leading layers as
      are within the budget together; all of them only with the output tensor. */
  lemma FitMeans(m: Model, ctx: nat, ubatch: nat, parallel: int, free: nat)
    requires |m.layers| > 0 && free > 0
    ensures var slots: nat := if parallel < 1 then 1 else parallel;
            var rows, L, n := if ubatch == 0 then ctx else ubatch, |m.layers|, LayersFit(m, ctx, ubatch, parallel, free);
            && (n > 0 ==> Resident(m, n, ctx, rows, slots) <= Budget(free))
            && (n == L ==> Resident(m, L, ctx, rows, slots) + m.output <= Budget(free))
            && (n < L ==> Resident(m, n + 1, ctx, rows, slots) + (if n + 1 == L then m.output else 0) > Budget(free))
  {
    hide KvBytes, ArenaBytes, Budget, Used, Resident;
    var slots: nat := if parallel < 1 then 1 else parallel;
    var rows, L, n := Rows(ctx, ubatch), |m.layers|, LayersFit(m, ctx, ubatch, parallel, free);
    var kv, arena := KvBytes(m, ctx, slots), ArenaBytes(m, rows, slots);
    LeadingMeans(m, L, kv, arena, Budget(free));
    UsedIsResident(m, n, ctx, rows, slots);
    UsedIsResident(m, L, ctx, rows, slots);
    if n < L { UsedIsResident(m, n + 1, ctx, rows, slots); }
    UsedGrows(m, n, Leading(m, L, kv, arena, Budget(free)), kv, arena);
  }

  lemma {:induction false} LeadingMeans(m: Model, n: nat, kv: nat, arena: nat, budget: nat)
    requires n <= |m.layers|
    ensures var r := Leading(m, n, kv, arena, budget);
            (r > 0 ==> Used(m, r, kv, arena) <= budget) && (r < n ==> Used(m, r + 1, kv, arena) > budget)
  {
    hide Used;
    if n > 0 && Used(m, n, kv, arena) > budget { LeadingMeans(m, n - 1, kv, arena, budget); }
  }

  /** All layers fit exactly when the weights, the caches of all slots and the arena are
      within the budget. */
  lemma AllFitExactly(m: Model, ctx: nat, ubatch: nat, parallel: int, free: nat)
    requires |m.layers| > 0 && free > 0
    ensures var slots: nat := if parallel < 1 then 1 else parallel;
            AllFit(m, ctx, ubatch, parallel, free) <==>
            Resident(m, |m.layers|, ctx, if ubatch == 0 then ctx else ubatch, slots) + m.output <= Budget(free)
  {
    hide KvBytes, ArenaBytes, Budget, Used, Resident, LayersFit;
    var slots: nat := if parallel < 1 then 1 else parallel;
    AllFitMeans(m, ctx, ubatch, parallel, free);
    UsedIsResident(m, |m.layers|, ctx, Rows(ctx, ubatch), slots);
  }

  /** The part of cache_build_attn_kvcache that lays out the caches of one slot: the size of
      the cache arena, and where each layer's keys and values start in it, -1 without. */
  method CacheBuild(m: Model, ctx: nat) returns (size: nat, k: array<int>, v: array<int>)
    ensures size == Sum(Caches(m, |m.layers|, ctx))
    ensures k.Length == v.Length == |m.layers| && Carved(m, |m.layers|, ctx, k[..], v[..], size)
  {
    hide FloatBytes, Sum, Caches, Carved;
    var bytes := FloatBytes(ctx, m.kvHeads * m.kvHeadDim);
    size := 0;
    SumNothing();
    CachesNothing(m, ctx);
    for l := 0 to |m.layers|
      invariant size == Sum(Caches(m, l, ctx))
    {
      CachesNext(m, l, ctx);
      if m.layers[l].attention { size := size + bytes * 2; }
    }
    k, v := new int[|m.layers|](_ => -1), new int[|m.layers|](_ => -1);
    var base := 0;
    NothingCarved(m, ctx, k[..], v[..]);
    for l := 0 to |m.layers|
      invariant base == Sum(Caches(m, l, ctx)) && Carved(m, l, ctx, k[..], v[..], base)
      invariant forall e :: l <= e < |m.layers| ==> k[e] == v[e] == -1
    {
      CachesNext(m, l, ctx);
      CarveNext(m, l, ctx, k[..], v[..], base);
      if m.layers[l].attention {
        k[l] := base;
        v[l] := base + bytes;
        base := base + bytes * 2;
      }
    }
  }

  lemma NothingCarved(m: Model, ctx: nat, k: seq<int>, v: seq<int>)
    requires |k| == |v| == |m.layers|
    ensures Carved(m, 0, ctx, k, v, 0)
  {
  }

  lemma CarveNext(m: Model, l: nat, ctx: nat, k: seq<int>, v: seq<int>, base: nat)
    requires l < |m.layers| == |k| == |v| && Carved(m, l, ctx, k, v, base) && k[l] == v[l] == -1
    ensures !m.layers[l].attention ==> Carved(m, l + 1, ctx, k, v, base)
    ensures var bytes := FloatBytes(ctx, m.kvHeads * m.kvHeadDim);
            m.layers[l].attention ==> Carved(m, l + 1, ctx, k[l := base], v[l := base + bytes], base + 2 * bytes)
  {
    hide FloatBytes;
  }

  /** The arrays of the first n layers lie one after the other below size. */
  ghost predicate Carved(m: Model, n: nat, ctx: nat, k: seq<int>, v: seq<int>, size: nat) {
    && n <= |m.layers| == |k| == |v|
    && var bytes := FloatBytes(ctx, m.kvHeads * m.kvHeadDim);
    && (forall l :: 0 <= l < n && m.layers[l].attention ==> 0 <= k[l] && k[l] + bytes == v[l] && v[l] + bytes <= size)
    && (forall l, e :: 0 <= l < e < n && m.layers[l].attention && m.layers[e].attention ==> v[l] + bytes <= k[e])
    && (forall l :: 0 <= l < n && !m.layers[l].attention ==> k[l] == v[l] == -1)
  }

  lemma CachesNothing(m: Model, ctx: nat)
    ensures Caches(m, 0, ctx) == []
  {
  }

  lemma CachesNext(m: Model, l: nat, ctx: nat)
    requires l < |m.layers|
    ensures Sum(Caches(m, l + 1, ctx)) ==
            Sum(Caches(m, l, ctx)) + if m.layers[l].attention then 2 * FloatBytes(ctx, m.kvHeads * m.kvHeadDim) else 0
  {
    hide Sum, FloatBytes;
    var one := FloatBytes(ctx, m.kvHeads * m.kvHeadDim);
    if m.layers[l].attention {
      SumAppend(Caches(m, l, ctx), [one, one]);
      SumTwo(one, one);
    } else {
      assert Caches(m, l + 1, ctx) == Caches(m, l, ctx);
    }
  }

  // -------------------------------------------------------------------- monotonicity

  lemma {:induction false} UsedMore(m: Model, n: nat, kv: nat, arena: nat, kv': nat, arena': nat)
    requires n <= |m.layers| && kv <= kv' && arena <= arena'
    ensures Used(m, n, kv, arena) <= Used(m, n, kv', arena')
  {
    if n > 0 { UsedMore(m, n - 1, kv, arena, kv', arena'); }
  }

  lemma {:induction false} LeadingFewer(m: Model, n: nat, kv: nat, arena: nat, kv': nat, arena': nat, budget: nat)
    requires n <= |m.layers| && kv <= kv' && arena <= arena'
    ensures Leading(m, n, kv', arena', budget) <= Leading(m, n, kv, arena, budget)
  {
    if n > 0 {
      UsedMore(m, n, kv, arena, kv', arena');
      LeadingFewer(m, n - 1, kv, arena, kv', arena', budget);
      LeadingMax(m, n, kv, arena, budget);
    }
  }

  lemma {:induction false} LeadingMax(m: Model, n: nat, kv: nat, arena: nat, budget: nat)
    requires 0 < n <= |m.layers|
    ensures Leading(m, n - 1, kv, arena, budget) <= Leading(m, n, kv, arena, budget)
  {
  }

  lemma Scale(a: nat, b: nat, k: nat)
    requires a <= b
    ensures a * k <= b * k
  {
  }

  lemma Quotient(a: nat, b: nat, k: nat)
    requires a <= b && k > 0
    ensures a / k <= b / k
  {
    var p, q := a / k, b / k;
    assert a == k * p + a % k && b == k * q + b % k;
    if q < p { Scale(q + 1, p, k); }
  }

  /** A larger context or a larger arena never lets more layers fit. */
  lemma FitFalls(m: Model, ctx: nat, ubatch: nat, ctx': nat, ubatch': nat, parallel: int, free: nat)
    requires ctx <= ctx' && Rows(ctx, ubatch) <= Rows(ctx', ubatch')
    ensures LayersFit(m, ctx', ubatch', parallel, free) <= LayersFit(m, ctx, ubatch, parallel, free)
  {
    hide Budget, Leading, Used;
    if |m.layers| > 0 && free > 0 {
      var slots: nat := if parallel < 1 then 1 else parallel;
      var a, b := m.kvHeads * m.kvHeadDim * 8 * slots, m.width * 144 * slots;
      var r, r', L := Rows(ctx, ubatch), Rows(ctx', ubatch'), |m.layers|;
      Scale(ctx, ctx', a);
      Scale(r, r', b);
      Quotient(r * b, r' * b, L);
      var kv, kv', arena, arena' := KvBytes(m, ctx, slots), KvBytes(m, ctx', slots), ArenaBytes(m, r, slots), ArenaBytes(m, r', slots);
      hide KvBytes, ArenaBytes, Rows;
      LeadingFewer(m, L, kv, arena, kv', arena', Budget(free));
      LeadingWithin(m, L, kv, arena, Budget(free));
      LeadingWithin(m, L, kv', arena', Budget(free));
      UsedMore(m, L, kv, arena, kv', arena');
    }
  }

  lemma LeadingWithin(m: Model, n: nat, kv: nat, arena: nat, budget: nat)
    requires n <= |m.layers|
    ensures Leading(m, n, kv, arena, budget) <= n
  {
  }

  lemma FitFallsInContext(m: Model, ctx: nat, ctx': nat, ubatch: nat, parallel: int, free: nat)
    requires ctx <= ctx'
    ensures LayersFit(m, ctx', ubatch, parallel, free) <= LayersFit(m, ctx, ubatch, parallel, free)
  {
    FitFalls(m, ctx, ubatch, ctx', ubatch, parallel, free);
  }

  /** session_create: a micro-batch of 0 or more than the context means the whole context. */
  function Clamped(ubatch: nat, ctx: nat): (r: nat)
    ensures r <= ctx && (0 < ubatch <= ctx ==> r == ubatch) && (ubatch == 0 || ctx < ubatch ==> r == ctx)
  {
    if ubatch == 0 || ubatch > ctx then ctx else ubatch
  }

  /** The session's own micro-batch never lets fewer layers fit than the estimate said. */
  lemma ClampKeepsFit(m: Model, ctx: nat, ubatch: nat, parallel: int, free: nat)
    ensures LayersFit(m, ctx, ubatch, parallel, free) <= LayersFit(m, ctx, Clamped(ubatch, ctx), parallel, free)
  {
    FitFalls(m, ctx, Clamped(ubatch, ctx), ctx, ubatch, parallel, free);
  }

  // --------------------------------------------------------------------- the search

  /** best is the largest context up to `limit` at which all layers fit. */
  predicate Largest(m: Model, best: nat, limit: nat, ubatch: nat, parallel: int, free: nat) {
    && 1 <= best <= limit && AllFit(m, best, ubatch, parallel, free)
    && forall c :: best < c <= limit ==> !AllFit(m, c, ubatch, parallel, free)
  }

  /** Above 256 the next multiple of 256 that is not larger. */
  function RoundedDown(ctx: nat): (r: nat)
    ensures ctx <= 256 ==> r == ctx
    ensures ctx > 256 ==> r % 256 == 0 && r <= ctx < r + 256
  {
    if ctx > 256 then ctx / 256 * 256 else ctx
  }

  /** The binary search of engine_auto_ctx_size, which is right because a larger context
      never fits where a smaller one does not. */
  method LargestContext(m: Model, modelCtx: nat, ubatch: nat, parallel: int, free: nat) returns (best: nat)
    requires modelCtx >= 1 && AllFit(m, 1, ubatch, parallel, free)
    ensures Largest(m, best, modelCtx, ubatch, parallel, free)
  {
    hide LayersFit;
    var lo, hi := 1, modelCtx;
    while lo < hi
      invariant 1 <= lo <= hi <= modelCtx && AllFit(m, lo, ubatch, parallel, free)
      invariant forall c :: hi < c <= modelCtx ==> !AllFit(m, c, ubatch, parallel, free)
      decreases hi - lo
    {
      var mid := lo + (hi - lo + 1) / 2;
      var n := LayersFitAt(m, mid, ubatch, parallel, free);
      if n >= |m.layers| {
        lo := mid;
      } else {
        forall c | mid <= c <= modelCtx ensures !AllFit(m, c, ubatch, parallel, free) {
          FitFallsInContext(m, mid, c, ubatch, parallel, free);
        }
        hi := mid - 1;
      }
    }
    best := lo;
  }

  /** The automatic-offload branch of engine_auto_ctx_size. When any context fits, the
      result is the largest one, rounded down to a multiple of 256, and a session of that
      size puts every layer on the device: its weights, caches and arena are within the
      budget. */
  method AutoContextSize(m: Model, advertised: nat, ubatch: nat, parallel: int, free: nat) returns (ctx: nat)
    requires |m.layers| > 0 && free > 0
    ensures var limit := if advertised == 0 then DEFAULT_CTX_SIZE else advertised;
            && 1 <= ctx <= limit
            && (AllFit(m, limit, ubatch, parallel, free) ==> ctx == limit)
            && (!AllFit(m, limit, ubatch, parallel, free) && AllFit(m, 1, ubatch, parallel, free) ==>
                  exists best :: Largest(m, best, limit, ubatch, parallel, free) && ctx == RoundedDown(best))
            && (AllFit(m, 1, ubatch, parallel, free) ==>
                  && LayersFit(m, ctx, Clamped(ubatch, ctx), parallel, free) == |m.layers|
                  && Resident(m, |m.layers|, ctx, Clamped(ubatch, ctx), if parallel < 1 then 1 else parallel) + m.output
                     <= Budget(free))
            && (!AllFit(m, 1, ubatch, parallel, free) ==>
                  ctx == Min(Max(ubatch, DEFAULT_CTX_SIZE), limit) && forall c :: 1 <= c ==> !AllFit(m, c, ubatch, parallel, free))
  {
    var limit := if advertised == 0 then DEFAULT_CTX_SIZE else advertised;
    var fit := LayersFitAt(m, limit, ubatch, parallel, free);
    var one := LayersFitAt(m, 1, ubatch, parallel, free);
    OneIsBest(m, ubatch, parallel, free);
    FitsAtMostAll(m, limit, ubatch, parallel, free);
    hide LayersFit;
    if fit >= |m.layers| {
      ctx := limit;
      FitFallsInContext(m, 1, limit, ubatch, parallel, free);
    } else if one < |m.layers| {
      ctx := Max(ubatch, DEFAULT_CTX_SIZE);
      if ctx > limit { ctx := limit; }
      return;
    } else {
      var best := LargestContext(m, limit, ubatch, parallel, free);
      ctx := best;
      if ctx > 256 { ctx := ctx / 256 * 256; }
      assert ctx == RoundedDown(best) && ctx <= best;
      FitFallsInContext(m, ctx, best, ubatch, parallel, free);
    }
    ClampKeepsFit(m, ctx, ubatch, parallel, free);
    FitsAtMostAll(m, ctx, Clamped(ubatch, ctx), parallel, free);
    hide Budget, Resident;
    AllFitExactly(m, ctx, Clamped(ubatch, ctx), parallel, free);
  }

  lemma OneIsBest(m: Model, ubatch: nat, parallel: int, free: nat)
    ensures !AllFit(m, 1, ubatch, parallel, free) ==> forall c :: 1 <= c ==> !AllFit(m, c, ubatch, parallel, free)
  {
    hide LayersFit;
    forall c | 1 <= c && AllFit(m, c, ubatch, parallel, free) ensures AllFit(m, 1, ubatch, parallel, free) {
      FitFallsInContext(m, 1, c, ubatch, parallel, free);
    }
  }

  lemma FitsAtMostAll(m: Model, ctx: nat, ubatch: nat, parallel: int, free: nat)
    ensures LayersFit(m, ctx, ubatch, parallel, free) <= |m.layers|
  {
  }
}
