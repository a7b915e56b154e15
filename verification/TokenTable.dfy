/** The open-addressing table of src/core.c that maps token pieces to ids and
    merge strings to ranks: linear probing in a table of power-of-two size. */
module TokenTable {
  import opened Common

  type Key = seq<Byte>

  datatype Entry = Entry(used: bool, key: Key, value: int)

  predicate IsPow2(n: nat) {
    n == 1 || (n > 1 && n % 2 == 0 && IsPow2(n / 2))
  }

  /** next_pow2: the smallest power of two that is at least n. */
  method NextPow2(n: nat) returns (p: nat)
    ensures IsPow2(p) && n <= p && (p == 1 || p / 2 < n)
  {
    p := 1;
    while p < n
      invariant IsPow2(p) && (p == 1 || p / 2 < n)
      decreases n - p
    {
      p := p * 2;
    }
  }

  /** The slot d probes after slot h; the source masks with cap - 1. */
  function Probe(h: nat, d: nat, cap: nat): (r: nat)
    requires h < cap && d <= cap
    ensures r < cap
  {
    if h + d < cap then h + d else h + d - cap
  }

  lemma ProbeIsMod(h: nat, d: nat, cap: nat)
    requires h < cap && d < cap
    ensures (Probe(h, d, cap) + 1) % cap == Probe(h, d + 1, cap)
  {
    hide Probe;
    ProbeNext(h, d, cap);
    if Probe(h, d, cap) + 1 == cap { FullTurn(cap); } else { SmallMod(Probe(h, d, cap) + 1, cap); }
  }

  lemma ProbeNext(h: nat, d: nat, cap: nat)
    requires h < cap && d < cap
    ensures var p := Probe(h, d, cap); 0 <= p < cap && Probe(h, d + 1, cap) == if p + 1 == cap then 0 else p + 1
  {
  }

  lemma SmallMod(x: nat, n: nat)
    requires x < n
    ensures x % n == x
  {
  }

  lemma FullTurn(n: nat)
    requires n > 0
    ensures n % n == 0
  {
  }

  /** How many probes lead from slot h to slot i. */
  function Dist(h: nat, i: nat, cap: nat): (r: nat)
    requires h < cap && i < cap
    ensures r < cap && Probe(h, r, cap) == i
  {
    if i >= h then i - h else i + cap - h
  }

  lemma DistUnique(h: nat, d: nat, cap: nat)
    requires h < cap && d < cap
    ensures Dist(h, Probe(h, d, cap), cap) == d
  {
  }

  // ------------------------------------------------------- the table as a value

  /** Every slot a lookup from slot h passes before slot i is taken. */
  ghost predicate Chain(es: seq<Entry>, h: nat, i: nat)
    requires h < |es| && i < |es|
  {
    forall d :: 0 <= d < Dist(h, i, |es|) ==> es[Probe(h, d, |es|)].used
  }

  /** slot says where each key sits; its entry is reachable from its home. */
  ghost predicate Ok(es: seq<Entry>, slot: map<Key, nat>, hash: Key -> nat) {
    && |es| > 0
    && (forall k :: k in slot ==> slot[k] < |es| && es[slot[k]].used && es[slot[k]].key == k)
    && (forall i :: 0 <= i < |es| && es[i].used ==> es[i].key in slot && slot[es[i].key] == i)
    && (forall k :: k in slot ==> Chain(es, hash(k) % |es|, slot[k]))
  }

  ghost function ContentsOf(es: seq<Entry>, slot: map<Key, nat>): map<Key, int>
    requires forall k :: k in slot ==> slot[k] < |es|
  {
    map k | k in slot :: es[slot[k]].value
  }

  lemma PutOld(es: seq<Entry>, slot: map<Key, nat>, hash: Key -> nat, k: Key, value: int)
    requires Ok(es, slot, hash) && k in slot
    ensures var es' := es[slot[k] := es[slot[k]].(value := value)];
            Ok(es', slot, hash) && ContentsOf(es', slot) == ContentsOf(es, slot)[k := value]
  {
    var es' := es[slot[k] := es[slot[k]].(value := value)];
    forall x | x in slot ensures Chain(es', hash(x) % |es'|, slot[x]) {
      assert Chain(es, hash(x) % |es|, slot[x]);
    }
    forall x | x in slot && x != k ensures slot[x] != slot[k] {
    }
  }

  lemma PutNew(es: seq<Entry>, slot: map<Key, nat>, hash: Key -> nat, k: Key, value: int, i: nat)
    requires Ok(es, slot, hash) && k !in slot && i < |es| && !es[i].used && Chain(es, hash(k) % |es|, i)
    ensures var es', slot' := es[i := Entry(true, k, value)], slot[k := i];
            Ok(es', slot', hash) && ContentsOf(es', slot') == ContentsOf(es, slot)[k := value]
  {
    var es', slot' := es[i := Entry(true, k, value)], slot[k := i];
    forall x | x in slot' ensures Chain(es', hash(x) % |es'|, slot'[x]) {
      assert Chain(es, hash(x) % |es|, slot'[x]);
    }
    forall x | x in slot ensures slot[x] != i {
    }
  }

  lemma Subset<T>(a: set<T>, b: set<T>)
    requires a <= b
    ensures |a| <= |b|
  {
    assert b == a + (b - a);
  }

  /** Fewer keys than slots leave an empty slot. */
  lemma Hole(es: seq<Entry>, slot: map<Key, nat>, hash: Key -> nat) returns (hole: nat)
    requires Ok(es, slot, hash) && |slot| < |es|
    ensures hole < |es| && !es[hole].used
  {
    if forall i :: 0 <= i < |es| ==> es[i].used {
      Full(es, slot, |es|);
      assert false;
    }
    hole :| 0 <= hole < |es| && !es[hole].used;
  }

  /** n used slots hold n different keys. */
  lemma {:induction false} Full(es: seq<Entry>, slot: map<Key, nat>, n: nat)
    requires n <= |es|
    requires forall i :: 0 <= i < n ==> es[i].used && es[i].key in slot && slot[es[i].key] == i
    ensures n <= |slot|
  {
    var ks := set i | 0 <= i < n :: es[i].key;
    KeysOf(es, slot, n);
    Subset(ks, slot.Keys);
  }

  lemma {:induction false} KeysOf(es: seq<Entry>, slot: map<Key, nat>, n: nat)
    requires n <= |es|
    requires forall i :: 0 <= i < n ==> es[i].key in slot && slot[es[i].key] == i
    ensures |set i | 0 <= i < n :: es[i].key| == n
    decreases n
  {
    if n > 0 {
      KeysOf(es, slot, n - 1);
      assert (set i | 0 <= i < n :: es[i].key) == (set i | 0 <= i < n - 1 :: es[i].key) + {es[n - 1].key};
    }
  }

  // -------------------------------------------------------------------- the class

  class Table {
    const hash: Key -> nat
    const entry: array<Entry>
    var used: nat
    ghost var slot: map<Key, nat>

    ghost predicate Valid()
      reads this, entry
    {
      Ok(entry[..], slot, hash) && used == |slot|
    }

    /** The map the table stands for. */
    ghost function Contents(): map<Key, int>
      requires Valid()
      reads this, entry
    {
      ContentsOf(entry[..], slot)
    }

    /** tokenizer_table_init. */
    constructor (hash: Key -> nat, expected: nat)
      ensures Valid() && Contents() == map[] && this.hash == hash && fresh(entry)
      ensures entry.Length >= 2 * expected + 16 && IsPow2(entry.Length)
    {
      this.hash := hash;
      var cap := NextPow2(expected * 2 + 16);
      entry := new Entry[cap](_ => Entry(false, [], 0));
      used, slot := 0, map[];
    }

    /** The probe loop of put and get: the slot of k, or the first empty one. */
    method Locate(k: Key) returns (i: nat)
      requires Valid() && used < entry.Length
      ensures i < entry.Length
      ensures k in slot ==> i == slot[k]
      ensures k !in slot ==> !entry[i].used && Chain(entry[..], hash(k) % entry.Length, i)
    {
      ghost var hole := Hole(entry[..], slot, hash);
      var cap := entry.Length;
      var h := hash(k) % cap;
      i := h;
      ghost var d := 0;
      while entry[i].used
        invariant d <= Dist(h, hole, cap) && i == Probe(h, d, cap)
        invariant Passed(entry[..], h, d, k)
        decreases cap - d
      {
        if entry[i].key == k { return; }
        ProbeIsMod(h, d, cap);
        d := d + 1;
        i := (i + 1) % cap;
      }
      DistUnique(h, d, cap);
      if k in slot { NotPassed(entry[..], slot, hash, k, d); }
    }

    /** tokenizer_table_get. */
    method Get(k: Key) returns (r: Option<int>)
      requires Valid() && used < entry.Length
      ensures r == if k in Contents() then Some(Contents()[k]) else None
    {
      var i := Locate(k);
      if entry[i].used { return Some(entry[i].value); }
      return None;
    }

    /** tokenizer_table_put. */
    method Put(k: Key, value: int)
      requires Valid() && used < entry.Length
      modifies this, entry
      ensures Valid() && Contents() == old(Contents())[k := value]
    {
      var i := Locate(k);
      ghost var es := entry[..];
      if entry[i].used {
        PutOld(es, slot, hash, k, value);
        entry[i] := entry[i].(value := value);
        assert entry[..] == es[i := es[i].(value := value)];
      } else {
        PutNew(es, slot, hash, k, value, i);
        entry[i] := Entry(true, k, value);
        assert entry[..] == es[i := Entry(true, k, value)];
        used := used + 1;
        slot := slot[k := i];
      }
    }
  }

  /** The first d probes from h met taken slots with other keys. */
  ghost predicate Passed(es: seq<Entry>, h: nat, d: nat, k: Key)
    requires h < |es| && d <= |es|
  {
    forall e :: 0 <= e < d ==> es[Probe(h, e, |es|)].used && es[Probe(h, e, |es|)].key != k
  }

  /** An empty slot after d foreign keys means that k is not in the table. */
  lemma NotPassed(es: seq<Entry>, slot: map<Key, nat>, hash: Key -> nat, k: Key, d: nat)
    requires Ok(es, slot, hash) && d < |es| && !es[Probe(hash(k) % |es|, d, |es|)].used
    requires Passed(es, hash(k) % |es|, d, k)
    ensures k !in slot
  {
  }

  // ------------------------------------------------------------------ whole runs

  function Distinct(puts: seq<(Key, int)>): set<Key> {
    set p | p in puts :: p.0
  }

  /** The last value put for every key. */
  function Last(puts: seq<(Key, int)>): map<Key, int> {
    if puts == [] then map[] else Last(puts[..|puts| - 1])[puts[|puts| - 1].0 := puts[|puts| - 1].1]
  }

  lemma {:induction false} LastKeys(puts: seq<(Key, int)>)
    ensures Last(puts).Keys == Distinct(puts)
  {
    if puts != [] {
      var n := |puts| - 1;
      LastKeys(puts[..n]);
      assert puts == puts[..n] + [puts[n]];
    }
  }

  lemma FewKeys(puts: seq<(Key, int)>, n: nat)
    requires n <= |puts|
    ensures |Last(puts[..n])| <= |Distinct(puts)|
  {
    LastKeys(puts[..n]);
    Subset(Distinct(puts[..n]), Distinct(puts));
    assert |Last(puts[..n])| == |Last(puts[..n]).Keys|;
  }

  /** Any sequence of puts with at most `expected` distinct keys, as the vocabulary
      loader does: the table never runs full, so every probe loop ends, and it maps
      each key to the last value put. */
  method Fill(hash: Key -> nat, puts: seq<(Key, int)>, expected: nat) returns (t: Table)
    requires |Distinct(puts)| <= expected
    ensures fresh(t) && t.Valid() && t.used < t.entry.Length && t.Contents() == Last(puts)
  {
    hide Ok, ContentsOf, Distinct;
    t := new Table(hash, expected);
    var n := 0;
    assert puts[..0] == [];
    FewKeys(puts, 0);
    while n < |puts|
      invariant 0 <= n <= |puts| && t.Valid() && fresh(t) && fresh(t.entry)
      invariant t.entry.Length >= 2 * expected + 16
      invariant t.Contents() == Last(puts[..n])
    {
      assert puts[..n + 1][..n] == puts[..n];
      FewKeys(puts, n);
      UsedIsSize(t.entry[..], t.slot, t.hash);
      t.Put(puts[n].0, puts[n].1);
      n := n + 1;
    }
    FewKeys(puts, n);
    UsedIsSize(t.entry[..], t.slot, t.hash);
    assert puts[..n] == puts;
  }

  lemma UsedIsSize(es: seq<Entry>, slot: map<Key, nat>, hash: Key -> nat)
    requires Ok(es, slot, hash)
    ensures |ContentsOf(es, slot)| == |slot|
  {
    assert ContentsOf(es, slot).Keys == slot.Keys;
    assert |slot| == |slot.Keys|;
  }
}
