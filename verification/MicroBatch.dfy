/** Whole runs of a session, from its creation through any calls of graph_execute: what they
    leave does not depend on the micro-batch size nor on how the tokens are cut into calls. */
module MicroBatch {
  import opened Graph
  import opened GraphValue
  import opened Executor

  function Flat(calls: seq<seq<Word>>): seq<Word> {
    if calls == [] then [] else Flat(calls[..|calls| - 1]) + calls[|calls| - 1]
  }

  lemma FlatStep(calls: seq<seq<Word>>, k: nat)
    requires k < |calls|
    ensures Flat(calls[..k + 1]) == Flat(calls[..k]) + calls[k]
  {
    assert calls[..k + 1][..k] == calls[..k];
  }

  lemma {:induction false} FlatPart(calls: seq<seq<Word>>, k: nat)
    requires k <= |calls|
    ensures |Flat(calls[..k])| <= |Flat(calls)|
    decreases |calls| - k
  {
    if k < |calls| {
      FlatStep(calls, k);
      FlatPart(calls, k + 1);
    } else {
      assert calls[..k] == calls;
    }
  }

  /** The logits that the sink does not fill are those of `was`. */
  ghost predicate SameTail(s: Session, was: RowData, now: RowData) {
    |was| == |now| == s.nVocab && forall k :: s.Shown() <= k < s.nVocab ==> now[k] == was[k]
  }

  lemma StartTail(s: Session)
    requires |s.logits| == s.nVocab
    ensures SameTail(s, s.logits, s.logits)
  {
  }

  lemma TailOn(s: Session, start: RowData, was: RowData)
    requires SameTail(s, start, was) && s.TailIs(was)
    ensures SameTail(s, start, s.logits)
  {
  }

  lemma TailFrom(s: Session, start: RowData)
    requires SameTail(s, start, s.logits)
    ensures s.TailIs(start)
  {
  }

  /** One call after the other, on a new session. */
  method RunCalls(s: Session, calls: seq<seq<Word>>) returns (ok: bool)
    requires s.Wf() && s.Synced([]) && (forall c :: c in calls ==> c != []) && calls != []
    modifies s.arena, s.kc, s.vc, s.state, s.tokens, s
    ensures ok <==> |Flat(calls)| <= s.ctxSize
    ensures ok ==> s.Synced(Flat(calls)) && Flat(calls) != [] && s.LogitsAre(Flat(calls), |Flat(calls)| - 1)
    ensures s.TailIs(old(s.logits))
  {
    hide *;
    SyncedFacts(s, []);
    StartTail(s);
    NoCalls(calls);
    var k := 0;
    while k < |calls|
      invariant 0 <= k <= |calls| && s.Synced(Flat(calls[..k]))
      invariant k > 0 ==> Flat(calls[..k]) != [] && s.LogitsAre(Flat(calls[..k]), |Flat(calls[..k])| - 1)
      invariant SameTail(s, old(s.logits), s.logits)
    {
      assert calls[k] in calls;
      ghost var was := s.logits;
      FlatStep(calls, k);
      FlatPart(calls, k + 1);
      ok := s.Execute(calls[k], Flat(calls[..k]));
      TailOn(s, old(s.logits), was);
      if !ok {
        TailFrom(s, old(s.logits));
        return false;
      }
      SyncedFacts(s, Flat(calls[..k + 1]));
      k := k + 1;
    }
    assert calls[..k] == calls;
    TailFrom(s, old(s.logits));
    SyncedFacts(s, Flat(calls));
    return true;
  }

  lemma NoCalls(calls: seq<seq<Word>>)
    ensures Flat(calls[..0]) == []
  {
  }

  lemma SyncedFacts(s: Session, t: seq<Word>)
    requires s.Wf() && s.Synced(t)
    ensures |s.logits| == s.nVocab && s.nTokens == |t| <= s.ctxSize
  {
  }

  /** A session from its creation through the calls. */
  method Play(m: Model, g: seq<GraphNode>, ctxSize: nat, nUbatch: nat, nVocab: nat, nLayers: nat, nStates: nat,
              calls: seq<seq<Word>>)
    returns (s: Session, ok: bool)
    requires Buildable(m, g, nLayers, nStates) && nUbatch >= 1 && g[0].ne0 == nUbatch
    requires calls != [] && forall c :: c in calls ==> c != []
    ensures fresh(s) && s.Wf() && s.m == m && s.g == g && s.nUbatch == nUbatch && s.nVocab == nVocab
    ensures ok <==> |Flat(calls)| <= ctxSize
    ensures ok ==> s.Synced(Flat(calls)) && Flat(calls) != [] && s.LogitsAre(Flat(calls), |Flat(calls)| - 1)
    ensures s.TailIs(seq(nVocab, _ => Float(0.0)))
  {
    hide *;
    s := new Session(m, g, ctxSize, nUbatch, nVocab, nLayers, nStates);
    ok := RunCalls(s, calls);
  }

  /** Sessions of one computation that have processed the same tokens agree on all logits. */
  lemma SameLogits(s1: Session, s2: Session, t: seq<Word>)
    requires s1.Wf() && s2.Wf() && s1.m == s2.m && SameCode(s1.g, s2.g) && s1.nVocab == s2.nVocab
    requires s1.Synced(t) && s2.Synced(t) && t != [] && s1.LogitsAre(t, |t| - 1) && s2.LogitsAre(t, |t| - 1)
    requires var zeros: RowData := seq(s1.nVocab, _ => Float(0.0)); s1.TailIs(zeros) && s2.TailIs(zeros)
    ensures s1.logits == s2.logits
  {
    hide *;
    SinkWidth(s1, t);
    SinkWidth(s2, t);
    SameOutcome(s1, s2, t);
    SinkAgrees(s1, s2, t);
    var zeros: RowData := seq(s1.nVocab, _ => Float(0.0));
    Whole(s1, s2, zeros);
  }

  lemma Whole(s1: Session, s2: Session, zeros: RowData)
    requires s1.nVocab == s2.nVocab && s1.Shown() == s2.Shown() <= s1.nVocab && s1.TailIs(zeros) && s2.TailIs(zeros)
    requires s1.logits[..s1.Shown()] == s2.logits[..s1.Shown()]
    ensures s1.logits == s2.logits
  {
    var k := s1.Shown();
    forall i | 0 <= i < s1.nVocab ensures s1.logits[i] == s2.logits[i] {
      if i < k { assert s1.logits[..k][i] == s2.logits[..k][i]; }
    }
  }

  lemma GraphFacts(s: Session)
    requires s.Wf()
    ensures Backward(s.g) && |s.g| >= 2
  {
    s.OnlyInput();
  }

  lemma SameLength(g: seq<GraphNode>, h: seq<GraphNode>)
    requires SameCode(g, h)
    ensures |g| == |h|
  {
  }

  lemma SinkAgrees(s1: Session, s2: Session, t: seq<Word>)
    requires s1.Wf() && s2.Wf() && s1.m == s2.m && SameCode(s1.g, s2.g) && t != []
    ensures |s1.g| >= 2 && |s2.g| >= 2
    ensures Val(s1.m, s1.g, t, |s1.g| - 1, |t| - 1) == Val(s2.m, s2.g, t, |s2.g| - 1, |t| - 1)
  {
    hide *;
    GraphFacts(s1);
    GraphFacts(s2);
    SameLength(s1.g, s2.g);
    SameVal(s1.m, s1.g, s2.g, t, |s1.g| - 1, |t| - 1);
  }

  /** What the sink gives is as wide as planned. */
  lemma SinkWidth(s: Session, t: seq<Word>)
    requires s.Wf() && t != []
    ensures |s.g| >= 2
    ensures var w := |Val(s.m, s.g, t, |s.g| - 1, |t| - 1)|; s.Shown() == if w < s.nVocab then w else s.nVocab
    ensures s.Synced(t) ==> |s.logits| == s.nVocab
  {
    s.OnlyInput();
  }

  /** The whole theorem: two sessions of one computation, created with any two capacities
      and context sizes and driven through any two lists of calls with the same tokens that
      fit them, end with the same caches, states and logits. */
  method AnyChunks(m: Model, g: seq<GraphNode>, h: seq<GraphNode>, ctx1: nat, ctx2: nat, u1: nat, u2: nat,
                   nVocab: nat, nLayers: nat, nStates: nat, calls1: seq<seq<Word>>, calls2: seq<seq<Word>>)
    returns (s1: Session, s2: Session, ok1: bool, ok2: bool)
    requires Buildable(m, g, nLayers, nStates) && Buildable(m, h, nLayers, nStates) && SameCode(g, h)
    requires u1 >= 1 && u2 >= 1 && g[0].ne0 == u1 && h[0].ne0 == u2
    requires calls1 != [] && calls2 != [] && Flat(calls1) == Flat(calls2)
    requires (forall c :: c in calls1 ==> c != []) && (forall c :: c in calls2 ==> c != [])
    ensures fresh(s1) && fresh(s2) && s1.g == g && s2.g == h && s1.nUbatch == u1 && s2.nUbatch == u2
    ensures (ok1 <==> |Flat(calls1)| <= ctx1) && (ok2 <==> |Flat(calls2)| <= ctx2)
    ensures ok1 && ok2 ==> s1.logits == s2.logits && s1.nTokens == s2.nTokens == |Flat(calls1)|
    ensures ok1 && ok2 ==> forall a :: 0 <= a < |g| && g[a].op.Attn? ==> s1.SameKv(s2, a, |Flat(calls1)|)
    ensures ok1 && ok2 ==> forall a :: 0 <= a < |g| && g[a].op.Recur? ==> s1.SameState(s2, a)
  {
    hide *;
    s1, ok1 := Play(m, g, ctx1, u1, nVocab, nLayers, nStates, calls1);
    s2, ok2 := Play(m, h, ctx2, u2, nVocab, nLayers, nStates, calls2);
    if ok1 && ok2 {
      SameOutcome(s1, s2, Flat(calls1));
      SyncedFacts(s1, Flat(calls1));
      SameLogits(s1, s2, Flat(calls1));
    }
  }
}
