/** Which pairs the SentencePiece encoder joins, said of the strings and scores of the model
    file that vocab_load_for_spm (src/core.c) reads. */
module SpmJoins {
  import opened Common
  import opened ByteMap
  import opened Vocabulary
  import opened Spm
  import opened MergeList
  import Bpe

  ghost predicate FromFile(v: Vocab, strings: seq<Bytes>, scores: seq<real>) {
    v.pieces == Cuts(strings) && v.ids == TableOf(Cuts(strings)) && Scored(v, scores)
  }

  /** Pieces i and i + 1 together are the last string id that reads so. */
  ghost predicate Joins(strings: seq<Bytes>, ps: seq<Bytes>, i: int, id: int) {
    0 <= i < |ps| - 1 && LastAt(strings, ps[i] + ps[i + 1], id)
  }

  /** That string has the highest score of all such pairs, and a higher one than any before. */
  ghost predicate Highest(strings: seq<Bytes>, scores: seq<real>, ps: seq<Bytes>, i: int, id: int)
    requires |scores| == |strings|
  {
    && Joins(strings, ps, i, id)
    && forall j, e :: Joins(strings, ps, j, e) ==> scores[e] < scores[id] || (scores[e] == scores[id] && i <= j)
  }

  lemma JoinsIs(v: Vocab, strings: seq<Bytes>, scores: seq<real>, ps: seq<Bytes>, i: nat)
    requires FromFile(v, strings, scores) && i + 1 < |ps|
    ensures CanJoin(v, ps, i) ==> Joins(strings, ps, i, v.ids[ps[i] + ps[i + 1]])
    ensures forall id :: Joins(strings, ps, i, id) ==> CanJoin(v, ps, i) && v.ids[ps[i] + ps[i + 1]] == id
  {
    hide TableOf, Cuts, Reads;
    var key := ps[i] + ps[i + 1];
    TableLast(strings, key);
    forall id | Joins(strings, ps, i, id) ensures CanJoin(v, ps, i) && v.ids[key] == id {
      ReadShort(strings[id], key);
      LastUnique(strings, key, id, v.ids[key]);
    }
  }

  lemma SameSizes(v: Vocab, strings: seq<Bytes>, scores: seq<real>)
    requires FromFile(v, strings, scores)
    ensures |scores| == |strings| && Sound(v) && Scored(v, scores)
  {
  }

  lemma HighestIsBest(v: Vocab, strings: seq<Bytes>, scores: seq<real>, ps: seq<Bytes>, i: int, id: int)
    requires FromFile(v, strings, scores) && |scores| == |strings| && Highest(strings, scores, ps, i, id)
    ensures 0 <= i && Scored(v, scores) && Best(v, scores, ps, i)
  {
    hide FromFile, LastAt;
    SameSizes(v, strings, scores);
    JoinsIs(v, strings, scores, ps, i);
    forall j: nat | j < |ps| - 1 && CanJoin(v, ps, j)
      ensures Score(v, scores, ps, j) <= Score(v, scores, ps, i) && (j < i ==> Score(v, scores, ps, j) < Score(v, scores, ps, i))
    {
      JoinsIs(v, strings, scores, ps, j);
    }
  }

  /** The loop joins that pair and goes on. */
  lemma JoinsHighest(v: Vocab, strings: seq<Bytes>, scores: seq<real>, ps: seq<Bytes>, i: int, id: int)
    requires FromFile(v, strings, scores) && |scores| == |strings| && Highest(strings, scores, ps, i, id)
    ensures Scored(v, scores) && JoinAll(v, scores, ps) == JoinAll(v, scores, ps[..i] + [ps[i] + ps[i + 1]] + ps[i + 2..])
  {
    hide FromFile, Best, JoinAll;
    HighestIsBest(v, strings, scores, ps, i, id);
    JoinAllStep(v, scores, ps, i);
  }

  /** It stops exactly where no two neighbours are a string of the file. */
  lemma JoinsNone(v: Vocab, strings: seq<Bytes>, scores: seq<real>, ps: seq<Bytes>)
    requires FromFile(v, strings, scores)
    ensures Scored(v, scores) && (JoinAll(v, scores, ps) == ps <==> forall i, id :: !Joins(strings, ps, i, id))
    ensures forall i, id :: !Joins(strings, JoinAll(v, scores, ps), i, id)
  {
    hide FromFile, Best, JoinAll, LastAt, Concat;
    SameSizes(v, strings, scores);
    JoinAllFacts(v, scores, ps);
    var r := JoinAll(v, scores, ps);
    forall i, id | Joins(strings, r, i, id) ensures false {
      JoinsIs(v, strings, scores, r, i);
    }
    if forall i, id :: !Joins(strings, ps, i, id) {
      forall i: nat | i + 1 < |ps| ensures !CanJoin(v, ps, i) {
        JoinsIs(v, strings, scores, ps, i);
      }
      NoBest(v, scores, ps);
      JoinAllEnds(v, scores, ps);
    }
  }

  lemma NoBest(v: Vocab, scores: seq<real>, ps: seq<Bytes>)
    requires Scored(v, scores) && forall i: nat :: i + 1 < |ps| ==> !CanJoin(v, ps, i)
    ensures !exists i :: Best(v, scores, ps, i)
  {
  }

  /** What is emitted for a piece: the last string that reads so, or else one token for each
      of its bytes that has one. */
  lemma PieceEmits(v: Vocab, strings: seq<Bytes>, scores: seq<real>, p: Bytes)
    requires FromFile(v, strings, scores)
    ensures Sound(v) && forall id :: LastAt(strings, p, id) ==> PieceTokens(v, p) == [id]
    ensures (forall id :: 0 <= id < |strings| ==> !Reads(strings[id], p)) ==> PieceTokens(v, p) == Bpe.ByteIds(v, p)
  {
    hide TableOf, Cuts, Reads;
    TableLast(strings, p);
    forall id | LastAt(strings, p, id) ensures PieceTokens(v, p) == [id] {
      LastUnique(strings, p, id, v.ids[p]);
    }
  }
}
