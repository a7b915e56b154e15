/** The iterator of src/rax.c: raxSeek, raxNext and raxPrev over a tree that is
    not changed meanwhile. The position is an index into the sorted entries. */
module RaxIterator {
  import opened Common
  import opened RaxTree
  import opened RaxContents
  import opened RaxWalk
  import opened RaxSteps
  import opened RaxSeek
  import Rax

  /** The entry at a place holding a key, and its index. */
  lemma PlaceIndex(head: Node, st: seq<Frame>, h: Node)
    requires Place(head, st, h) && h.slot.Present?
    ensures var es, i := At([], head), |Before(st)|;
            && i < |es| && es[i] == (Path(st), h.slot.data)
            && es[..i] == Before(st) && es[i + 1..] == Rest(st, h)
  {
    hide Kids, Less, Before, After, Plug, At;
    CutAtChild(head, st, h, 0);
    NoneBetweenAt(Path(st), h, 0);
    var b, o, r := Before(st), Own(Path(st), h), Rest(st, h);
    assert b + o + [] + r == b + o + r;
  }

  lemma TopCut(head: Node)
    requires Wf(head)
    ensures Place(head, [], head) && Path([]) == [] && At([], head) == Before([]) + At([], head)
  {
  }

  lemma TopPlug(h: Node)
    ensures Plug([], h) == h
  {
  }

  /** A head without children holds the only key there can be. */
  lemma TopKey(head: Node)
    requires Wf(head) && At([], head) != [] && head.chars == []
    ensures head.slot.Present?
  {
  }

  /** The operator argument of raxSeek, read byte by byte. */
  function ParseOp(op: string): Option<Op> {
    if op == "" then None
    else
      var orEqual := |op| > 1 && op[1] == '=';
      if op[0] == '>' then Some(if orEqual then Ge else Gt)
      else if op[0] == '<' then Some(if orEqual then Le else Lt)
      else if op[0] == '=' then Some(Eq)
      else if op[0] == '^' then Some(First)
      else if op[0] == '$' then Some(Last)
      else None
  }

  /** What each operator of raxSeek asks for, by its characters. */
  lemma OperatorMeans(op: string, ele: Key, k: Key)
    ensures ParseOp(op).Some? <==> op != "" && op[0] in "^$><="
    ensures ParseOp(op).Some? && op[0] in "^$" ==> Matches(ParseOp(op).value, ele, k)
    ensures ParseOp(op).Some? && op[0] == '=' ==> (Matches(ParseOp(op).value, ele, k) <==> k == ele)
    ensures ParseOp(op).Some? && op[0] == '>' ==>
              (Matches(ParseOp(op).value, ele, k) <==> Less(ele, k) || (op[1..] != "" && op[1] == '=' && k == ele))
    ensures ParseOp(op).Some? && op[0] == '<' ==>
              (Matches(ParseOp(op).value, ele, k) <==> Less(k, ele) || (op[1..] != "" && op[1] == '=' && k == ele))
  {
    hide Less;
  }

  /** And which match it lands on: the first one, or for "$" and "<" the last one. */
  lemma OperatorLands(op: string, ele: Key, es: seq<Entry>, i: nat)
    requires ParseOp(op).Some? && Lands(ParseOp(op).value, ele, es, i)
    ensures i < |es| && Matches(ParseOp(op).value, ele, es[i].0)
    ensures op[0] in "^>=" ==> forall k :: 0 <= k < i ==> !Matches(ParseOp(op).value, ele, es[k].0)
    ensures op[0] in "$<" ==> forall k :: i < k < |es| ==> !Matches(ParseOp(op).value, ele, es[k].0)
  {
    hide Matches;
  }

  lemma FirstIsGeEmpty(ele: Key, es: seq<Entry>)
    ensures NoMatch(Ge, [], es) <==> NoMatch(First, ele, es)
    ensures forall i :: Lands(Ge, [], es, i) ==> Lands(First, ele, es, i)
  {
  }

  class Iterator {
    const rt: Rax.Rax
    var eof: bool
    var justSeeked: bool
    var key: Key
    var data: Ptr
    var node: Node
    var stack: seq<Frame>

    ghost function Entries(): seq<Entry>
      reads rt
    {
      At([], rt.head)
    }

    /** The iterator stands on entry i: key is the path of node, data its value. */
    ghost predicate On(i: int)
      reads this, rt
    {
      && !eof && Place(rt.head, stack, node) && key == Path(stack)
      && node.slot == Present(data) && i == |Before(stack)|
    }

    ghost predicate Valid()
      reads this, rt
    {
      rt.Valid() && (eof || exists i :: On(i))
    }

    /** raxStart. */
    constructor (rt: Rax.Rax)
      requires rt.Valid()
      ensures Valid() && this.rt == rt && eof
    {
      this.rt := rt;
      eof, justSeeked, key, data, node, stack := true, false, [], 0, EMPTY_NODE, [];
    }

    /** What On means in terms of the entries. */
    lemma OnEntry(i: int)
      requires On(i)
      ensures 0 <= i < |Entries()| && Entries()[i] == (key, data)
      ensures Entries()[..i] == Before(stack) && Entries()[i + 1..] == Rest(stack, node)
    {
      PlaceIndex(rt.head, stack, node);
    }

    /** raxNext: false at the end of the iteration. */
    method Next(ghost i: int) returns (ok: bool)
      requires Valid() && (!eof ==> On(i))
      modifies this
      ensures Valid() && (ok <==> !eof) && (ok ==> !justSeeked)
      ensures old(eof) ==> eof
      ensures !old(eof) && old(justSeeked) ==> ok && On(i)
      ensures !old(eof) && !old(justSeeked) && i + 1 < |Entries()| ==> ok && On(i + 1)
      ensures !old(eof) && !old(justSeeked) && i + 1 >= |Entries()| ==> eof
    {
      if eof { return false; }
      if justSeeked {
        justSeeked := false;
        assert On(i);
        return true;
      }
      OnEntry(i);
      ok := StepForward(false, 0, Entries()[i + 1..]);
    }

    /** raxPrev: false at the start of the iteration. */
    method Prev(ghost i: int) returns (ok: bool)
      requires Valid() && (!eof ==> On(i))
      modifies this
      ensures Valid() && (ok <==> !eof) && (ok ==> !justSeeked)
      ensures old(eof) ==> eof
      ensures !old(eof) && old(justSeeked) ==> ok && On(i)
      ensures !old(eof) && !old(justSeeked) && i > 0 ==> ok && On(i - 1)
      ensures !old(eof) && !old(justSeeked) && i == 0 ==> eof
    {
      if eof { return false; }
      if justSeeked {
        justSeeked := false;
        assert On(i);
        return true;
      }
      OnEntry(i);
      ok := StepBackward(false, 0, Entries()[..i]);
    }

    /** raxIteratorNextStep on the fields. */
    method StepForward(noup: bool, ghost g: nat, ghost todo: seq<Entry>) returns (ok: bool)
      requires rt.Valid() && !eof && Place(rt.head, stack, node)
      requires noup ==> NoUp(stack, node, key) && |key| >= 1 && Visiting(stack, node, key[|key| - 1], g, todo)
      requires !noup ==> key == Path(stack) && todo == Rest(stack, node)
      modifies this
      ensures Valid() && ok == !eof && justSeeked == old(justSeeked)
      ensures ok <==> todo != []
      ensures ok ==> On(|Entries()| - |todo|)
    {
      var st, h, k;
      eof, st, h, k := NextStep(rt.head, stack, node, key, noup, g, todo);
      stack, node, key := st, h, k;
      if !eof {
        data := node.slot.data;
        PlaceIndex(rt.head, stack, node);
        assert On(|Entries()| - |todo|);
      }
      return !eof;
    }

    /** raxIteratorPrevStep on the fields. */
    method StepBackward(noup: bool, ghost g: nat, ghost done: seq<Entry>) returns (ok: bool)
      requires rt.Valid() && !eof && Place(rt.head, stack, node)
      requires noup ==> NoUp(stack, node, key) && |key| >= 1 && VisitingBack(stack, node, key[|key| - 1], g, done)
      requires !noup ==> key == Path(stack) && done == Before(stack)
      modifies this
      ensures Valid() && ok == !eof && justSeeked == old(justSeeked)
      ensures ok <==> done != []
      ensures ok ==> On(|done| - 1)
    {
      var st, h, k;
      eof, st, h, k := PrevStep(rt.head, stack, node, key, noup, g, done);
      stack, node, key := st, h, k;
      if !eof {
        data := node.slot.data;
        assert On(|done| - 1);
      }
      return !eof;
    }
  
    /** The key of the node on the stack, rebuilt from the parents. */
    method RebuildKey() returns (k: Key)
      ensures k == Path(stack)
    {
      k := [];
      var j := 0;
      while j < |stack|
        invariant j <= |stack| && k == Path(stack[..j])
      {
        assert stack[..j + 1][..j] == stack[..j];
        k := k + Label(stack[j].node, stack[j].idx);
        j := j + 1;
      }
      assert stack[..|stack|] == stack;
    }

    /** raxSeek with "^" or "$". */
    method SeekGreatestKey()
      requires rt.Valid() && rt.numele > 0 && !eof
      modifies this
      ensures On(|Entries()| - 1) && justSeeked == old(justSeeked)
    {
      hide At, Kids, Less, Plug, Path, Before, After;
      TopCut(rt.head);
      stack, node, key := SeekGreatest(rt.head, [], rt.head, [], Entries());
      if stack == [] { TopPlug(node); TopKey(rt.head); }
      OwnIs(key, node);
      data := node.slot.data;
    }

    /** raxSeek: false for an operator it does not know. */
    method Seek(op: string, ele: Key) returns (ok: bool)
      requires rt.Valid()
      modifies this
      ensures ok <==> ParseOp(op).Some?
      ensures ok ==> Valid() && justSeeked
      ensures ok ==> (eof <==> NoMatch(ParseOp(op).value, ele, Entries()))
      ensures ok && !eof ==> exists i :: On(i) && Lands(ParseOp(op).value, ele, Entries(), i)
      decreases op != ">="
    {
      stack, justSeeked, eof, key, node := [], true, false, [], EMPTY_NODE;
      var o := ParseOp(op);
      if o.None? { return false; }
      if rt.numele == 0 {
        eof := true;
        return true;
      }
      if o.value.First? {
        ok := Seek(">=", []);
        FirstIsGeEmpty(ele, Entries());
        return true;
      }
      if o.value.Last? {
        SeekGreatestKey();
        assert Lands(o.value, ele, Entries(), |Entries()| - 1);
        return true;
      }
      ok := true;
      SeekProbe(o.value, ele);
    }

    /** After the lookup of raxSeek: the walk stopped at node, whose path is key. */
    ghost predicate Stopped(op: Op, ele: Key, i: nat, j: nat)
      reads this, rt
    {
      && rt.Valid() && !eof && Place(rt.head, stack, node) && key == Path(stack)
      && Path(stack) <= ele && i == |Path(stack)| + j && i <= |ele|
      && Stops(node, ele[|Path(stack)|..], j)
      && (op.Gt? || op.Ge? || op.Lt? || op.Le?)
      && (op.Ge? || op.Le? ==> Path(stack) == ele ==> node.slot.Absent?)
    }

    ghost predicate Landed(op: Op, ele: Key)
      reads this, rt
    {
      && Valid()
      && (eof <==> NoMatch(op, ele, Entries()))
      && (!eof ==> exists i :: On(i) && Lands(op, ele, Entries(), i))
    }

    /** The probe has no edge at a normal node. */
    method SeekNormalMiss(op: Op, ele: Key, i: nat)
      requires Stopped(op, ele, i, 0) && i < |ele| && !node.compr
      modifies this
      ensures Landed(op, ele)
    {
      hide At, Kids, Path, Before, After, Plug, Less, Own;
      var lt := op.Lt? || op.Le?;
      ghost var g := FindAbove(node.chars, ele[i]);
      StopDivides(rt.head, stack, node, ele, 0, g);
      key := key + [ele[i]];
      justSeeked := false;
      if lt {
        LandBefore(rt.head, stack, node, g, op, ele);
        ghost var done := Before(stack) + Own(Path(stack), node) + Kids(Path(stack), node, 0, g);
        var _ := StepBackward(true, g, done);
      } else {
        LandAfter(rt.head, stack, node, g, op, ele);
        ghost var todo := Kids(Path(stack), node, g, |node.kids|) + After(stack);
        var _ := StepForward(true, g, todo);
      }
    }

    /** The probe differs inside a compressed node. */
    method SeekComprMiss(op: Op, ele: Key, i: nat, splitpos: nat)
      requires Stopped(op, ele, i, splitpos) && i < |ele| && node.compr
      modifies this
      ensures Landed(op, ele)
    {
      hide At, Kids, Path, Before, After, Plug, Less, Own;
      var gt := op.Gt? || op.Ge?;
      var nodechar, keychar := node.chars[splitpos], ele[i];
      ghost var g := if nodechar < keychar then |node.kids| else 0;
      StopDivides(rt.head, stack, node, ele, splitpos, g);
      NoneBetweenAt(Path(stack), node, |node.kids|);
      justSeeked := false;
      if gt {
        LandAfter(rt.head, stack, node, g, op, ele);
        ghost var todo := Kids(Path(stack), node, g, |node.kids|) + After(stack);
        if nodechar > keychar {
          var _ := StepForward(false, 0, todo);
        } else {
          key := key + node.chars;
          var _ := StepForward(true, g, todo);
        }
      } else {
        LandBefore(rt.head, stack, node, g, op, ele);
        ghost var done := Before(stack) + Own(Path(stack), node) + Kids(Path(stack), node, 0, g);
        if nodechar < keychar {
          SeekBelow(done);
        } else {
          key := key + node.chars;
          var _ := StepBackward(true, g, done);
        }
      }
    }

    /** raxSeekGreatest from a node that has children. */
    method SeekBelow(ghost done: seq<Entry>)
      requires rt.Valid() && !eof && Place(rt.head, stack, node) && key == Path(stack) && node.kids != []
      requires done == Before(stack) + Own(Path(stack), node) + Kids(Path(stack), node, 0, |node.kids|)
      modifies this
      ensures Valid() && !eof && done != [] && On(|done| - 1)
    {
      hide At, Kids, Path, Before, After, Plug, Less;
      AtDef(Path(stack), node);
      assert done == Before(stack) + At(Path(stack), node);
      var st, h, k := SeekGreatest(rt.head, stack, node, key, done);
      stack, node, key := st, h, k;
      data := node.slot.data;
      assert On(|done| - 1);
    }

    /** The probe ends at node or inside its edge. */
    method SeekNoMiss(op: Op, ele: Key, splitpos: nat)
      requires Stopped(op, ele, |ele|, splitpos)
      modifies this
      ensures Landed(op, ele)
    {
      hide At, Kids, Path, Before, After, Plug, Less, Own;
      var lt := op.Lt? || op.Le?;
      StopDivides(rt.head, stack, node, ele, splitpos, 0);
      NoneBetweenAt(Path(stack), node, 0);
      OwnIs(Path(stack), node);
      justSeeked := false;
      if node.compr && node.slot.Present? && splitpos != 0 && lt {
        data := node.slot.data;
        LandBefore(rt.head, stack, node, 0, op, ele);
        assert On(|Before(stack)|);
      } else if lt {
        LandBefore(rt.head, stack, node, 0, op, ele);
        var _ := StepBackward(false, 0, Before(stack));
      } else {
        LandAfter(rt.head, stack, node, 0, op, ele);
        var _ := StepForward(false, 0, Rest(stack, node));
      }
    }

    lemma ExactHit(op: Op, ele: Key)
      requires rt.Valid() && !eof && Place(rt.head, stack, node) && key == Path(stack) == ele
      requires node.slot == Present(data) && (op.Ge? || op.Le? || op.Eq?)
      ensures Valid() && On(|Before(stack)|) && Lands(op, ele, Entries(), |Before(stack)|)
      ensures !NoMatch(op, ele, Entries())
    {
      assert On(|Before(stack)|);
      OnEntry(|Before(stack)|);
      AtAscending([], rt.head);
      LandExact(op, ele, Entries(), |Before(stack)|);
    }

    /** The lookup part of raxSeek, for ">", ">=", "<", "<=" and "=". */
    method SeekProbe(op: Op, ele: Key)
      requires rt.Valid() && !eof && justSeeked && !op.First? && !op.Last?
      modifies this
      ensures Valid() && justSeeked
      ensures eof <==> NoMatch(op, ele, Entries())
      ensures !eof ==> exists i :: On(i) && Lands(op, ele, Entries(), i)
    {
      hide At, Kids, Path, Before, After, Plug, Less, Own, Rest, Walk, MapOf;
      var eq := op.Ge? || op.Le? || op.Eq?;
      var lt := op.Lt? || op.Le?;
      var gt := op.Gt? || op.Ge?;
      var i, h, splitpos, ts := LowWalk(rt.head, ele);
      node, stack := h, ts;
      StopDecides(ts, h, ele, splitpos);
      if eq && i == |ele| && (!node.compr || splitpos == 0) && node.slot.Present? {
        key := ele;
        data := node.slot.data;
        ExactHit(op, ele);
        return;
      }
      if !lt && !gt {
        eof := true;
        MapOfKeys(Entries(), ele);
        return;
      }
      key := RebuildKey();
      if i != |ele| && !node.compr {
        SeekNormalMiss(op, ele, i);
      } else if i != |ele| {
        SeekComprMiss(op, ele, i, splitpos);
      } else {
        SeekNoMiss(op, ele, splitpos);
      }
      ghost var at := if eof then 0 else |Before(stack)|;
      assert eof || (On(at) && Lands(op, ele, Entries(), at));
      justSeeked := true;
      assert eof || On(at);
    }
  }
}
