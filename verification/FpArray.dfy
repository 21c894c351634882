/** The packed array that replaces an FP-tree: transform_FPTree_into_FPArray. */
module FpArray {
  import opened FpForest

  /** Where the items above a node begin in the array, and the count of the node. */
  datatype Entry = Entry(begin: nat, count: nat)

  datatype Packed = Packed(items: seq<nat>, nodes: seq<seq<Entry>>)

  /** Reading from b up to the mark gives the items anc from the last to the first. */
  predicate Reads(a: seq<nat>, b: nat, anc: seq<nat>, mark: nat) {
    && b + |anc| < |a| && a[b + |anc|] == mark
    && forall p :: b <= p < b + |anc| ==> a[p] == anc[|anc| - 1 - (p - b)] && a[p] != mark
  }

  predicate EntryOk(a: seq<nat>, e: Entry, t: Trans, mark: nat) {
    e.count == t.weight && Reads(a, e.begin, t.items, mark)
  }

  /** The entries of all items stand for the given nodes and lie behind position low. */
  ghost predicate AllOk(a: seq<nat>, nodes: seq<seq<Entry>>, done: seq<seq<Trans>>, low: int, mark: nat) {
    && |nodes| == |done|
    && forall x :: 0 <= x < |nodes| ==> ItemOk(a, nodes[x], done[x], low, mark)
  }

  ghost predicate ItemOk(a: seq<nat>, es: seq<Entry>, ts: seq<Trans>, low: int, mark: nat) {
    && |es| == |ts|
    && forall k :: 0 <= k < |es| ==> low < es[k].begin && EntryOk(a, es[k], ts[k], mark)
  }

  lemma StableAll(
        a: seq<nat>, a': seq<nat>, nodes: seq<seq<Entry>>, done: seq<seq<Trans>>, low: int, low': int, mark: nat)
    requires AllOk(a, nodes, done, low, mark) && |a'| == |a| && low' <= low
    requires forall p :: 0 <= p < |a| && low < p ==> a'[p] == a[p]
    ensures AllOk(a', nodes, done, low', mark)
  {
    forall x | 0 <= x < |nodes|
      ensures ItemOk(a', nodes[x], done[x], low', mark)
    {
      assert ItemOk(a, nodes[x], done[x], low, mark);
      forall k | 0 <= k < |nodes[x]|
        ensures EntryOk(a', nodes[x][k], done[x][k], mark)
      {
        assert EntryOk(a, nodes[x][k], done[x][k], mark);
      }
    }
  }

  /** Items are below n, and only leaves hold the item that looks like the mark. */
  predicate Fits(f: Forest, n: nat, mark: nat) {
    match f
    case Nil => true
    case Node(i, _, ch, sb) => i < n && (ch != Nil ==> i < mark) && Fits(ch, n, mark) && Fits(sb, n, mark)
  }

  /** It is so when there are no more items than values of the element type: with 256 items the item
      255 is the mark 0xff, but it is the last item and so never above another. */
  lemma {:induction false} MarkIsLeaf(f: Forest, lo: nat, n: nat, mark: nat)
    requires Trie(f, lo, n) && n <= mark + 1
    ensures Fits(f, n, mark)
  {
    match f {
      case Nil =>
      case Node(i, c, ch, sb) =>
        MarkIsLeaf(ch, i + 1, n, mark);
        MarkIsLeaf(sb, lo, n, mark);
    }
  }

  /** What is still on the stack of siblings: stack[s] has path[..s] above it. */
  function Pending(stack: seq<Forest>, path: seq<nat>, x: nat): seq<Trans>
    requires |stack| <= |path| + 1
  {
    if stack == [] then []
    else
      var s := |stack| - 1;
      Base(stack[s], path[..s], x) + Pending(stack[..s], path, x)
  }

  function PendingLeaves(stack: seq<Forest>): nat {
    if stack == [] then 0
    else LeafSum(stack[|stack| - 1], |stack| - 1) + PendingLeaves(stack[..|stack| - 1])
  }

  /** Pending looks only at the part of the path that is below the top of the stack. */
  lemma {:induction false} PendingPath(stack: seq<Forest>, path: seq<nat>, path': seq<nat>, x: nat)
    requires |stack| <= |path| + 1 && |stack| <= |path'| + 1
    requires forall j :: 0 <= j < |stack| - 1 ==> path[j] == path'[j]
    ensures Pending(stack, path, x) == Pending(stack, path', x)
  {
    if stack != [] {
      var s := |stack| - 1;
      assert path[..s] == path'[..s];
      PendingPath(stack[..s], path, path', x);
    }
  }

  /** One more node is recorded. */
  lemma AddEntry(
        a: seq<nat>, nodes: seq<seq<Entry>>, done: seq<seq<Trans>>, low: int, mark: nat, x: nat, e: Entry, t: Trans)
    requires AllOk(a, nodes, done, low, mark) && x < |nodes| && low < e.begin && EntryOk(a, e, t, mark)
    ensures AllOk(a, nodes[x := nodes[x] + [e]], done[x := done[x] + [t]], low, mark)
  {
    var nodes', done' := nodes[x := nodes[x] + [e]], done[x := done[x] + [t]];
    forall z | 0 <= z < |nodes|
      ensures ItemOk(a, nodes'[z], done'[z], low, mark)
    {
      assert ItemOk(a, nodes[z], done[z], low, mark);
    }
  }

  /** The array under construction holds, from position b downwards, the mark and the path. */
  predicate Written(a: seq<nat>, b: nat, path: seq<nat>, mark: nat) {
    && |path| <= b < |a| && a[b] == mark
    && forall p :: b - |path| <= p < b ==> a[p] == path[b - 1 - p]
  }

  lemma WrittenReads(a: seq<nat>, b: nat, path: seq<nat>, d: nat, mark: nat)
    requires Written(a, b, path, mark) && d <= |path| && forall j :: 0 <= j < d ==> path[j] != mark
    ensures Reads(a, b - d, path[..d], mark)
  {
  }

  /** What is done and what is still to come make up the tree. */
  ghost predicate Complete(f: Forest, done: seq<seq<Trans>>, cur: Forest, stack: seq<Forest>, path: seq<nat>)
    requires |stack| <= |path|
  {
    forall x :: 0 <= x < |done| ==> Base(f, [], x) == done[x] + Base(cur, path[..|stack|], x) + Pending(stack, path, x)
  }

  lemma PendingPush(stack: seq<Forest>, path: seq<nat>, sib: Forest, item: nat, x: nat)
    requires |stack| == |path|
    ensures Pending(stack + [sib], path + [item], x) == Base(sib, path, x) + Pending(stack, path, x)
  {
    var stack', path' := stack + [sib], path + [item];
    assert path'[..|stack|] == path && stack'[..|stack|] == stack;
    PendingPath(stack, path, path', x);
  }

  lemma BaseNode(cur: Forest, path: seq<nat>, x: nat)
    requires cur.Node?
    ensures Base(cur, path, x) ==
            (if cur.item == x then [Trans(path, cur.count)] else []) + Base(cur.child, path + [cur.item], x) +
                Base(cur.sib, path, x)
  {
  }

  /** Recording a node and turning to its children. */
  lemma CompleteStep(f: Forest, done: seq<seq<Trans>>, cur: Forest, stack: seq<Forest>, path: seq<nat>)
    requires |stack| == |path| && Complete(f, done, cur, stack, path) && cur.Node? && cur.item < |done|
    ensures Complete(f, done[cur.item := done[cur.item] + [Trans(path, cur.count)]], cur.child, stack + [cur.sib],
            path + [cur.item])
  {
    hide Pending, Base;
    var done' := done[cur.item := done[cur.item] + [Trans(path, cur.count)]];
    var stack', path' := stack + [cur.sib], path + [cur.item];
    assert path'[..|stack'|] == path' && path[..|stack|] == path;
    forall x | 0 <= x < |done|
      ensures Base(f, [], x) == done'[x] + Base(cur.child, path'[..|stack'|], x) + Pending(stack', path', x)
    {
      PendingPush(stack, path, cur.sib, cur.item, x);
      var own := if cur.item == x then [Trans(path, cur.count)] else [];
      BaseNode(cur, path, x);
      assert done'[x] == done[x] + own;
    }
  }

  ghost predicate CompleteAll(f: Forest, done: seq<seq<Trans>>, stack: seq<Forest>, path: seq<nat>)
    requires |stack| <= |path| + 1
  {
    forall x :: 0 <= x < |done| ==> Base(f, [], x) == done[x] + Pending(stack, path, x)
  }

  lemma CompletePop(f: Forest, done: seq<seq<Trans>>, stack: seq<Forest>, path: seq<nat>)
    requires stack != [] && |stack| <= |path| + 1 && CompleteAll(f, done, stack, path)
    ensures var s := |stack| - 1; Complete(f, done, stack[s], stack[..s], path)
  {
    var s := |stack| - 1;
    forall x | 0 <= x < |done|
      ensures Base(f, [], x) == done[x] + Base(stack[s], path[..|stack[..s]|], x) + Pending(stack[..s], path, x)
    {
      assert Pending(stack, path, x) == Base(stack[s], path[..s], x) + Pending(stack[..s], path, x);
    }
  }

  lemma CompleteCut(f: Forest, done: seq<seq<Trans>>, cur: Forest, stack: seq<Forest>, path: seq<nat>)
    requires |stack| <= |path| && Complete(f, done, cur, stack, path)
    ensures Complete(f, done, cur, stack, path[..|stack|])
  {
    var path' := path[..|stack|];
    forall x | 0 <= x < |done|
      ensures Base(f, [], x) == done[x] + Base(cur, path'[..|stack|], x) + Pending(stack, path', x)
    {
      assert path'[..|stack|] == path[..|stack|];
      PendingPath(stack, path, path', x);
    }
  }

  lemma CompleteNil(f: Forest, done: seq<seq<Trans>>, stack: seq<Forest>, path: seq<nat>)
    requires |stack| <= |path| && Complete(f, done, Nil, stack, path)
    ensures CompleteAll(f, done, stack, path)
  {
    forall x | 0 <= x < |done|
      ensures Base(f, [], x) == done[x] + Pending(stack, path, x)
    {
      assert done[x] + [] == done[x];
    }
  }

  /** A leaf found among the siblings is recorded and its own sibling takes its place. */
  lemma CompleteLeaf(f: Forest, done: seq<seq<Trans>>, cur: Forest, stack: seq<Forest>, path: seq<nat>)
    requires |stack| <= |path| && Complete(f, done, cur, stack, path) && cur.Node? && cur.child == Nil
    requires cur.item < |done|
    ensures CompleteAll(f, done[cur.item := done[cur.item] + [Trans(path[..|stack|], cur.count)]], stack + [cur.sib],
            path)
  {
    var anc := path[..|stack|];
    var done' := done[cur.item := done[cur.item] + [Trans(anc, cur.count)]];
    var stack' := stack + [cur.sib];
    forall x | 0 <= x < |done|
      ensures Base(f, [], x) == done'[x] + Pending(stack', path, x)
    {
      assert stack'[..|stack|] == stack;
      assert Pending(stack', path, x) == Base(cur.sib, anc, x) + Pending(stack, path, x);
      var own := if cur.item == x then [Trans(anc, cur.count)] else [];
      assert Base(cur, anc, x) == own + [] + Base(cur.sib, anc, x);
      assert done'[x] == done[x] + own;
    }
  }

  function Size(f: Forest): nat {
    match f
    case Nil => 1
    case Node(_, _, ch, sb) => 1 + Size(ch) + Size(sb)
  }

  function StackSize(stack: seq<Forest>): nat {
    if stack == [] then 0 else Size(stack[|stack| - 1]) + StackSize(stack[..|stack| - 1])
  }

  predicate AllFit(stack: seq<Forest>, n: nat, mark: nat) {
    forall s :: 0 <= s < |stack| ==> Fits(stack[s], n, mark)
  }

  /** The mark and, before it, the items above a branch. */
  method WriteMark(a: array<nat>, path: seq<nat>, b: nat, mark: nat)
    requires |path| <= b < a.Length
    modifies a
    ensures Written(a[..], b, path, mark)
    ensures forall p :: 0 <= p < a.Length && b < p ==> a[p] == old(a[p])
  {
    var itemiter: int := b;
    a[itemiter] := mark;
    itemiter := itemiter - 1;
    var i := 0;
    while i < |path|
      invariant 0 <= i <= |path| && itemiter == b - 1 - i
      invariant forall p :: 0 <= p < a.Length && b < p ==> a[p] == old(a[p])
      invariant a[b] == mark && forall p :: b - i <= p < b ==> a[p] == path[b - 1 - p]
    {
      a[itemiter] := path[i];
      itemiter := itemiter - 1;
      i := i + 1;
    }
  }

  /** A node on a branch is written behind those above it and recorded under its item. */
  method WriteNode(
        a: array<nat>, cur: Forest, path: seq<nat>, nodes: seq<seq<Entry>>, b: nat, mark: nat,
        ghost done: seq<seq<Trans>>)
    returns (nodes': seq<seq<Entry>>)
    requires cur.Node? && |path| < b < a.Length && cur.item < |nodes|
    requires forall j :: 0 <= j < |path| ==> path[j] < mark
    requires AllOk(a[..], nodes, done, b - |path|, mark) && Written(a[..], b, path, mark)
    modifies a
    ensures |nodes'| == |nodes|
    ensures AllOk(a[..], nodes', done[cur.item := done[cur.item] + [Trans(path, cur.count)]], b - 1 - |path|, mark)
    ensures Written(a[..], b, path + [cur.item], mark)
  {
    var itemiter: int := b - 1 - |path|;
    WrittenReads(a[..], b, path, |path|, mark);
    assert path[..|path|] == path;
    ghost var was := a[..];
    a[itemiter] := cur.item;
    itemiter := itemiter - 1;
    StableAll(was, a[..], nodes, done, b - |path|, b - 1 - |path|, mark);
    var e := Entry(itemiter + 2, cur.count);
    AddEntry(a[..], nodes, done, b - 1 - |path|, mark, cur.item, e, Trans(path, cur.count));
    nodes' := nodes[cur.item := nodes[cur.item] + [e]];
  }

  /** The invariant while a branch is followed: cur is what is below the last node written, and the
      stack has the siblings of the nodes on the way. */
  ghost predicate OnBranch(f: Forest, n: nat, mark: nat, a: seq<nat>, nodes: seq<seq<Entry>>, done: seq<seq<Trans>>,
                           stack: seq<Forest>, path: seq<nat>, cur: Forest, b: nat)
  {
    && |stack| == |path| && AllFit(stack, n, mark) && Fits(cur, n, mark)
    && (forall j :: 0 <= j < |path| && (j < |path| - 1 || cur != Nil) ==> path[j] < mark)
    && LeafSumBelow(cur, |path|) + PendingLeaves(stack) <= b
    && |nodes| == n && AllOk(a, nodes, done, b - |path|, mark) && Complete(f, done, cur, stack, path)
    && Written(a, b, path, mark)
  }

  /** One node further down. */
  method BranchStep(
        a: array<nat>, cur: Forest, stack: seq<Forest>, path: seq<nat>, nodes: seq<seq<Entry>>, b: nat, n: nat,
        mark: nat, ghost f: Forest, ghost done: seq<seq<Trans>>)
    returns (nodes': seq<seq<Entry>>, ghost done': seq<seq<Trans>>)
    requires cur.Node? && b < a.Length && OnBranch(f, n, mark, a[..], nodes, done, stack, path, cur, b)
    modifies a
    ensures OnBranch(f, n, mark, a[..], nodes', done', stack + [cur.sib], path + [cur.item], cur.child, b)
  {
    hide AllOk, Complete, Written;
    LeafSumDeep(cur, |path|);
    DoneLength(a[..], nodes, done, b - |path|, mark);
    CompleteStep(f, done, cur, stack, path);
    nodes' := WriteNode(a, cur, path, nodes, b, mark, done);
    done' := done[cur.item := done[cur.item] + [Trans(path, cur.count)]];
    assert (stack + [cur.sib])[..|stack|] == stack;
  }

  lemma DoneLength(a: seq<nat>, nodes: seq<seq<Entry>>, done: seq<seq<Trans>>, low: int, mark: nat)
    requires AllOk(a, nodes, done, low, mark)
    ensures |done| == |nodes|
  {
  }

  /** A branch that is followed from temp down to a leaf: the mark, the items above temp, then the
      items on the way, which leave their siblings on the stack. */
  method WriteBranch(
        a: array<nat>, temp: Forest, stack0: seq<Forest>, path0: seq<nat>, nodes0: seq<seq<Entry>>, b: nat, n: nat,
        mark: nat, ghost f: Forest, ghost done0: seq<seq<Trans>>)
    returns (stack: seq<Forest>, path: seq<nat>, nodes: seq<seq<Entry>>, ghost done: seq<seq<Trans>>)
    requires temp.Node? && |stack0| == |path0| && Fits(temp, n, mark) && AllFit(stack0, n, mark)
    requires forall j :: 0 <= j < |path0| ==> path0[j] < mark
    requires LeafSum(temp, |path0|) + PendingLeaves(stack0) <= b < a.Length
    requires |nodes0| == n && AllOk(a[..], nodes0, done0, b, mark) && Complete(f, done0, temp, stack0, path0)
    modifies a
    ensures path != [] && OnBranch(f, n, mark, a[..], nodes, done, stack, path, Nil, b)
    ensures StackSize(stack) < Size(temp) + StackSize(stack0)
  {
    hide OnBranch;
    BranchBegin(a, temp, stack0, path0, nodes0, b, n, mark, f, done0);
    stack, path, nodes, done := stack0, path0, nodes0, done0;
    var cur := temp;
    while cur != Nil
      invariant cur == Nil ==> path != []
      invariant OnBranch(f, n, mark, a[..], nodes, done, stack, path, cur, b)
      invariant Size(cur) + StackSize(stack) <= Size(temp) + StackSize(stack0)
      decreases cur
    {
      nodes, done := BranchStep(a, cur, stack, path, nodes, b, n, mark, f, done);
      assert (stack + [cur.sib])[..|stack|] == stack;
      stack, path, cur := stack + [cur.sib], path + [cur.item], cur.child;
    }
  }

  method BranchBegin(
        a: array<nat>, temp: Forest, stack0: seq<Forest>, path0: seq<nat>, nodes0: seq<seq<Entry>>, b: nat, n: nat,
        mark: nat, ghost f: Forest, ghost done0: seq<seq<Trans>>)
    requires temp.Node? && |stack0| == |path0| && Fits(temp, n, mark) && AllFit(stack0, n, mark)
    requires forall j :: 0 <= j < |path0| ==> path0[j] < mark
    requires LeafSum(temp, |path0|) + PendingLeaves(stack0) <= b < a.Length
    requires |nodes0| == n && AllOk(a[..], nodes0, done0, b, mark) && Complete(f, done0, temp, stack0, path0)
    modifies a
    ensures OnBranch(f, n, mark, a[..], nodes0, done0, stack0, path0, temp, b)
  {
    hide AllOk, Complete, Written;
    LeafSumDeep(temp, |path0|);
    ghost var before := a[..];
    WriteMark(a, path0, b, mark);
    StableAll(before, a[..], nodes0, done0, b, b - |path0|, mark);
  }

  /** The array represents the tree: the entries of every item are its nodes in preorder, and reading
      from an entry gives what is above the node. */
  ghost predicate Represents(r: Packed, f: Forest, n: nat, mark: nat) {
    |r.nodes| == n && forall x :: 0 <= x < n ==> ItemOk(r.items, r.nodes[x], Base(f, [], x), -1, mark)
  }

  /** nodenum counts the nodes of every item, and new_data_num is at least the sum of leaf depths. */
  predicate Sized(f: Forest, n: nat, nodenum: seq<nat>, newDataNum: nat) {
    |nodenum| == n && (forall x :: 0 <= x < n ==> nodenum[x] == NodeCount(f, x)) && LeafSum(f, 0) <= newDataNum
  }

  /** The invariant of the outer loop: kept is where the items above the top of the stack begin. */
  ghost predicate Loop(f: Forest, n: nat, mark: nat, a: seq<nat>, nodes: seq<seq<Entry>>, done: seq<seq<Trans>>,
                       stack: seq<Forest>, path: seq<nat>, itemiter: int, kept: nat, first: bool)
  {
    && |stack| <= |path| + 1 && AllFit(stack, n, mark)
    && (forall j :: 0 <= j < |stack| - 1 ==> path[j] < mark)
    && PendingLeaves(stack) <= itemiter < |a|
    && |nodes| == n && AllOk(a, nodes, done, itemiter, mark) && CompleteAll(f, done, stack, path)
    && (!first && stack != [] ==> itemiter < kept && Reads(a, kept, path[..|stack| - 1], mark))
    && (first ==> |stack| <= 1)
  }

  lemma NullStep(f: Forest, n: nat, mark: nat, a: seq<nat>, nodes: seq<seq<Entry>>, done: seq<seq<Trans>>,
                 stack: seq<Forest>, path: seq<nat>, itemiter: int, kept: nat, first: bool)
    requires Loop(f, n, mark, a, nodes, done, stack, path, itemiter, kept, first)
    requires stack != [] && stack[|stack| - 1] == Nil
    ensures Loop(f, n, mark, a, nodes, done, stack[..|stack| - 1], path, itemiter, kept + 1, first)
  {
    var s := |stack| - 1;
    CompletePop(f, done, stack, path);
    CompleteNil(f, done, stack[..s], path);
    if !first && s > 0 {
      ReadsShorter(a, kept, path[..s], mark);
      assert path[..s][..s - 1] == path[..s - 1];
    }
  }

  lemma KeptEntry(a: seq<nat>, kept: nat, anc: seq<nat>, count: nat, mark: nat)
    requires Reads(a, kept, anc, mark)
    ensures EntryOk(a, Entry(kept, count), Trans(anc, count), mark)
  {
  }

  lemma LeafStep(f: Forest, n: nat, mark: nat, a: seq<nat>, nodes: seq<seq<Entry>>, done: seq<seq<Trans>>,
                 stack: seq<Forest>, path: seq<nat>, itemiter: int, kept: nat)
    requires Loop(f, n, mark, a, nodes, done, stack, path, itemiter, kept, false)
    requires stack != [] && stack[|stack| - 1].Node? && stack[|stack| - 1].child == Nil
    ensures var s := |stack| - 1; var temp := stack[s];
            && temp.item < n
            && Loop(f, n, mark, a, nodes[temp.item := nodes[temp.item] + [Entry(kept, temp.count)]],
                    done[temp.item := done[temp.item] + [Trans(path[..s], temp.count)]],
                    stack[..s] + [temp.sib], path, itemiter, kept, false)
  {
    hide CompleteAll, Complete, AllOk, EntryOk;
    var s := |stack| - 1;
    var temp := stack[s];
    CompletePop(f, done, stack, path);
    assert Fits(temp, n, mark);
    DoneLength(a, nodes, done, itemiter, mark);
    KeptEntry(a, kept, path[..s], temp.count, mark);
    CompleteLeaf(f, done, temp, stack[..s], path);
    AddEntry(a, nodes, done, itemiter, mark, temp.item, Entry(kept, temp.count), Trans(path[..s], temp.count));
    assert (stack[..s] + [temp.sib])[..s] == stack[..s];
  }

  /** transform_FPTree_into_FPArray. Every write is inside the array, whose size new_data_num gives,
      and no item gets more entries than nodenum says. */
  method Transform(f: Forest, n: nat, nodenum: seq<nat>, newDataNum: nat, mark: nat) returns (r: Packed)
    requires Trie(f, 0, n) && n <= mark + 1 && Sized(f, n, nodenum, newDataNum)
    ensures Represents(r, f, n, mark) && |r.items| == newDataNum + 1
    ensures forall x :: 0 <= x < n ==> |r.nodes[x]| == nodenum[x]
  {
    var a := new nat[newDataNum + 1];
    var nodes: seq<seq<Entry>> := seq(n, _ => []);
    ghost var done: seq<seq<Trans>> := seq(n, _ => []);
    var itemiter: int := newDataNum;
    var stack, path: seq<nat> := [f], [];
    var kept: nat := newDataNum + 1;
    var first := true;
    MarkIsLeaf(f, 0, n, mark);
    Start(f, n);
    while stack != []
      invariant Loop(f, n, mark, a[..], nodes, done, stack, path, itemiter, kept, first)
      decreases StackSize(stack)
    {
      var s := |stack| - 1;
      var temp := stack[s];
      if temp == Nil {
        NullStep(f, n, mark, a[..], nodes, done, stack, path, itemiter, kept, first);
        stack, kept := stack[..s], kept + 1;
      } else if !first && temp.child == Nil {
        LeafStep(f, n, mark, a[..], nodes, done, stack, path, itemiter, kept);
        nodes := nodes[temp.item := nodes[temp.item] + [Entry(kept, temp.count)]];
        done := done[temp.item := done[temp.item] + [Trans(path[..s], temp.count)]];
        assert (stack[..s] + [temp.sib])[..s] == stack[..s];
        stack := stack[..s] + [temp.sib];
      } else {
        stack, path, nodes, itemiter, kept, done := NextBranch(a, stack, path, nodes, itemiter, n, mark, f, done, kept,
            first);
        first := false;
      }
    }
    Finish(f, a[..], nodes, done, itemiter, nodenum, mark);
    r := Packed(a[..], nodes);
  }

  method NextBranch(
        a: array<nat>, stack0: seq<Forest>, path0: seq<nat>, nodes0: seq<seq<Entry>>, itemiter0: int, n: nat, mark: nat,
        ghost f: Forest, ghost done0: seq<seq<Trans>>, ghost kept0: nat, ghost first0: bool)
    returns (stack: seq<Forest>, path: seq<nat>, nodes: seq<seq<Entry>>, itemiter: int, kept: nat,
        ghost done: seq<seq<Trans>>)
    requires Loop(f, n, mark, a[..], nodes0, done0, stack0, path0, itemiter0, kept0, first0)
    requires stack0 != [] && stack0[|stack0| - 1].Node?
    modifies a
    ensures Loop(f, n, mark, a[..], nodes, done, stack, path, itemiter, kept, false)
    ensures StackSize(stack) < StackSize(stack0)
  {
    var s := |stack0| - 1;
    var temp := stack0[s];
    CompletePop(f, done0, stack0, path0);
    CompleteCut(f, done0, temp, stack0[..s], path0);
    stack, path, nodes, done := WriteBranch(a, temp, stack0[..s], path0[..s], nodes0, itemiter0, n, mark, f, done0);
    CompleteNil(f, done, stack, path);
    WrittenReads(a[..], itemiter0, path, |path| - 1, mark);
    itemiter := itemiter0 - |path|;
    kept := itemiter + 1;
  }

  lemma Start(f: Forest, n: nat)
    ensures var done: seq<seq<Trans>> := seq(n, _ => []); CompleteAll(f, done, [f], [])
    ensures PendingLeaves([f]) == LeafSum(f, 0) && StackSize([f]) == Size(f)
  {
    var stack: seq<Forest>, path: seq<nat> := [f], [];
    assert stack[..0] == [] && path[..0] == [];
    var done: seq<seq<Trans>> := seq(n, _ => []);
    forall x | 0 <= x < n
      ensures Base(f, [], x) == done[x] + Pending(stack, path, x)
    {
    }
  }

  lemma ReadsShorter(a: seq<nat>, b: nat, anc: seq<nat>, mark: nat)
    requires Reads(a, b, anc, mark) && anc != []
    ensures Reads(a, b + 1, anc[..|anc| - 1], mark)
  {
  }

  lemma Finish(
        f: Forest, a: seq<nat>, nodes: seq<seq<Entry>>, done: seq<seq<Trans>>, low: int, nodenum: seq<nat>, mark: nat)
    requires |nodes| == |nodenum| && AllOk(a, nodes, done, low, mark) && -1 <= low
    requires forall x :: 0 <= x < |done| ==> Base(f, [], x) == done[x] + Pending([], [], x)
    requires forall x :: 0 <= x < |nodenum| ==> nodenum[x] == NodeCount(f, x)
    ensures Represents(Packed(a, nodes), f, |nodes|, mark)
    ensures forall x :: 0 <= x < |nodes| ==> |nodes[x]| == nodenum[x]
  {
    forall x | 0 <= x < |nodes|
      ensures ItemOk(a, nodes[x], Base(f, [], x), -1, mark) && |nodes[x]| == nodenum[x]
    {
      assert ItemOk(a, nodes[x], done[x], low, mark);
      assert done[x] + [] == done[x];
      BaseLength(f, [], x);
    }
  }
}
