/** The linked queue of queue.c, and any number of such queues used together. */
module Queues {
  import opened Common

  class Node {
    var next: Node?
    constructor () { next := null; }
  }

  ghost predicate NoDuplicates<T>(s: seq<T>) {
    forall i, j :: 0 <= i < j < |s| ==> s[i] != s[j]
  }

  /** Each node links to the one behind it, and the last to none. */
  ghost predicate Threaded(s: seq<Node>)
    reads s
  {
    && (forall i {:trigger s[i].next} :: 0 <= i < |s| - 1 ==> s[i].next == s[i + 1])
    && (s != [] ==> s[|s| - 1].next == null)
  }

  class Queue {
    var head: Node?
    var tail: Node?
    ghost var contents: seq<Node>

    /** The nodes are threaded from `head` to `tail`; the tail of an empty queue is stale. */
    ghost predicate Valid()
      reads this, contents
    {
      && NoDuplicates(contents)
      && head == (if contents == [] then null else contents[0])
      && Threaded(contents)
      && (contents != [] ==> tail == contents[|contents| - 1])
    }

    /** `queue_init` */
    constructor ()
      ensures Valid() && contents == []
    {
      head, tail, contents := null, null, [];
    }

    method IsEmpty() returns (r: bool)
      requires Valid()
      ensures r <==> contents == []
    {
      r := head == null;
    }

    method Add(node: Node)
      requires Valid() && node !in contents
      modifies this, contents, node
      ensures Valid() && contents == old(contents) + [node]
    {
      if head == null {
        head, tail := node, node;
      } else {
        tail.next := node;
        tail := node;
      }
      node.next := null;
      contents := contents + [node];
    }

    /** The removed node keeps its stale link. */
    method Remove() returns (oldest: Node?)
      requires Valid()
      modifies this
      ensures Valid()
      ensures if old(contents) == [] then oldest == null && contents == []
              else oldest == old(contents)[0] && contents == old(contents)[1..]
    {
      if head == null {
        return null;
      }
      oldest := head;
      head := oldest.next;
      contents := contents[1..];
    }

    method Peek() returns (oldest: Node?)
      requires Valid()
      ensures oldest == if contents == [] then null else contents[0]
    {
      oldest := head;
    }

    /** Append everything in `src` to `dst`, in order. */
    static method Move(dst: Queue, src: Queue)
      requires dst != src && dst.Valid() && src.Valid()
      requires forall n :: n in dst.contents ==> n !in src.contents
      modifies dst, src, dst.contents
      ensures dst.Valid() && src.Valid()
      ensures dst.contents == old(dst.contents) + old(src.contents) && src.contents == []
    {
      if src.head == null {
        return;
      }
      ghost var a, b := dst.contents, src.contents;
      NoDuplicatesConcat(a, b);
      Link(dst, src);
      assert (a + b)[|a + b| - 1] == b[|b| - 1];
      dst.tail := src.tail;
      src.head := null;
      dst.contents := a + b;
      src.contents := [];
    }

    /** Make the nodes of `src` follow those of `dst`. */
    static method Link(dst: Queue, src: Queue)
      requires dst != src && dst.Valid() && src.Valid() && src.contents != []
      requires NoDuplicates(dst.contents + src.contents)
      modifies dst`head, dst.contents
      ensures Threaded(dst.contents + src.contents) && dst.head == (dst.contents + src.contents)[0]
    {
      ghost var a, b := dst.contents, src.contents;
      ghost var joined := a + b;
      if dst.head == null {
        assert joined == b;
        dst.head := src.head;
      } else {
        dst.tail.next := src.head;
        ghost var k := |a| - 1;
        forall i | 0 <= i < k ensures a[i].next == a[i + 1] {
          assert a[i] == joined[i] != joined[k];
        }
        forall i | 0 <= i < |b| ensures b[i].next == old(b[i].next) {
          assert b[i] == joined[|a| + i] != joined[k];
        }
        JoinThreads(a, b);
      }
    }
  }

  lemma JoinThreads(a: seq<Node>, b: seq<Node>)
    requires a != [] && b != [] && Threaded(b)
    requires (forall i {:trigger a[i].next} :: 0 <= i < |a| - 1 ==> a[i].next == a[i + 1]) && a[|a| - 1].next == b[0]
    ensures Threaded(a + b)
  {
    var s := a + b;
    forall i | 0 <= i < |s| - 1 ensures s[i].next == s[i + 1] {
      if i >= |a| { assert s[i] == b[i - |a|] && s[i + 1] == b[i - |a| + 1]; }
    }
  }

  lemma NoDuplicatesConcat<T>(a: seq<T>, b: seq<T>)
    requires NoDuplicates(a) && NoDuplicates(b) && forall x :: x in a ==> x !in b
    ensures NoDuplicates(a + b)
  {
    forall i, j | 0 <= i < j < |a + b| ensures (a + b)[i] != (a + b)[j] {
      if i < |a| <= j { assert a[i] in a && b[j - |a|] in b; }
    }
  }

  // ---------- Several queues as sequences ----------

  datatype Op<T> = Add(q: nat, x: T) | Remove(q: nat) | Peek(q: nat) | Move(dst: nat, src: nat)

  /** No element is in two places. */
  ghost predicate Separate<T>(qs: seq<seq<T>>) {
    && (forall i :: 0 <= i < |qs| ==> NoDuplicates(qs[i]))
    && (forall i, j :: 0 <= i < j < |qs| ==> forall x :: x in qs[i] ==> x !in qs[j])
  }

  ghost predicate Legal<T>(qs: seq<seq<T>>, op: Op<T>) {
    match op
    case Add(q, x) => q < |qs| && forall i :: 0 <= i < |qs| ==> x !in qs[i]
    case Remove(q) => q < |qs|
    case Peek(q) => q < |qs|
    case Move(dst, src) => dst < |qs| && src < |qs| && dst != src
  }

  ghost function Step<T>(qs: seq<seq<T>>, op: Op<T>): seq<seq<T>>
    requires Legal(qs, op)
  {
    match op
    case Add(q, x) => qs[q := qs[q] + [x]]
    case Remove(q) => qs[q := if qs[q] == [] then [] else qs[q][1..]]
    case Peek(q) => qs
    case Move(dst, src) => qs[dst := qs[dst] + qs[src]][src := []]
  }

  ghost predicate LegalRun<T>(qs: seq<seq<T>>, ops: seq<Op<T>>)
    decreases |ops|
  {
    ops == [] || (Legal(qs, ops[0]) && LegalRun(Step(qs, ops[0]), ops[1..]))
  }

  ghost function Run<T>(qs: seq<seq<T>>, ops: seq<Op<T>>): seq<seq<T>>
    requires LegalRun(qs, ops)
    decreases |ops|
  {
    if ops == [] then qs else Run(Step(qs, ops[0]), ops[1..])
  }

  /** What enters queue `k`: the nodes added to it and the contents moved into it. */
  ghost function Entering<T>(qs: seq<seq<T>>, op: Op<T>, k: nat): seq<T>
    requires Legal(qs, op) && k < |qs|
  {
    match op
    case Add(q, x) => if q == k then [x] else []
    case Move(dst, src) => if dst == k then qs[src] else []
    case _ => []
  }

  /** What leaves it: the nodes removed from it and the contents moved out of it. */
  ghost function Leaving<T>(qs: seq<seq<T>>, op: Op<T>, k: nat): seq<T>
    requires Legal(qs, op) && k < |qs|
  {
    match op
    case Remove(q) => if q == k && qs[q] != [] then [qs[q][0]] else []
    case Move(dst, src) => if src == k then qs[src] else []
    case _ => []
  }

  ghost function Entered<T>(qs: seq<seq<T>>, ops: seq<Op<T>>, k: nat): seq<T>
    requires LegalRun(qs, ops) && k < |qs|
    decreases |ops|
  {
    if ops == [] then [] else Entering(qs, ops[0], k) + Entered(Step(qs, ops[0]), ops[1..], k)
  }

  ghost function Left<T>(qs: seq<seq<T>>, ops: seq<Op<T>>, k: nat): seq<T>
    requires LegalRun(qs, ops) && k < |qs|
    decreases |ops|
  {
    if ops == [] then [] else Leaving(qs, ops[0], k) + Left(Step(qs, ops[0]), ops[1..], k)
  }

  /** First in, first out, over every run: what has left a queue and what is still in it is, in order,
      what was in it and what has entered it since. */
  lemma {:induction false} Fifo<T>(qs: seq<seq<T>>, ops: seq<Op<T>>, k: nat)
    requires LegalRun(qs, ops) && k < |qs|
    ensures |Run(qs, ops)| == |qs| && Left(qs, ops, k) + Run(qs, ops)[k] == qs[k] + Entered(qs, ops, k)
    decreases |ops|
  {
    if ops != [] {
      var qs', rest := Step(qs, ops[0]), ops[1..];
      var l, e := Leaving(qs, ops[0], k), Entering(qs, ops[0], k);
      Fifo(qs', rest, k);
      StepBalance(qs, ops[0], k);
      var l', e', end := Left(qs', rest, k), Entered(qs', rest, k), Run(qs', rest)[k];
      Regroup(l, l', end, qs'[k], qs[k], e, e');
    }
  }

  lemma StepBalance<T>(qs: seq<seq<T>>, op: Op<T>, k: nat)
    requires Legal(qs, op) && k < |qs|
    ensures |Step(qs, op)| == |qs| && Leaving(qs, op, k) + Step(qs, op)[k] == qs[k] + Entering(qs, op, k)
  {
  }

  lemma Regroup<T>(l: seq<T>, l': seq<T>, end: seq<T>, mid: seq<T>, start: seq<T>, e: seq<T>, e': seq<T>)
    requires l' + end == mid + e' && l + mid == start + e
    ensures (l + l') + end == start + (e + e')
  {
    assert (l + l') + end == l + (l' + end);
    assert l + (mid + e') == (l + mid) + e';
    assert (start + e) + e' == start + (e + e');
  }

  /** No node is ever in two queues, or twice in one. */
  lemma {:induction false} RunSeparate<T>(qs: seq<seq<T>>, ops: seq<Op<T>>)
    requires Separate(qs) && LegalRun(qs, ops)
    ensures Separate(Run(qs, ops))
    decreases |ops|
  {
    if ops != [] {
      StepSeparate(qs, ops[0]);
      RunSeparate(Step(qs, ops[0]), ops[1..]);
    }
  }

  lemma StepSeparate<T>(qs: seq<seq<T>>, op: Op<T>)
    requires Separate(qs) && Legal(qs, op)
    ensures Separate(Step(qs, op))
  {
    match op
    case Add(q, x) =>
      assert forall y :: y in qs[q] + [x] <==> y in qs[q] || y == x;
      NoDuplicatesConcat(qs[q], [x]);
    case Remove(q) =>
      if qs[q] != [] { assert forall y :: y in qs[q][1..] ==> y in qs[q]; }
    case Peek(q) =>
    case Move(dst, src) =>
      assert forall y :: y in qs[dst] + qs[src] <==> y in qs[dst] || y in qs[src];
      NoDuplicatesConcat(qs[dst], qs[src]);
  }

  // ---------- The linked queues do the same ----------

  ghost function Contents(qs: seq<Queue>): (s: seq<seq<Node>>)
    reads qs
    ensures |s| == |qs| && forall i :: 0 <= i < |qs| ==> s[i] == qs[i].contents
  {
    seq(|qs|, i requires 0 <= i < |qs| reads qs => qs[i].contents)
  }

  ghost function Members<T>(s: seq<seq<T>>): set<T> {
    set i, x | 0 <= i < |s| && x in s[i] :: x
  }

  ghost function Nodes(qs: seq<Queue>): (s: set<Node>)
    reads qs
    ensures forall i, n :: 0 <= i < |qs| && n in qs[i].contents ==> n in s
  {
    assert forall i :: 0 <= i < |qs| ==> Contents(qs)[i] == qs[i].contents;
    Members(Contents(qs))
  }

  lemma StepMembers(s: seq<seq<Node>>, op: Op<Node>)
    requires Legal(s, op)
    ensures Members(Step(s, op)) <= Members(s) + OpNodes(op)
  {
    forall n | n in Members(Step(s, op)) ensures n in Members(s) + OpNodes(op) {
      var i :| 0 <= i < |s| && n in Step(s, op)[i];
      match op
      case Add(q, x) => assert n in s[i] || n == x;
      case Remove(q) => assert n in s[i];
      case Peek(q) => assert n in s[i];
      case Move(dst, src) => assert n in s[i] || n in s[src];
    }
  }

  /** What an operation returns: the oldest node, or null. */
  ghost function Returned(s: seq<seq<Node>>, op: Op<Node>): Node?
    requires Legal(s, op)
  {
    match op
    case Remove(q) => if s[q] == [] then null else s[q][0]
    case Peek(q) => if s[q] == [] then null else s[q][0]
    case _ => null
  }

  ghost function AllReturned(s: seq<seq<Node>>, ops: seq<Op<Node>>): seq<Node?>
    requires LegalRun(s, ops)
    decreases |ops|
  {
    if ops == [] then [] else [Returned(s, ops[0])] + AllReturned(Step(s, ops[0]), ops[1..])
  }

  ghost predicate AllValid(qs: seq<Queue>)
    reads qs, Nodes(qs)
  {
    && (forall i :: 0 <= i < |qs| ==> forall n :: n in qs[i].contents ==> n in Nodes(qs))
    && NoDuplicates(qs) && Separate(Contents(qs))
    && forall i :: 0 <= i < |qs| ==> qs[i].Valid()
  }

  ghost function OpNodes(op: Op<Node>): set<Node> {
    if op.Add? then {op.x} else {}
  }

  /** One operation on one of the queues leaves all others alone. */
  method Do(qs: seq<Queue>, op: Op<Node>) returns (out: Node?)
    requires AllValid(qs) && Legal(Contents(qs), op)
    modifies qs, Nodes(qs), OpNodes(op)
    ensures AllValid(qs) && Contents(qs) == Step(old(Contents(qs)), op)
    ensures Nodes(qs) <= old(Nodes(qs)) + OpNodes(op)
    ensures out == Returned(old(Contents(qs)), op)
  {
    ghost var before := Contents(qs);
    StepSeparate(before, op);
    StepMembers(before, op);
    out := null;
    match op {
      case Add(q, x) => DoAdd(qs, q, x);
      case Remove(q) => out := DoRemove(qs, q);
      case Peek(q) => out := qs[q].Peek();
      case Move(dst, src) => DoMove(qs, dst, src);
    }
  }

  /** Different queues have different nodes. */
  lemma OtherNodes(qs: seq<Queue>, i: nat, j: nat, n: Node)
    requires AllValid(qs) && i < |qs| && j < |qs| && i != j && n in qs[i].contents
    ensures n !in qs[j].contents
  {
    var s := Contents(qs);
    if i < j { assert forall x :: x in s[i] ==> x !in s[j]; } else { assert forall x :: x in s[j] ==> x !in s[i]; }
  }

  twostate lemma StaysValid(q: Queue)
    requires old(q.Valid()) && unchanged(q) && forall n :: n in old(q.contents) ==> unchanged(n)
    ensures q.Valid()
  {
    forall i | 0 <= i < |q.contents| ensures q.contents[i].next == old(q.contents[i].next) {
      assert q.contents[i] in old(q.contents);
    }
  }

  method DoAdd(qs: seq<Queue>, q: nat, x: Node)
    requires AllValid(qs) && Legal(Contents(qs), Op.Add(q, x))
    modifies qs[q], qs[q].contents, x
    ensures forall i :: 0 <= i < |qs| ==> qs[i].Valid()
    ensures Contents(qs) == old(Contents(qs))[q := old(qs[q].contents) + [x]]
  {
    assert x !in Contents(qs)[q];
    forall i, n | 0 <= i < |qs| && i != q && n in qs[i].contents ensures n != x && n !in qs[q].contents {
      OtherNodes(qs, i, q, n);
      assert x !in Contents(qs)[i];
    }
    ghost var changed := qs[q].contents;
    qs[q].Add(x);
    forall i | 0 <= i < |qs| && i != q ensures qs[i].Valid() && qs[i].contents == old(qs[i].contents) {
      assert qs[i] != qs[q];
      assert forall n :: n in old(qs[i].contents) ==> n !in changed && n != x;
      StaysValid(qs[i]);
    }
  }

  method DoRemove(qs: seq<Queue>, q: nat) returns (out: Node?)
    requires AllValid(qs) && Legal(Contents(qs), Op<Node>.Remove(q))
    modifies qs[q]
    ensures forall i :: 0 <= i < |qs| ==> qs[i].Valid()
    ensures Contents(qs) == Step(old(Contents(qs)), Op<Node>.Remove(q))
    ensures out == Returned(old(Contents(qs)), Op<Node>.Remove(q))
  {
    out := qs[q].Remove();
    forall i | 0 <= i < |qs| && i != q ensures qs[i].Valid() && qs[i].contents == old(qs[i].contents) {
      assert qs[i] != qs[q];
      StaysValid(qs[i]);
    }
  }

  method DoMove(qs: seq<Queue>, dst: nat, src: nat)
    requires AllValid(qs) && Legal(Contents(qs), Op<Node>.Move(dst, src))
    modifies qs[dst], qs[src], qs[dst].contents
    ensures forall i :: 0 <= i < |qs| ==> qs[i].Valid()
    ensures Contents(qs) == old(Contents(qs))[dst := old(qs[dst].contents) + old(qs[src].contents)][src := []]
  {
    assert qs[dst] != qs[src];
    forall i, n | 0 <= i < |qs| && i != dst && n in qs[i].contents ensures n !in qs[dst].contents {
      OtherNodes(qs, i, dst, n);
    }
    ghost var changed := qs[dst].contents;
    Queue.Move(qs[dst], qs[src]);
    forall i | 0 <= i < |qs| && i != dst && i != src ensures qs[i].Valid() && qs[i].contents == old(qs[i].contents) {
      assert qs[i] != qs[dst] && qs[i] != qs[src];
      assert forall n :: n in old(qs[i].contents) ==> n !in changed;
      StaysValid(qs[i]);
    }
  }

  ghost function AddedNodes(ops: seq<Op<Node>>): set<Node> {
    set k | 0 <= k < |ops| && ops[k].Add? :: ops[k].x
  }

  lemma RunUnfolds(s: seq<seq<Node>>, ops: seq<Op<Node>>, i: nat)
    requires i < |ops| && LegalRun(s, ops[i..])
    ensures Legal(s, ops[i]) && LegalRun(Step(s, ops[i]), ops[i + 1..])
    ensures Run(s, ops[i..]) == Run(Step(s, ops[i]), ops[i + 1..])
    ensures AllReturned(s, ops[i..]) == [Returned(s, ops[i])] + AllReturned(Step(s, ops[i]), ops[i + 1..])
  {
    assert ops[i..][0] == ops[i] && ops[i..][1..] == ops[i + 1..];
  }

  /** After the first `i` operations the sequences are `s`, and the rest of the run ends as the whole run
      does. */
  ghost predicate Halfway(start: seq<seq<Node>>, ops: seq<Op<Node>>, i: nat, s: seq<seq<Node>>, outs: seq<Node?>)
    requires i <= |ops|
  {
    && LegalRun(start, ops) && LegalRun(s, ops[i..]) && Run(s, ops[i..]) == Run(start, ops)
    && outs + AllReturned(s, ops[i..]) == AllReturned(start, ops)
  }

  lemma RunAdvances(start: seq<seq<Node>>, ops: seq<Op<Node>>, i: nat, s: seq<seq<Node>>, outs: seq<Node?>)
    requires i < |ops| && Halfway(start, ops, i, s, outs)
    ensures Legal(s, ops[i]) && Halfway(start, ops, i + 1, Step(s, ops[i]), outs + [Returned(s, ops[i])])
  {
    RunUnfolds(s, ops, i);
    Associative(outs, [Returned(s, ops[i])], AllReturned(Step(s, ops[i]), ops[i + 1..]));
  }

  lemma RunBegins(start: seq<seq<Node>>, ops: seq<Op<Node>>)
    requires LegalRun(start, ops)
    ensures Halfway(start, ops, 0, start, [])
  {
    assert ops[0..] == ops;
  }

  lemma RunEnds(start: seq<seq<Node>>, ops: seq<Op<Node>>, s: seq<seq<Node>>, outs: seq<Node?>)
    requires Halfway(start, ops, |ops|, s, outs)
    ensures LegalRun(start, ops) && s == Run(start, ops) && outs == AllReturned(start, ops)
  {
  }

  /** Any interleaving of operations on the queues does to them what it does to the sequences, so the
      laws above hold of the linked queues; and every call returns what the sequences say. */
  method Execute(qs: seq<Queue>, ops: seq<Op<Node>>) returns (outs: seq<Node?>)
    requires AllValid(qs) && LegalRun(Contents(qs), ops)
    modifies qs, Nodes(qs), AddedNodes(ops)
    ensures AllValid(qs) && Contents(qs) == Run(old(Contents(qs)), ops)
    ensures outs == AllReturned(old(Contents(qs)), ops)
  {
    outs := [];
    ghost var nodes := Nodes(qs) + AddedNodes(ops);
    ghost var start, s := Contents(qs), Contents(qs);
    RunBegins(start, ops);
    for i := 0 to |ops|
      invariant AllValid(qs) && Nodes(qs) <= nodes && Contents(qs) == s
      invariant Halfway(start, ops, i, s, outs)
    {
      RunAdvances(start, ops, i, s, outs);
      assert OpNodes(ops[i]) <= AddedNodes(ops);
      var out := Do(qs, ops[i]);
      s := Step(s, ops[i]);
      outs := outs + [out];
    }
    RunEnds(start, ops, s, outs);
  }
}
