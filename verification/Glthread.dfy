/** The intrusive list of gluethread/glthread.c refines a sequence: a head and
    the nodes that its `right` pointers lead to. */
module Gluethread {

  class Glthread {
    var left: Glthread?
    var right: Glthread?
    // What the comparison function of a priority list looks at.
    const key: int

    // init_glthread.
    constructor (key: int)
      ensures this.key == key && left == null && right == null
    {
      this.key, left, right := key, null, null;
    }
  }

  // The node at `i` points to its neighbours in `s`.
  ghost predicate LinkedAt(s: seq<Glthread>, i: int)
    reads s
  {
    0 <= i < |s| ==>
      s[i].right == (if i + 1 < |s| then s[i + 1] else null) && s[i].left == (if i > 0 then s[i - 1] else null)
  }

  ghost predicate Distinct(s: seq<Glthread>) {
    forall i, j | 0 <= i < j < |s| :: s[i] != s[j]
  }

  /** `s` is the head and the nodes behind it, linked both ways. */
  ghost predicate Chain(s: seq<Glthread>)
    reads s
  {
    s != [] && Distinct(s) && forall i {:trigger LinkedAt(s, i)} | 0 <= i < |s| :: LinkedAt(s, i)
  }

  lemma At(s: seq<Glthread>, k: int)
    requires Chain(s) && 0 <= k < |s|
    ensures LinkedAt(s, k) && (k + 1 < |s| ==> s[k].right == s[k + 1] && s[k + 1] != s[k]) &&
      (k + 1 == |s| ==> s[k].right == null)
    ensures (k > 0 ==> s[k].left == s[k - 1] && s[k - 1] != s[k]) && (k == 0 ==> s[k].left == null)
  {
    assert LinkedAt(s, k);
  }

  twostate lemma WasAt(s: seq<Glthread>, new k: int)
    requires old(Chain(s)) && 0 <= k < |s|
    ensures old(LinkedAt(s, k))
  {
    assert old(LinkedAt(s, k));
  }

  ghost function Inserted(s: seq<Glthread>, k: int, x: Glthread): seq<Glthread>
    requires 0 <= k <= |s|
  {
    s[..k] + [x] + s[k..]
  }

  ghost function Without(s: seq<Glthread>, k: int): seq<Glthread>
    requires 0 <= k < |s|
  {
    s[..k] + s[k + 1..]
  }

  /** glthread_add_next: the node at `k` gets a new right neighbour. */
  method AddNext(curr: Glthread, x: Glthread, ghost s: seq<Glthread>, ghost k: int)
    requires Chain(s) && 0 <= k < |s| && s[k] == curr && x !in s && x.left == null && x.right == null
    modifies s, x
    ensures Chain(Inserted(s, k + 1, x))
  {
    At(s, k);
    if curr.right == null {
      curr.right := x;
      x.left := curr;
    } else {
      var temp := curr.right;
      curr.right := x;
      x.left := curr;
      x.right := temp;
      temp.left := x;
    }
    ghost var t := Inserted(s, k + 1, x);
    forall i | 0 <= i < |t| ensures LinkedAt(t, i) {
      WasAt(s, if i <= k then i else if i == k + 1 then k else i - 1);
    }
  }

  /** remove_glthread; a node that is in no list is a chain of its own. */
  method Remove(curr: Glthread, ghost s: seq<Glthread>, ghost k: int)
    requires Chain(s) && 0 <= k < |s| && s[k] == curr
    modifies s
    ensures curr.left == null && curr.right == null && (|s| > 1 ==> Chain(Without(s, k)))
  {
    At(s, k);
    if curr.left == null {
      if curr.right != null {
        curr.right.left := null;
        curr.right := null;
      }
    } else if curr.right == null {
      curr.left.right := null;
      curr.left := null;
    } else {
      curr.left.right := curr.right;
      curr.right.left := curr.left;
      curr.left := null;
      curr.right := null;
    }
    ghost var t := Without(s, k);
    forall i | 0 <= i < |t| ensures LinkedAt(t, i) {
      WasAt(s, if i < k then i else i + 1);
    }
  }

  /** glthread_add_last. */
  method AddLast(head: Glthread, x: Glthread, ghost s: seq<Glthread>)
    requires Chain(s) && s[0] == head && x !in s && x.left == null && x.right == null
    modifies s, x
    ensures Chain(s + [x])
  {
    var curr, prev: Glthread? := head.right, null;
    ghost var k := 0;
    At(s, 0);
    while curr != null
      invariant Chain(s) && x.left == null && x.right == null
      invariant 0 <= k < |s| && curr == s[k].right && (prev == null <==> k == 0) && (k > 0 ==> prev == s[k]) &&
        LinkedAt(s, k)
      decreases |s| - k
    {
      At(s, k + 1);
      var next := curr.right;
      prev := curr;
      curr := next;
      k := k + 1;
    }
    assert Inserted(s, k + 1, x) == s + [x];
    if prev != null {
      AddNext(prev, x, s, k);
    } else {
      AddNext(head, x, s, k);
    }
  }

  /** dequeue_glthread_first. */
  method DequeueFirst(head: Glthread, ghost s: seq<Glthread>) returns (first: Glthread?)
    requires Chain(s) && s[0] == head
    modifies s
    ensures |s| == 1 ==> first == null && Chain(s)
    ensures |s| > 1 ==> first == s[1] && Chain([head] + s[2..]) && first.left == null && first.right == null
  {
    At(s, 0);
    if head.right == null {
      return null;
    }
    first := head.right;
    assert Without(s, 1) == [head] + s[2..];
    Remove(first, s, 1);
  }

  ghost predicate Sorted(s: seq<Glthread>) {
    forall i, j | 1 <= i < j < |s| :: s[i].key <= s[j].key
  }

  // Behind the nodes that are not greater, in front of the greater ones.
  ghost predicate Fits(s: seq<Glthread>, k: int, x: Glthread) {
    1 <= k <= |s| && (forall i | 1 <= i < k :: s[i].key <= x.key) && forall i | k <= i < |s| :: x.key < s[i].key
  }

  lemma StaysSorted(s: seq<Glthread>, k: int, x: Glthread)
    requires Sorted(s) && Fits(s, k, x)
    ensures Sorted(Inserted(s, k, x))
  {
  }

  // In a sorted list the first greater node has only greater ones behind it.
  lemma FitsHere(s: seq<Glthread>, k: int, x: Glthread)
    requires Sorted(s) && 1 <= k <= |s| && (forall i | 1 <= i < k :: s[i].key <= x.key) &&
      (k < |s| ==> x.key < s[k].key)
    ensures Fits(s, k, x)
  {
  }

  /** glthread_priority_insert keeps a sorted list sorted, and equal nodes in the
      order of their arrival. */
  method PriorityInsert(head: Glthread, x: Glthread, ghost s: seq<Glthread>) returns (ghost k: int)
    requires Chain(s) && s[0] == head && x !in s && Sorted(s)
    modifies s, x
    ensures Fits(s, k, x) && Chain(Inserted(s, k, x)) && Sorted(Inserted(s, k, x))
  {
    hide Sorted, Fits;
    x.left := null;
    x.right := null;
    Framed(s, x);
    At(s, 0);
    if head.right == null {
      k := 1;
      FitsHere(s, k, x);
      AddNext(head, x, s, 0);
      StaysSorted(s, k, x);
      return;
    }
    At(s, 1);
    if head.right.right == null {
      if x.key < head.right.key {
        k := 1;
        FitsHere(s, k, x);
        AddNext(head, x, s, 0);
      } else {
        k := 2;
        FitsHere(s, k, x);
        AddNext(head.right, x, s, 1);
      }
      StaysSorted(s, k, x);
      return;
    }
    var curr, prev: Glthread? := head.right, null;
    k := 1;
    while curr != null
      invariant Chain(s) && x.left == null && x.right == null
      invariant 1 <= k <= |s| && curr == s[k - 1].right && (prev == null <==> k == 1) &&
        (k > 1 ==> prev == s[k - 1]) && LinkedAt(s, k - 1)
      invariant forall i | 1 <= i < k :: s[i].key <= x.key
      decreases |s| - k
    {
      At(s, k);
      var next := curr.right;
      if !(x.key < curr.key) {
        prev := curr;
        curr := next;
        k := k + 1;
        continue;
      }
      FitsHere(s, k, x);
      if prev == null {
        AddNext(head, x, s, 0);
      } else {
        AddNext(prev, x, s, k - 1);
      }
      StaysSorted(s, k, x);
      return;
    }
    FitsHere(s, k, x);
    AddNext(prev, x, s, k - 1);
    StaysSorted(s, k, x);
  }

  // A node outside the chain does not matter to it.
  twostate lemma Framed(s: seq<Glthread>, new x: Glthread)
    requires old(Chain(s)) && x !in s && unchanged(s)
    ensures Chain(s)
  {
    forall i | 0 <= i < |s| ensures LinkedAt(s, i) {
      WasAt(s, i);
    }
  }

  /** delete_glthread_list: the delete-safe loop meets and unlinks every node. */
  method DeleteList(head: Glthread, ghost s: seq<Glthread>)
    requires Chain(s) && s[0] == head
    modifies s
    ensures Chain([head]) && forall i | 1 <= i < |s| :: s[i].left == null && s[i].right == null
  {
    hide Chain;
    Start(s);
    var curr := head.right;
    ghost var k := 1;
    while curr != null
      invariant 1 <= k <= |s| && Chain([head] + s[k..]) && curr == (if k < |s| then s[k] else null)
      invariant forall i | 1 <= i < k :: s[i].left == null && s[i].right == null
      decreases |s| - k
    {
      ghost var rest := [head] + s[k..];
      assert rest[1] == curr && (k + 1 < |s| ==> rest[2] == s[k + 1]);
      At(rest, 1);
      var next := curr.right;
      assert Without(rest, 1) == [head] + s[k + 1..];
      Remove(curr, rest, 1);
      curr := next;
      k := k + 1;
    }
    assert [head] + s[k..] == [head];
  }

  lemma Start(s: seq<Glthread>)
    requires Chain(s)
    ensures s[0].right == (if |s| > 1 then s[1] else null) && [s[0]] + s[1..] == s && Distinct(s)
  {
    At(s, 0);
  }
}
