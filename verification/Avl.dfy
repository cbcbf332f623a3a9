/** The intrusive AVL tree with parent pointers of Tree/avl.c.

    Every node carries, as ghost state, its position `pos` in the in-order
    sequence of the tree and the interval [lo, hi) of positions that its subtree
    occupies, plus the height `ht` of that subtree.  With them the shape of the
    whole tree is a conjunction of facts about single nodes (`Linked`), which is
    what makes the pointer surgery of rotations and of removal checkable. */
module Avl {

  // The three-bit balance field of libtree.h: all a node may ever store.
  type Balance = b: int | -2 <= b <= 2

  function Max(a: int, b: int): int {
    if a < b then b else a
  }

  class AvlNode {
    const key: int
    var left: AvlNode?
    var right: AvlNode?
    var parent: AvlNode?
    var balance: Balance
    ghost var lo: int
    ghost var pos: int
    ghost var hi: int
    ghost var ht: nat

    constructor (key: int)
      ensures this.key == key
    {
      this.key := key;
      left, right, parent, balance := null, null, null, 0;
    }
  }

  // The sign of the comparator is antisymmetric.
  ghost predicate Antisymmetric(cmp: (int, int) -> int, a: int, b: int) {
    cmp(a, b) < 0 <==> cmp(b, a) > 0
  }

  // "Not greater" is transitive.
  ghost predicate Chained(cmp: (int, int) -> int, a: int, b: int, c: int) {
    cmp(a, b) <= 0 && cmp(b, c) <= 0 ==> cmp(a, c) <= 0
  }

  /** The comparator orders the keys of `dom`. */
  ghost predicate Ordering(cmp: (int, int) -> int, dom: iset<int>) {
    && (forall a, b {:trigger Antisymmetric(cmp, a, b)} | a in dom && b in dom :: Antisymmetric(cmp, a, b))
    && (forall a, b, c {:trigger Chained(cmp, a, b, c)} | a in dom && b in dom && c in dom :: Chained(cmp, a, b, c))
  }

  ghost predicate Sorted(order: seq<AvlNode>, cmp: (int, int) -> int) {
    forall i, j | 0 <= i < j < |order| :: cmp(order[i].key, order[j].key) < 0
  }

  class AvlTree {
    var root: AvlNode?
    const cmp: (int, int) -> int
    var height: int
    var first: AvlNode?
    var last: AvlNode?
    ghost const dom: iset<int>
    ghost var rotations: nat  // how many rotations there have been
    ghost var nodes: set<AvlNode>
    ghost var order: seq<AvlNode>

    // ---------- shape ----------

    ghost predicate Indexed()
      reads `root, `order, `nodes, nodes`pos
    {
      forall i | 0 <= i < |order| :: order[i] in nodes && order[i].pos == i
    }

    // Node `x` sits inside the interval of positions its subtree occupies.
    ghost predicate Spanned(x: AvlNode)
      reads `root, `order, `nodes, x`lo, x`pos, x`hi
    {
      0 <= x.lo <= x.pos < x.hi <= |order| && order[x.pos] == x
    }

    // The left subtree occupies [lo, pos) and its root points back to `x`.
    ghost predicate LeftLinked(x: AvlNode)
      reads `root, `order, `nodes, x`left, x`lo, x`pos, nodes`parent, nodes`lo, nodes`hi
    {
      && (x.left == null ==> x.lo == x.pos)
      && (x.left != null ==>
        x.left in nodes && x.left.parent == x && x.left.lo == x.lo && x.left.hi == x.pos && x.lo < x.pos)
    }

    // The right subtree occupies [pos + 1, hi) and its root points back to `x`.
    ghost predicate RightLinked(x: AvlNode)
      reads `root, `order, `nodes, x`right, x`hi, x`pos, nodes`parent, nodes`lo, nodes`hi
    {
      && (x.right == null ==> x.pos + 1 == x.hi)
      && (x.right != null ==>
        x.right in nodes && x.right.parent == x && x.right.lo == x.pos + 1 && x.right.hi == x.hi && x.pos + 1 < x.hi)
    }

    // `x` is the root or a child of its parent.
    ghost predicate Hung(x: AvlNode)
      reads `root, `order, `nodes, x`parent, nodes`left, nodes`right
    {
      && (x.parent == null ==> x == root)
      && (x.parent != null ==> x.parent in nodes && (x.parent.left == x || x.parent.right == x))
    }

    ghost predicate Linked(x: AvlNode)
      reads `root, `order, `nodes, x`left, x`right, x`parent, x`lo, x`pos, x`hi, nodes`left, nodes`right,
        nodes`parent, nodes`lo, nodes`pos, nodes`hi
    {
      Spanned(x) && LeftLinked(x) && RightLinked(x) && Hung(x)
    }

    ghost predicate Shape()
      reads `root, `order, `nodes, nodes`left, nodes`right, nodes`parent, nodes`lo, nodes`pos, nodes`hi
    {
      && Indexed()
      && (root == null ==> order == [])
      && (root != null ==> root in nodes && root.parent == null && root.lo == 0 && root.hi == |order|)
      && (forall x {:trigger Linked(x)} | x in nodes :: Linked(x))
    }

    // The root spans all positions.
    ghost predicate Topped()
      reads `root, `order, `nodes, nodes`parent, nodes`lo, nodes`hi
    {
      && (root == null ==> order == [])
      && (root != null ==> root in nodes && root.parent == null && root.lo == 0 && root.hi == |order|)
    }

    lemma Assembled()
      requires Indexed() && Topped()
      requires forall x | x in nodes :: Spanned(x) && LeftLinked(x)
      requires forall x | x in nodes :: RightLinked(x)
      requires forall x | x in nodes :: Hung(x)
      ensures Shape()
    {
    }

    // ---------- heights ----------

    ghost function Ht(n: AvlNode?): nat
      reads `nodes, nodes`ht
    {
      if n in nodes then n.ht else 0
    }

    /** The height and balance stored in `x` are right, except that a `stale`
        node still sees its left (or right) subtree `d` levels higher than it is. */
    ghost predicate Balanced(x: AvlNode, stale: AvlNode?, isLeft: bool, d: int)
      reads `root, `order, `nodes, nodes`ht, x`left, x`right, x`balance, x`ht
    {
      var l := Ht(x.left) + (if x == stale && isLeft then d else 0);
      var r := Ht(x.right) + (if x == stale && !isLeft then d else 0);
      && x.ht == 1 + Max(l, r)
      && x.balance == r - l
      && -1 <= x.balance <= 1
    }

    ghost predicate AllBalanced(stale: AvlNode?, isLeft: bool, d: int)
      reads `root, `order, `nodes, nodes`ht, nodes`left, nodes`right, nodes`balance
    {
      forall x {:trigger Balanced(x, stale, isLeft, d)} | x in nodes :: Balanced(x, stale, isLeft, d)
    }

    // ---------- the invariant ----------

    ghost predicate Ends()
      reads this
    {
      && first == (if order == [] then null else order[0])
      && last == (if order == [] then null else order[|order| - 1])
    }

    ghost predicate Keys()
      reads this
    {
      && Ordering(cmp, dom)
      && Sorted(order, cmp)
      && (forall x | x in nodes :: x.key in dom)
    }

    ghost predicate Valid()
      reads this, nodes
    {
      && Shape()
      && AllBalanced(null, false, 0)
      && height == Ht(root) - 1
      && Ends()
      && Keys()
    }

    constructor (cmp: (int, int) -> int, ghost dom: iset<int>)
      requires Ordering(cmp, dom)
      ensures Valid() && order == [] && height == -1 && this.cmp == cmp && this.dom == dom && nodes == {}
    {
      this.root := null;
      this.cmp := cmp;
      this.height := -1;
      this.first := null;
      this.last := null;
      this.dom := dom;
      this.order := [];
      this.nodes := {};
    }

    // ---------- iterators ----------

    method GetFirst(start: AvlNode) returns (n: AvlNode)
      requires Shape() && start in nodes
      ensures n in nodes && n.left == null && n.lo == n.pos == start.lo
    {
      assert Linked(start);
      n := start;
      while n.left != null
        invariant n in nodes && n.lo == start.lo && Linked(n)
        decreases n.hi - n.lo
      {
        assert Linked(n.left);
        n := n.left;
      }
    }

    method GetLast(start: AvlNode) returns (n: AvlNode)
      requires Shape() && start in nodes
      ensures n in nodes && n.right == null && n.hi == n.pos + 1 == start.hi
    {
      assert Linked(start);
      n := start;
      while n.right != null
        invariant n in nodes && n.hi == start.hi && Linked(n)
        decreases n.hi - n.lo
      {
        assert Linked(n.right);
        n := n.right;
      }
    }

    /** In-order successor, reached downwards or by climbing. */
    method Next(start: AvlNode) returns (n: AvlNode?)
      requires Shape() && start in nodes
      ensures 0 <= start.pos < |order|
      ensures n == if start.pos + 1 < |order| then order[start.pos + 1] else null
    {
      assert Linked(start);
      if start.right != null {
        n := GetFirst(start.right);
        assert Linked(n);
        return;
      }
      var node := start;
      n := node.parent;
      while n != null && n.right == node
        invariant node in nodes && node.hi == start.pos + 1 && n == node.parent && Linked(node)
        invariant n != null ==> n in nodes && Linked(n)
        decreases |order| - (node.hi - node.lo)
      {
        node := n;
        n := n.parent;
        assert Linked(node);
        if n != null { assert Linked(n); }
      }
    }

    method Prev(start: AvlNode) returns (n: AvlNode?)
      requires Shape() && start in nodes
      ensures 0 <= start.pos < |order|
      ensures n == if 0 < start.pos then order[start.pos - 1] else null
    {
      assert Linked(start);
      if start.left != null {
        n := GetLast(start.left);
        assert Linked(n);
        return;
      }
      var node := start;
      n := node.parent;
      while n != null && n.left == node
        invariant node in nodes && node.lo == start.pos && n == node.parent && Linked(node)
        invariant n != null ==> n in nodes && Linked(n)
        decreases |order| - (node.hi - node.lo)
      {
        node := n;
        n := n.parent;
        assert Linked(node);
        if n != null { assert Linked(n); }
      }
    }

    // ---------- rotations ----------

    static function Swap(x: AvlNode?, p: AvlNode, q: AvlNode?): AvlNode? {
      if x == p then q else x
    }

    lemma At(x: AvlNode)
      requires Shape() && x in nodes
      ensures Linked(x)
    {
    }

    twostate lemma WasLinked(x: AvlNode)
      requires old(Shape()) && x in old(nodes)
      ensures old(Linked(x))
    {
      assert old(Linked(x));
    }

    twostate predicate Same(x: AvlNode)
      reads x
    {
      && x.left == old(x.left) && x.right == old(x.right) && x.parent == old(x.parent)
      && x.lo == old(x.lo) && x.pos == old(x.pos) && x.hi == old(x.hi)
    }

    // `x` keeps its place; where it pointed to `p` it now points to `q`.
    twostate predicate Kept(x: AvlNode, p: AvlNode, q: AvlNode)
      reads x
    {
      && x.left == Swap(old(x.left), p, q) && x.right == Swap(old(x.right), p, q)
      && x.lo == old(x.lo) && x.pos == old(x.pos) && x.hi == old(x.hi)
    }

    /** Exactly what the assignments of rotate_left do: `q`, the right child of
        `p`, takes its place below `par`, and `b` moves from `q` to `p`. */
    twostate predicate LeftDelta(p: AvlNode, q: AvlNode, b: AvlNode?, par: AvlNode?)
      reads this, nodes
    {
      && old(nodes) == nodes && old(order) == order
      && p in nodes && q in nodes && q != p
      && root == Swap(old(root), p, q)
      && q.left == p && q.right == old(q.right) && q.parent == par
      && q.lo == old(p.lo) && q.pos == old(q.pos) && q.hi == old(p.hi)
      && p.left == old(p.left) && p.right == b && p.parent == q
      && p.lo == old(p.lo) && p.pos == old(p.pos) && p.hi == q.pos
      && (b != null ==>
        && b in nodes && b.parent == p && b.left == old(b.left) && b.right == old(b.right)
        && b.lo == old(b.lo) && b.pos == old(b.pos) && b.hi == old(b.hi))
      && (par != null ==>
        && par in nodes && par.parent == old(par.parent)
        && par.left == Swap(old(par.left), p, q) && par.right == Swap(old(par.right), p, q)
        && par.lo == old(par.lo) && par.pos == old(par.pos) && par.hi == old(par.hi))
      && forall x | x in nodes && x != p && x != q && x != b && x != par :: Same(x)
    }

    lemma AroundLeft(p: AvlNode)
      requires Shape() && p in nodes && p.right != null
      ensures var q, par := p.right, p.parent;
        && q in nodes && q != p && q.parent == p && p.left != p && p.left != q && q.right != p && q.right != q
        && (q.left != null ==> q.left in nodes && q.left != p && q.left != q && q.left != par)
        && (par != null ==> par in nodes && par != p && par != q && (par.left == p) != (par.right == p))
        && (par == null <==> p == root)
    {
      At(p);
      At(p.right);
      if p.left != null { At(p.left); }
      if p.right.right != null { At(p.right.right); }
      if p.right.left != null { At(p.right.left); }
      if p.parent != null { At(p.parent); }
    }

    twostate lemma LeftDeltaFacts(p: AvlNode)
      requires old(Shape()) && p in old(nodes) && old(p.right) != null
      ensures old(Linked(p)) && old(Linked(p.right))
      ensures old(p.right.left) != null ==> old(Linked(p.right.left))
      ensures old(p.parent) != null ==> old(Linked(p.parent))
    {
      WasLinked(p);
      WasLinked(old(p.right));
      if old(p.right.left) != null { WasLinked(old(p.right.left)); }
      if old(p.parent) != null { WasLinked(old(p.parent)); }
    }

    twostate lemma LeftDeltaLeft(p: AvlNode)
      requires old(Shape()) && p in old(nodes) && old(p.right) != null
      requires LeftDelta(p, old(p.right), old(p.right.left), old(p.parent))
      ensures forall x | x in nodes :: Spanned(x) && LeftLinked(x)
    {
      LeftDeltaFacts(p);
      forall x | x in nodes ensures Spanned(x) && LeftLinked(x) {
        WasLinked(x);
      }
    }

    twostate lemma LeftDeltaRight(p: AvlNode)
      requires old(Shape()) && p in old(nodes) && old(p.right) != null
      requires LeftDelta(p, old(p.right), old(p.right.left), old(p.parent))
      ensures forall x | x in nodes :: RightLinked(x)
    {
      LeftDeltaFacts(p);
      forall x | x in nodes ensures RightLinked(x) {
        WasLinked(x);
      }
    }

    twostate lemma LeftDeltaUp(p: AvlNode)
      requires old(Shape()) && p in old(nodes) && old(p.right) != null
      requires LeftDelta(p, old(p.right), old(p.right.left), old(p.parent))
      ensures forall x | x in nodes :: Hung(x)
    {
      LeftDeltaFacts(p);
      forall x | x in nodes ensures Hung(x) {
        WasLinked(x);
      }
    }

    twostate lemma LeftDeltaShape(p: AvlNode)
      requires old(Shape()) && p in old(nodes) && old(p.right) != null
      requires LeftDelta(p, old(p.right), old(p.right.left), old(p.parent))
      ensures Shape()
    {
      LeftDeltaLeft(p);
      LeftDeltaRight(p);
      LeftDeltaUp(p);
      WasLinked(p);
    }

    twostate lemma LeftDeltaKept(p: AvlNode)
      requires old(Shape()) && p in old(nodes) && old(p.right) != null
      requires LeftDelta(p, old(p.right), old(p.right.left), old(p.parent))
      ensures forall x | x in nodes && x != p && x != old(p.right) :: Kept(x, p, old(p.right))
    {
      LeftDeltaFacts(p);
      forall x | x in nodes && x != p && x != old(p.right) ensures Kept(x, p, old(p.right)) {
        WasLinked(x);
      }
    }

    // `q`, formerly the right child of `p`, is now above it.
    twostate predicate RotatedLeft(p: AvlNode, q: AvlNode)
      reads this, nodes
    {
      && old(nodes) == nodes && old(order) == order
      && p in nodes && q in nodes && q != p
      && root == Swap(old(root), p, q)
      && q.left == p && q.right == old(q.right) && q.parent == old(p.parent)
      && p.left == old(p.left) && p.right == old(q.left)
      && (old(p.parent) in nodes ==> old(p.parent).parent == old(p.parent.parent))
      && forall x {:trigger Kept(x, p, q)} | x in nodes && x != p && x != q :: Kept(x, p, q)
    }

    method RotateLeft(p: AvlNode)
      requires Shape() && p in nodes && p.right != null
      modifies `root, `rotations, nodes`left, nodes`right, nodes`parent, nodes`lo, nodes`hi
      ensures Shape() && RotatedLeft(p, old(p.right))
      ensures rotations == old(rotations) + 1
    {
      hide Shape;
      var q := p.right;
      var parent := p.parent;
      AroundLeft(p);
      if p.parent != null {
        if parent.left == p {
          parent.left := q;
        } else {
          parent.right := q;
        }
      } else {
        root := q;
      }
      q.parent := parent;
      p.parent := q;
      p.right := q.left;
      if p.right != null {
        p.right.parent := p;
      }
      q.left := p;
      q.lo := p.lo;
      q.hi := p.hi;
      p.hi := q.pos;
      rotations := rotations + 1;
      LeftDeltaShape(p);
      LeftDeltaKept(p);
    }

    /** Exactly what the assignments of rotate_right do: `q`, the left child of
        `p`, takes its place below `par`, and `b` moves from `q` to `p`. */
    twostate predicate RightDelta(p: AvlNode, q: AvlNode, b: AvlNode?, par: AvlNode?)
      reads this, nodes
    {
      && old(nodes) == nodes && old(order) == order
      && p in nodes && q in nodes && q != p
      && root == Swap(old(root), p, q)
      && q.right == p && q.left == old(q.left) && q.parent == par
      && q.lo == old(p.lo) && q.pos == old(q.pos) && q.hi == old(p.hi)
      && p.right == old(p.right) && p.left == b && p.parent == q
      && p.lo == q.pos + 1 && p.pos == old(p.pos) && p.hi == old(p.hi)
      && (b != null ==>
        && b in nodes && b.parent == p && b.right == old(b.right) && b.left == old(b.left)
        && b.lo == old(b.lo) && b.pos == old(b.pos) && b.hi == old(b.hi))
      && (par != null ==>
        && par in nodes && par.parent == old(par.parent)
        && par.right == Swap(old(par.right), p, q) && par.left == Swap(old(par.left), p, q)
        && par.lo == old(par.lo) && par.pos == old(par.pos) && par.hi == old(par.hi))
      && forall x | x in nodes && x != p && x != q && x != b && x != par :: Same(x)
    }

    lemma AroundRight(p: AvlNode)
      requires Shape() && p in nodes && p.left != null
      ensures var q, par := p.left, p.parent;
        && q in nodes && q != p && q.parent == p && p.right != p && p.right != q && q.left != p && q.left != q
        && (q.right != null ==> q.right in nodes && q.right != p && q.right != q && q.right != par)
        && (par != null ==> par in nodes && par != p && par != q && (par.right == p) != (par.left == p))
        && (par == null <==> p == root)
    {
      At(p);
      At(p.left);
      if p.right != null { At(p.right); }
      if p.left.left != null { At(p.left.left); }
      if p.left.right != null { At(p.left.right); }
      if p.parent != null { At(p.parent); }
    }

    twostate lemma RightDeltaFacts(p: AvlNode)
      requires old(Shape()) && p in old(nodes) && old(p.left) != null
      ensures old(Linked(p)) && old(Linked(p.left))
      ensures old(p.left.right) != null ==> old(Linked(p.left.right))
      ensures old(p.parent) != null ==> old(Linked(p.parent))
    {
      WasLinked(p);
      WasLinked(old(p.left));
      if old(p.left.right) != null { WasLinked(old(p.left.right)); }
      if old(p.parent) != null { WasLinked(old(p.parent)); }
    }

    twostate lemma RightDeltaRight(p: AvlNode)
      requires old(Shape()) && p in old(nodes) && old(p.left) != null
      requires RightDelta(p, old(p.left), old(p.left.right), old(p.parent))
      ensures forall x | x in nodes :: Spanned(x) && RightLinked(x)
    {
      RightDeltaFacts(p);
      forall x | x in nodes ensures Spanned(x) && RightLinked(x) {
        WasLinked(x);
      }
    }

    twostate lemma RightDeltaLeft(p: AvlNode)
      requires old(Shape()) && p in old(nodes) && old(p.left) != null
      requires RightDelta(p, old(p.left), old(p.left.right), old(p.parent))
      ensures forall x | x in nodes :: LeftLinked(x)
    {
      RightDeltaFacts(p);
      forall x | x in nodes ensures LeftLinked(x) {
        WasLinked(x);
      }
    }

    twostate lemma RightDeltaUp(p: AvlNode)
      requires old(Shape()) && p in old(nodes) && old(p.left) != null
      requires RightDelta(p, old(p.left), old(p.left.right), old(p.parent))
      ensures forall x | x in nodes :: Hung(x)
    {
      RightDeltaFacts(p);
      forall x | x in nodes ensures Hung(x) {
        WasLinked(x);
      }
    }

    twostate lemma RightDeltaShape(p: AvlNode)
      requires old(Shape()) && p in old(nodes) && old(p.left) != null
      requires RightDelta(p, old(p.left), old(p.left.right), old(p.parent))
      ensures Shape()
    {
      RightDeltaRight(p);
      RightDeltaLeft(p);
      RightDeltaUp(p);
      WasLinked(p);
    }

    twostate lemma RightDeltaKept(p: AvlNode)
      requires old(Shape()) && p in old(nodes) && old(p.left) != null
      requires RightDelta(p, old(p.left), old(p.left.right), old(p.parent))
      ensures forall x | x in nodes && x != p && x != old(p.left) :: Kept(x, p, old(p.left))
    {
      RightDeltaFacts(p);
      forall x | x in nodes && x != p && x != old(p.left) ensures Kept(x, p, old(p.left)) {
        WasLinked(x);
      }
    }

    // `q`, formerly the left child of `p`, is now above it.
    twostate predicate RotatedRight(p: AvlNode, q: AvlNode)
      reads this, nodes
    {
      && old(nodes) == nodes && old(order) == order
      && p in nodes && q in nodes && q != p
      && root == Swap(old(root), p, q)
      && q.right == p && q.left == old(q.left) && q.parent == old(p.parent)
      && p.right == old(p.right) && p.left == old(q.right)
      && (old(p.parent) in nodes ==> old(p.parent).parent == old(p.parent.parent))
      && forall x {:trigger Kept(x, p, q)} | x in nodes && x != p && x != q :: Kept(x, p, q)
    }

    method RotateRight(p: AvlNode)
      requires Shape() && p in nodes && p.left != null
      modifies `root, `rotations, nodes`left, nodes`right, nodes`parent, nodes`lo, nodes`hi
      ensures Shape() && RotatedRight(p, old(p.left))
      ensures rotations == old(rotations) + 1
    {
      hide Shape;
      var q := p.left;
      var parent := p.parent;
      AroundRight(p);
      if p.parent != null {
        if parent.left == p {
          parent.left := q;
        } else {
          parent.right := q;
        }
      } else {
        root := q;
      }
      q.parent := parent;
      p.parent := q;
      p.left := q.right;
      if p.left != null {
        p.left.parent := p;
      }
      q.right := p;
      q.lo := p.lo;
      q.hi := p.hi;
      p.lo := q.pos + 1;
      rotations := rotations + 1;
      RightDeltaShape(p);
      RightDeltaKept(p);
    }

    // ---------- heights after a rearrangement ----------

    ghost predicate IsLeft(n: AvlNode)
      reads n`parent, nodes`left, `nodes
    {
      n.parent in nodes && n.parent.left == n
    }

    ghost function Span(x: AvlNode): int
      reads x`lo, x`hi
    {
      x.hi - x.lo
    }

    // Every node but `u` is balanced.
    ghost predicate BalancedBut(u: AvlNode)
      reads `root, `order, `nodes, nodes`ht, nodes`left, nodes`right, nodes`balance
    {
      forall x {:trigger Balanced(x, null, false, 0)} | x in nodes && x != u :: Balanced(x, null, false, 0)
    }

    twostate predicate SameHeight(x: AvlNode)
      reads x
    {
      x.ht == old(x.ht) && x.balance == old(x.balance)
    }

    /** The subtree of `u` now has the root `r`: everything is balanced, except that
        the parent may still see the old height. */
    twostate predicate Settled(u: AvlNode, r: AvlNode)
      reads this, nodes, r
    {
      && AllBalanced(old(u.parent), old(IsLeft(u)), old(u.ht) - r.ht)
      && Ht(root) == (if old(u.parent) == null then r.ht else old(Ht(root)))
      && (old(u.parent) in nodes ==> Span(old(u.parent)) == old(Span(u.parent)))
    }

    twostate lemma RearrangedAt(x: AvlNode, new u: AvlNode, new r: AvlNode)
      requires nodes == old(nodes) && x in nodes && u in nodes && r in nodes
      requires old(Linked(x)) && old(Linked(u)) && old(Balanced(x, null, false, 0)) && Kept(x, u, r) && SameHeight(x)
      requires old(x.left) != null && old(x.left) != u ==> SameHeight(old(x.left))
      requires old(x.right) != null && old(x.right) != u ==> SameHeight(old(x.right))
      ensures Balanced(x, old(u.parent), old(IsLeft(u)), old(u.ht) - r.ht)
    {
    }

    // A node outside of what has been rearranged.
    twostate lemma RearrangedOutside(x: AvlNode, new t: set<AvlNode>, new u: AvlNode, new r: AvlNode)
      requires old(Shape()) && nodes == old(nodes) && t <= nodes && u in t && r in t && x in nodes && x !in t
      requires forall c | c in t :: c == u || old(c.parent) in t
      requires forall x {:trigger SameHeight(x)} | x in nodes && x !in t :: SameHeight(x)
      requires Kept(x, u, r) && old(Balanced(x, null, false, 0))
      ensures Balanced(x, old(u.parent), old(IsLeft(u)), old(u.ht) - r.ht)
    {
      hide Shape, Balanced, IsLeft;
      WasLinked(u);
      WasLinked(x);
      var l, e := old(x.left), old(x.right);
      assert l in nodes && l !in t ==> SameHeight(l);
      assert e in nodes && e !in t ==> SameHeight(e);
      assert SameHeight(x);
      RearrangedAt(x, u, r);
    }

    twostate lemma RearrangedAll(t: set<AvlNode>, new u: AvlNode, new r: AvlNode)
      requires old(Shape()) && nodes == old(nodes) && t <= nodes && u in t && r in t
      requires forall c | c in t :: c == u || old(c.parent) in t
      requires old(u.parent) !in t
      requires forall x {:trigger Kept(x, u, r)} | x in nodes && x !in t :: Kept(x, u, r)
      requires forall x {:trigger SameHeight(x)} | x in nodes && x !in t :: SameHeight(x)
      requires forall x {:trigger old(Balanced(x, null, false, 0))} | x in nodes && x !in t ::
        old(Balanced(x, null, false, 0))
      requires forall x | x in t :: Balanced(x, null, false, 0)
      ensures AllBalanced(old(u.parent), old(IsLeft(u)), old(u.ht) - r.ht)
    {
      hide Shape, Kept, IsLeft, SameHeight;
      var par, side, d := old(u.parent), old(IsLeft(u)), old(u.ht) - r.ht;
      forall x | x in nodes ensures Balanced(x, par, side, d) {
        if x !in t {
          assert Kept(x, u, r) && old(Balanced(x, null, false, 0));
          RearrangedOutside(x, t, u, r);
        }
      }
    }

    twostate lemma Rearranged(t: set<AvlNode>, new u: AvlNode, new r: AvlNode)
      requires old(Shape()) && Shape() && nodes == old(nodes) && t <= nodes && u in t && r in t
      requires root == Swap(old(root), u, r) && r.parent == old(u.parent)
      requires forall c | c in t :: c == u || old(c.parent) in t
      requires old(u.parent) !in t
      requires forall x {:trigger Kept(x, u, r)} | x in nodes && x !in t :: Kept(x, u, r)
      requires forall x {:trigger SameHeight(x)} | x in nodes && x !in t :: SameHeight(x)
      requires forall x {:trigger old(Balanced(x, null, false, 0))} | x in nodes && x !in t ::
        old(Balanced(x, null, false, 0))
      requires forall x | x in t :: Balanced(x, null, false, 0)
      ensures Settled(u, r)
    {
      hide Shape, AllBalanced, Balanced, SameHeight, IsLeft;
      RearrangedAll(t, u, r);
      if old(u.parent) in nodes { assert Kept(old(u.parent), u, r); }
      RootHeight(t, u, r);
    }

    twostate lemma RootHeight(t: set<AvlNode>, new u: AvlNode, new r: AvlNode)
      requires old(Shape()) && Shape() && nodes == old(nodes) && t <= nodes && u in t && r in t
      requires root == Swap(old(root), u, r)
      requires forall c | c in t :: c == u || old(c.parent) in t
      requires forall x {:trigger SameHeight(x)} | x in nodes && x !in t :: SameHeight(x)
      ensures Ht(root) == (if old(u.parent) == null then r.ht else old(Ht(root)))
    {
      WasLinked(u);
      if old(root) in t {
        assert old(root).pos == old(root).pos;
      } else {
        assert SameHeight(old(root));
      }
    }

    method LeftWith(u: AvlNode, bu: Balance, br: Balance)
      requires Shape() && u in nodes && u.right in nodes
      modifies `root, `rotations, nodes`left, nodes`right, nodes`parent, nodes`lo, nodes`hi, u`balance,
        u.right`balance, u`ht, u.right`ht
      ensures Shape() && RotatedLeft(u, old(u.right))
      ensures u.balance == bu && old(u.right).balance == br
      ensures u.ht == 1 + Max(old(Ht(u.left)), old(Ht(u.right.left)))
      ensures old(u.right).ht == 1 + Max(u.ht, old(Ht(u.right.right)))
      ensures rotations == old(rotations) + 1
    {
      hide Shape;
      var r := u.right;
      AroundLeft(u);
      u.ht := 1 + Max(Ht(u.left), Ht(r.left));
      r.ht := 1 + Max(u.ht, Ht(r.right));
      u.balance := bu;
      r.balance := br;
      label rotating:
      RotateLeft(u);
      forall x | x in nodes && x != u && x != r ensures Kept(x, u, r) {
        assert Kept@rotating(x, u, r);
      }
    }

    /** Single left rotation at `u`, whose right child is two levels higher; `bu`
        and `br` are the balances they get. */
    method SingleLeft(u: AvlNode, bu: Balance, br: Balance)
      requires Shape() && u in nodes && u.right in nodes && BalancedBut(u)
      requires Ht(u.right) == Ht(u.left) + 2
      requires if u.right.balance == 0 then bu == 1 && br == -1 else u.right.balance == 1 && bu == br == 0
      modifies `root, `rotations, nodes`left, nodes`right, nodes`parent, nodes`lo, nodes`hi, nodes`balance, nodes`ht
      ensures Shape() && nodes == old(nodes) && order == old(order)
      ensures Settled(u, old(u.right))
      ensures old(u.right).ht == old(u.right.ht) + (if br == -1 then 1 else 0)
      ensures rotations == old(rotations) + 1
    {
      hide Shape;
      var r := u.right;
      AroundLeft(u);
      assert Balanced(r, null, false, 0);
      LeftWith(u, bu, br);
      Rearranged({u, r}, u, r);
    }

    method RightWith(u: AvlNode, bu: Balance, br: Balance)
      requires Shape() && u in nodes && u.left in nodes
      modifies `root, `rotations, nodes`left, nodes`right, nodes`parent, nodes`lo, nodes`hi, u`balance,
        u.left`balance, u`ht, u.left`ht
      ensures Shape() && RotatedRight(u, old(u.left))
      ensures u.balance == bu && old(u.left).balance == br
      ensures u.ht == 1 + Max(old(Ht(u.right)), old(Ht(u.left.right)))
      ensures old(u.left).ht == 1 + Max(u.ht, old(Ht(u.left.left)))
      ensures rotations == old(rotations) + 1
    {
      hide Shape;
      var r := u.left;
      AroundRight(u);
      u.ht := 1 + Max(Ht(u.right), Ht(r.right));
      r.ht := 1 + Max(u.ht, Ht(r.left));
      u.balance := bu;
      r.balance := br;
      label rotating:
      RotateRight(u);
      forall x | x in nodes && x != u && x != r ensures Kept(x, u, r) {
        assert Kept@rotating(x, u, r);
      }
    }

    /** Single right rotation at `u`, whose left child is two levels higher; `bu`
        and `br` are the balances they get. */
    method SingleRight(u: AvlNode, bu: Balance, br: Balance)
      requires Shape() && u in nodes && u.left in nodes && BalancedBut(u)
      requires Ht(u.left) == Ht(u.right) + 2
      requires if u.left.balance == 0 then bu == -1 && br == 1 else u.left.balance == -1 && bu == br == 0
      modifies `root, `rotations, nodes`left, nodes`right, nodes`parent, nodes`lo, nodes`hi, nodes`balance, nodes`ht
      ensures Shape() && nodes == old(nodes) && order == old(order)
      ensures Settled(u, old(u.left))
      ensures old(u.left).ht == old(u.left.ht) + (if br == 1 then 1 else 0)
      ensures rotations == old(rotations) + 1
    {
      hide Shape;
      var r := u.left;
      AroundRight(u);
      assert Balanced(r, null, false, 0);
      RightWith(u, bu, br);
      Rearranged({u, r}, u, r);
    }

    // ---------- double rotations ----------

    // The set_balance calls that precede a double rotation, with `u` to the left of
    // the middle node `m` and `r` to its right, and the heights the three will have.
    method Relabel(u: AvlNode, r: AvlNode, m: AvlNode)
      requires u in nodes && r in nodes && m in nodes && u != r && u != m && r != m
      requires u.left !in {u, r, m} && m.left !in {u, r, m} && m.right !in {u, r, m} && r.right !in {u, r, m}
      modifies u`balance, r`balance, m`balance, u`ht, r`ht, m`ht
      ensures u.balance == (if old(m.balance) == 1 then -1 else if old(m.balance) in {-1, 0} then 0 else old(u.balance))
      ensures r.balance == (if old(m.balance) == -1 then 1 else if old(m.balance) in {0, 1} then 0 else old(r.balance))
      ensures m.balance == 0
      ensures u.ht == 1 + Max(old(Ht(u.left)), old(Ht(m.left)))
      ensures r.ht == 1 + Max(old(Ht(m.right)), old(Ht(r.right)))
      ensures m.ht == 1 + Max(u.ht, r.ht)
    {
      if m.balance == 1 {
        u.balance := -1;
        r.balance := 0;
      } else if m.balance == 0 {
        u.balance := 0;
        r.balance := 0;
      } else if m.balance == -1 {
        u.balance := 0;
        r.balance := 1;
      }
      m.balance := 0;
      u.ht := 1 + Max(Ht(u.left), Ht(m.left));
      r.ht := 1 + Max(Ht(m.right), Ht(r.right));
      m.ht := 1 + Max(u.ht, r.ht);
    }

    lemma ApartLeft(u: AvlNode)
      requires Shape() && u in nodes && u.right in nodes && u.right.left in nodes
      ensures var r, m := u.right, u.right.left;
        && u != r && u != m && r != m && r.parent == u && m.parent == r
        && u.left !in {u, r, m} && m.left !in {u, r, m} && m.right !in {u, r, m} && r.right !in {u, r, m}
    {
      var r, m := u.right, u.right.left;
      At(u);
      At(r);
      At(m);
      if u.left != null { At(u.left); }
      if r.right != null { At(r.right); }
      if m.left != null { At(m.left); }
      if m.right != null { At(m.right); }
    }

    method DoubleLeftWith(u: AvlNode)
      requires Shape() && u in nodes && u.right in nodes && u.right.left in nodes
      requires -1 <= u.right.left.balance <= 1
      modifies `root, `rotations, nodes`left, nodes`right, nodes`parent, nodes`lo, nodes`hi
      modifies u`balance, u.right`balance, u.right.left`balance, u`ht, u.right`ht, u.right.left`ht
      ensures Shape() && nodes == old(nodes) && order == old(order)
      ensures var r, m := old(u.right), old(u.right.left);
        && u.left == old(u.left) && u.right == old(m.left) && r.left == old(m.right) && r.right == old(r.right)
        && m.left == u && m.right == r && m.parent == old(u.parent) && root == Swap(old(root), u, m)
        && u.balance == (if old(m.balance) == 1 then -1 else 0)
        && r.balance == (if old(m.balance) == -1 then 1 else 0)
        && m.balance == 0
        && u.ht == 1 + Max(old(Ht(u.left)), old(Ht(m.left))) && r.ht == 1 + Max(old(Ht(m.right)), old(Ht(r.right)))
        && m.ht == 1 + Max(u.ht, r.ht)
        && forall x {:trigger Kept(x, u, m)} | x in nodes && x != u && x != r && x != m :: Kept(x, u, m)
      ensures rotations == old(rotations) + 2
    {
      hide Shape;
      var r := u.right;
      var m := r.left;
      ApartLeft(u);
      AroundRight(r);
      Relabel(u, r, m);
      label first:
      RotateRight(r);
      forall x | x in nodes && x != r && x != m
        ensures x.left == Swap(old(x.left), r, m) && x.right == Swap(old(x.right), r, m)
        ensures x.lo == old(x.lo) && x.pos == old(x.pos) && x.hi == old(x.hi)
      {
        assert Kept@first(x, r, m);
      }
      label second:
      RotateLeft(u);
      forall x | x in nodes && x != u && x != r && x != m ensures Kept(x, u, m) {
        WasLinked(x);
        assert Kept@second(x, u, m);
      }
      assert Kept@second(r, u, m);
    }

    /** Double rotation at `u`, whose right child is two levels higher and leans left. */
    method DoubleLeft(u: AvlNode)
      requires Shape() && u in nodes && u.right in nodes && BalancedBut(u)
      requires Ht(u.right) == Ht(u.left) + 2 && u.right.balance == -1
      modifies `root, `rotations, nodes`left, nodes`right, nodes`parent, nodes`lo, nodes`hi, nodes`balance, nodes`ht
      ensures Shape() && nodes == old(nodes) && order == old(order)
      ensures old(u.right.left) in nodes && Settled(u, old(u.right.left))
      ensures old(u.right.left).ht == old(u.right.ht)
      ensures rotations == old(rotations) + 2
    {
      hide Shape;
      var r := u.right;
      AroundLeft(u);
      assert Balanced(r, null, false, 0);
      var m := r.left;
      ApartLeft(u);
      assert Balanced(m, null, false, 0);
      DoubleLeftWith(u);
      Rearranged({u, r, m}, u, m);
    }

    lemma ApartRight(u: AvlNode)
      requires Shape() && u in nodes && u.left in nodes && u.left.right in nodes
      ensures var r, m := u.left, u.left.right;
        && u != r && u != m && r != m && r.parent == u && m.parent == r
        && u.right !in {u, r, m} && m.right !in {u, r, m} && m.left !in {u, r, m} && r.left !in {u, r, m}
    {
      var r, m := u.left, u.left.right;
      At(u);
      At(r);
      At(m);
      if u.right != null { At(u.right); }
      if r.left != null { At(r.left); }
      if m.right != null { At(m.right); }
      if m.left != null { At(m.left); }
    }

    method DoubleRightWith(u: AvlNode)
      requires Shape() && u in nodes && u.left in nodes && u.left.right in nodes
      requires -1 <= u.left.right.balance <= 1
      modifies `root, `rotations, nodes`left, nodes`right, nodes`parent, nodes`lo, nodes`hi
      modifies u`balance, u.left`balance, u.left.right`balance, u`ht, u.left`ht, u.left.right`ht
      ensures Shape() && nodes == old(nodes) && order == old(order)
      ensures var r, m := old(u.left), old(u.left.right);
        && u.right == old(u.right) && u.left == old(m.right) && r.right == old(m.left) && r.left == old(r.left)
        && m.right == u && m.left == r && m.parent == old(u.parent) && root == Swap(old(root), u, m)
        && u.balance == (if old(m.balance) == -1 then 1 else 0)
        && r.balance == (if old(m.balance) == 1 then -1 else 0)
        && m.balance == 0
        && u.ht == 1 + Max(old(Ht(u.right)), old(Ht(m.right))) && r.ht == 1 + Max(old(Ht(m.left)), old(Ht(r.left)))
        && m.ht == 1 + Max(u.ht, r.ht)
        && forall x {:trigger Kept(x, u, m)} | x in nodes && x != u && x != r && x != m :: Kept(x, u, m)
      ensures rotations == old(rotations) + 2
    {
      hide Shape;
      var r := u.left;
      var m := r.right;
      ApartRight(u);
      AroundLeft(r);
      Relabel(r, u, m);
      label first:
      RotateLeft(r);
      forall x | x in nodes && x != r && x != m
        ensures x.right == Swap(old(x.right), r, m) && x.left == Swap(old(x.left), r, m)
        ensures x.lo == old(x.lo) && x.pos == old(x.pos) && x.hi == old(x.hi)
      {
        assert Kept@first(x, r, m);
      }
      label second:
      RotateRight(u);
      forall x | x in nodes && x != u && x != r && x != m ensures Kept(x, u, m) {
        WasLinked(x);
        assert Kept@second(x, u, m);
      }
      assert Kept@second(r, u, m);
    }

    /** Double rotation at `u`, whose left child is two levels higher and leans right. */
    method DoubleRight(u: AvlNode)
      requires Shape() && u in nodes && u.left in nodes && BalancedBut(u)
      requires Ht(u.left) == Ht(u.right) + 2 && u.left.balance == 1
      modifies `root, `rotations, nodes`left, nodes`right, nodes`parent, nodes`lo, nodes`hi, nodes`balance, nodes`ht
      ensures Shape() && nodes == old(nodes) && order == old(order)
      ensures old(u.left.right) in nodes && Settled(u, old(u.left.right))
      ensures old(u.left.right).ht == old(u.left.ht)
      ensures rotations == old(rotations) + 2
    {
      hide Shape;
      var r := u.left;
      AroundRight(u);
      assert Balanced(r, null, false, 0);
      var m := r.right;
      ApartRight(u);
      assert Balanced(m, null, false, 0);
      DoubleRightWith(u);
      Rearranged({u, r, m}, u, m);
    }

    // ---------- one level of rebalancing ----------

    lemma NoStale(par: AvlNode?, side: bool)
      requires AllBalanced(par, side, 0)
      ensures AllBalanced(null, false, 0)
    {
      forall x | x in nodes ensures Balanced(x, null, false, 0) {
        assert Balanced(x, par, side, 0);
      }
    }

    lemma StaleNode(node: AvlNode, side: bool, d: int)
      requires AllBalanced(node, side, d) && node in nodes
      ensures BalancedBut(node) && Balanced(node, node, side, d)
    {
      forall x | x in nodes && x != node ensures Balanced(x, null, false, 0) {
        assert Balanced(x, node, side, d);
      }
    }

    method IncBalance(node: AvlNode) returns (b: Balance)
      requires node in nodes && BalancedBut(node) && node.balance < 2
      modifies node`balance
      ensures BalancedBut(node) && b == node.balance == old(node.balance) + 1
    {
      node.balance := node.balance + 1;
      b := node.balance;
      forall x | x in nodes && x != node ensures Balanced(x, null, false, 0) {
        assert old(Balanced(x, null, false, 0));
      }
    }

    method DecBalance(node: AvlNode) returns (b: Balance)
      requires node in nodes && BalancedBut(node) && node.balance > -2
      modifies node`balance
      ensures BalancedBut(node) && b == node.balance == old(node.balance) - 1
    {
      node.balance := node.balance - 1;
      b := node.balance;
      forall x | x in nodes && x != node ensures Balanced(x, null, false, 0) {
        assert old(Balanced(x, null, false, 0));
      }
    }

    // The balance of `node` has caught up with a change of one level below it.
    twostate lemma CaughtUp(node: AvlNode)
      requires old(Shape()) && Shape() && node in nodes && nodes == old(nodes) && root == old(root)
      requires forall x {:trigger Same(x)} | x in nodes :: Same(x)
      requires forall x {:trigger SameHeight(x)} | x in nodes && x != node :: SameHeight(x)
      requires old(BalancedBut(node)) && Balanced(node, null, false, 0)
      ensures Settled(node, node)
    {
      hide Shape;
      WasLinked(node);
      forall x | x in nodes && x != node ensures Kept(x, node, node) && old(Balanced(x, null, false, 0)) {
        assert Same(x);
      }
      assert Same(node);
      Rearranged({node}, node, node);
    }

    lemma IsBalanced(node: AvlNode, x: AvlNode)
      requires BalancedBut(node) && x in nodes && x != node
      ensures Balanced(x, null, false, 0)
    {
    }

    /** One turn of the removal loop at `node`, whose left subtree has lost a level:
        either everything is balanced again, or the subtree of `node` has lost one too. */
    method ShrunkLeft(node: AvlNode) returns (done: bool)
      requires Shape() && node in nodes && AllBalanced(node, true, 1)
      modifies `root, `rotations, nodes`left, nodes`right, nodes`parent, nodes`lo, nodes`hi, nodes`balance, nodes`ht
      ensures Shape() && nodes == old(nodes) && order == old(order)
      ensures done ==> AllBalanced(null, false, 0) && Ht(root) == old(Ht(root))
      ensures !done ==> AllBalanced(old(node.parent), old(IsLeft(node)), 1)
      ensures !done ==> Ht(root) == old(Ht(root)) - (if old(node.parent) == null then 1 else 0)
      ensures old(node.parent) in nodes ==> Span(old(node.parent)) == old(Span(node.parent))
    {
      hide Shape, AllBalanced, BalancedBut;
      At(node);
      StaleNode(node, true, 1);
      var balance := IncBalance(node);
      if balance == 0 {
        node.ht := node.ht - 1;
        CaughtUp(node);
        return false;
      }
      if balance == 1 {
        CaughtUp(node);
        NoStale(node.parent, IsLeft(node));
        return true;
      }
      var right := node.right;
      AroundLeft(node);
      IsBalanced(node, right);
      if right.balance == 0 {
        SingleLeft(node, 1, -1);
        NoStale(old(node.parent), old(IsLeft(node)));
        done := true;
      } else if right.balance == 1 {
        SingleLeft(node, 0, 0);
        done := false;
      } else {
        DoubleLeft(node);
        done := false;
      }
    }

    /** One turn of the removal loop at `node`, whose right subtree has lost a level:
        either everything is balanced again, or the subtree of `node` has lost one too. */
    method ShrunkRight(node: AvlNode) returns (done: bool)
      requires Shape() && node in nodes && AllBalanced(node, false, 1)
      modifies `root, `rotations, nodes`left, nodes`right, nodes`parent, nodes`lo, nodes`hi, nodes`balance, nodes`ht
      ensures Shape() && nodes == old(nodes) && order == old(order)
      ensures done ==> AllBalanced(null, false, 0) && Ht(root) == old(Ht(root))
      ensures !done ==> AllBalanced(old(node.parent), old(IsLeft(node)), 1)
      ensures !done ==> Ht(root) == old(Ht(root)) - (if old(node.parent) == null then 1 else 0)
      ensures old(node.parent) in nodes ==> Span(old(node.parent)) == old(Span(node.parent))
    {
      hide Shape, AllBalanced, BalancedBut;
      At(node);
      StaleNode(node, false, 1);
      var balance := DecBalance(node);
      if balance == 0 {
        node.ht := node.ht - 1;
        CaughtUp(node);
        return false;
      }
      if balance == -1 {
        CaughtUp(node);
        NoStale(node.parent, IsLeft(node));
        return true;
      }
      var left := node.left;
      AroundRight(node);
      IsBalanced(node, left);
      if left.balance == 0 {
        SingleRight(node, -1, 1);
        NoStale(old(node.parent), old(IsLeft(node)));
        done := true;
      } else if left.balance == -1 {
        SingleRight(node, 0, 0);
        done := false;
      } else {
        DoubleRight(node);
        done := false;
      }
    }

    // ---------- insertion ----------

    ghost predicate Below(k: int, key: int)
      reads this
    {
      0 <= k <= |order| && forall i | 0 <= i < k :: cmp(order[i].key, key) < 0
    }

    ghost predicate Over(k: int, key: int)
      reads this
    {
      0 <= k <= |order| && forall i | k <= i < |order| :: cmp(order[i].key, key) > 0
    }

    lemma BelowNode(node: AvlNode, key: int)
      requires Valid() && key in dom && node in nodes && cmp(node.key, key) < 0
      ensures Below(node.pos + 1, key)
    {
      At(node);
      forall j | 0 <= j <= node.pos ensures cmp(order[j].key, key) < 0 {
        if j < node.pos { Transitive(order[j].key, node.key, key); }
      }
    }

    lemma OverNode(node: AvlNode, key: int)
      requires Valid() && key in dom && node in nodes && cmp(node.key, key) > 0
      ensures Over(node.pos, key)
    {
      At(node);
      forall j | node.pos <= j < |order| ensures cmp(order[j].key, key) > 0 {
        if node.pos < j {
          assert Antisymmetric(cmp, key, node.key);
          Transitive(key, node.key, order[j].key);
        }
      }
    }

    lemma Transitive(a: int, b: int, c: int)
      requires Ordering(cmp, dom) && a in dom && b in dom && c in dom
      requires cmp(a, b) < 0 && cmp(b, c) < 0
      ensures cmp(a, c) < 0 && cmp(c, a) > 0
    {
      assert Chained(cmp, a, b, c) && Chained(cmp, b, c, a);
      assert Antisymmetric(cmp, a, b) && Antisymmetric(cmp, a, c) && Antisymmetric(cmp, c, a);
    }

    /** Climbing from `x` one reaches `u`, and everything met before is in perfect balance. */
    ghost predicate Quiet(x: AvlNode, u: AvlNode)
      reads `nodes, `order, nodes`balance, nodes`parent, nodes`lo, nodes`hi, x`balance, x`parent, x`lo, x`hi
      decreases |order| - Span(x)
    {
      || x == u
      || (x.balance == 0 && x.parent in nodes && Span(x) < Span(x.parent) <= |order| && Quiet(x.parent, u))
    }

    lemma StaysQuiet(x: AvlNode, above: AvlNode?, u: AvlNode)
      requires Valid() && x in nodes
      requires x == u || (x.balance == 0 && x.parent == above && above in nodes && Quiet(above, u))
      ensures Quiet(x, u)
    {
      At(x);
      if x != u { At(above); }
    }

    /** The search stands at `node`, the `isLeft` child of `parent`: a subtree, maybe
        empty, that occupies the positions [k, hi); its neighbours in order are above it. */
    ghost predicate Descent(node: AvlNode?, parent: AvlNode?, isLeft: bool, k: int, hi: int)
      reads `root, `order, `nodes, nodes`left, nodes`right, nodes`parent, nodes`lo, nodes`pos, nodes`hi
    {
      && 0 <= k <= hi <= |order|
      && (node == null ==> k == hi)
      && (node != null ==> node in nodes && node.lo == k && node.hi == hi && node.parent == parent)
      && (parent == null ==> node == root && k == 0 && hi == |order|)
      && (parent != null ==> parent in nodes && 0 < |order|)
      && (parent != null && isLeft ==> parent.left == node && k == parent.lo && hi == parent.pos)
      && (parent != null && !isLeft ==> parent.right == node && k == parent.pos + 1 && hi == parent.hi)
      && (0 < k ==> order[k - 1] in nodes && order[k - 1].hi >= hi && (isLeft ==> order[k - 1].hi > hi))
      && (hi < |order| ==> order[hi] in nodes && order[hi].lo <= k && (!isLeft ==> order[hi].lo < k))
    }

    lemma DescentStart(key: int)
      requires Valid()
      ensures Below(0, key) && Over(|order|, key)
      ensures Descent(root, null, false, 0, |order|)
      ensures root != null ==> root in nodes && root.parent == null
      ensures root == null ==> order == []
    {
    }

    lemma DescentLeft(node: AvlNode, parent: AvlNode?, isLeft: bool, k: int, hi: int)
      requires Valid() && Descent(node, parent, isLeft, k, hi)
      ensures Descent(node.left, node, true, k, node.pos) && k <= node.pos < hi
      ensures if node.left == null then k == node.pos else node.left in nodes && node.left.parent == node
    {
      At(node);
      if node.left != null { At(node.left); }
    }

    lemma DescentRight(node: AvlNode, parent: AvlNode?, isLeft: bool, k: int, hi: int)
      requires Valid() && Descent(node, parent, isLeft, k, hi)
      ensures Descent(node.right, node, false, node.pos + 1, hi) && k <= node.pos < hi
      ensures if node.right == null then node.pos + 1 == hi else node.right in nodes && node.right.parent == node
    {
      At(node);
      if node.right != null { At(node.right); }
    }

    method Lookup(key: int) returns (found: AvlNode?, parent: AvlNode?, unbalanced: AvlNode?, isLeft: bool,
                                     ghost k: int)
      requires Valid() && key in dom
      ensures found != null ==> found in nodes && cmp(found.key, key) == 0
      ensures found == null ==> Below(k, key) && Over(k, key) && Descent(null, parent, isLeft, k, k)
      ensures found == null && parent != null ==> parent in nodes && unbalanced in nodes && Quiet(parent, unbalanced)
      ensures found == null && parent != null ==> unbalanced.balance != 0 || unbalanced == root
      ensures found == null && parent == null ==> order == []
    {
      hide Valid, Quiet, Below, Over, Descent;
      DescentStart(key);
      var node := root;
      found, parent, unbalanced, isLeft := null, null, node, false;
      k := 0;
      ghost var hi := |order|;
      while node != null
        invariant Below(k, key) && Over(hi, key) && Descent(node, parent, isLeft, k, hi)
        invariant node != null ==> node in nodes && node.parent == parent
        invariant node == null ==> k == hi
        invariant parent == null ==> node == unbalanced == root
        invariant parent != null ==> parent in nodes && unbalanced in nodes && Quiet(parent, unbalanced)
        invariant unbalanced != null ==> unbalanced.balance != 0 || unbalanced == root
        decreases hi - k
      {
        if node.balance != 0 {
          unbalanced := node;
        }
        StaysQuiet(node, parent, unbalanced);
        var res := cmp(node.key, key);
        if res == 0 {
          found := node;
          return;
        }
        ghost var above, side := parent, isLeft;
        parent := node;
        isLeft := res > 0;
        if isLeft {
          DescentLeft(node, above, side, k, hi);
          OverNode(node, key);
          hi := node.pos;
          node := node.left;
        } else {
          DescentRight(node, above, side, k, hi);
          BelowNode(node, key);
          k := node.pos + 1;
          node := node.right;
        }
      }
    }

    // Where a position goes when one is inserted at `k`: `Sh` for a node's own
    // position and the end of its interval, `ShLo` for the start of it.
    static function Sh(v: int, k: int): int {
      if v < k then v else v + 1
    }

    static function ShLo(v: int, k: int): int {
      if v <= k then v else v + 1
    }

    // `x` was in the tree and still is, one position having been inserted at `k`.
    twostate predicate Stayed(x: AvlNode, new parent: AvlNode, isLeft: bool, new node: AvlNode, k: int)
      reads x
    {
      && x.left == (if x == parent && isLeft then node else old(x.left))
      && x.right == (if x == parent && !isLeft then node else old(x.right))
      && x.parent == old(x.parent)
      && x.lo == ShLo(old(x.lo), k) && x.pos == Sh(old(x.pos), k) && x.hi == Sh(old(x.hi), k)
    }

    // `node` is a new leaf at gap `k` below `parent`.
    twostate predicate Attached(new node: AvlNode, new parent: AvlNode, isLeft: bool, k: int)
      reads this, nodes
    {
      && node !in old(nodes) && parent in old(nodes) && nodes == old(nodes) + {node} && root == old(root)
      && 0 <= k <= |old(order)| && order == old(order)[..k] + [node] + old(order)[k..]
      && node.left == null && node.right == null && node.parent == parent
      && node.lo == node.pos == k && node.hi == k + 1
      && forall x {:trigger Stayed(x, parent, isLeft, node, k)} | x in old(nodes) :: Stayed(x, parent, isLeft, node, k)
    }

    twostate lemma AttachedDown(node: AvlNode, new parent: AvlNode, new isLeft: bool, new k: int)
      requires parent in old(nodes) && old(Shape()) && old(Descent(null, parent, isLeft, k, k)) &&
        Attached(node, parent, isLeft, k)
      ensures forall x | x in nodes :: Spanned(x) && LeftLinked(x) && RightLinked(x)
    {
      WasLinked(parent);
      assert Stayed(parent, parent, isLeft, node, k);
      forall x | x in nodes ensures Spanned(x) && LeftLinked(x) && RightLinked(x) {
        if x != node {
          WasLinked(x);
          assert Stayed(x, parent, isLeft, node, k);
          if old(x.left) != null { assert Stayed(old(x.left), parent, isLeft, node, k); }
          if old(x.right) != null { assert Stayed(old(x.right), parent, isLeft, node, k); }
        }
      }
    }

    twostate lemma AttachedUp(node: AvlNode, new parent: AvlNode, new isLeft: bool, new k: int)
      requires parent in old(nodes) && old(Shape()) && old(Descent(null, parent, isLeft, k, k)) &&
        Attached(node, parent, isLeft, k)
      ensures forall x | x in nodes :: Hung(x)
    {
      WasLinked(parent);
      assert Stayed(parent, parent, isLeft, node, k);
      forall x | x in nodes ensures Hung(x) {
        if x != node {
          WasLinked(x);
          assert Stayed(x, parent, isLeft, node, k);
          if old(x.parent) != null { assert Stayed(old(x.parent), parent, isLeft, node, k); }
        }
      }
    }

    twostate lemma AttachedOrder(node: AvlNode, new parent: AvlNode, new isLeft: bool, new k: int)
      requires parent in old(nodes) && old(Shape()) && Attached(node, parent, isLeft, k)
      ensures Indexed()
    {
      forall i | 0 <= i < |order| ensures order[i] in nodes && order[i].pos == i {
        if i != k {
          var x := old(order)[if i < k then i else i - 1];
          assert order[i] == x && x in old(nodes) && Stayed(x, parent, isLeft, node, k);
        }
      }
    }

    twostate lemma AttachedShape(node: AvlNode, new parent: AvlNode, new isLeft: bool, new k: int)
      requires parent in old(nodes) && old(Shape()) && old(Descent(null, parent, isLeft, k, k)) &&
        Attached(node, parent, isLeft, k)
      ensures Shape()
    {
      hide LeftLinked, RightLinked, Hung, Indexed;
      AttachedDown(node, parent, isLeft, k);
      AttachedUp(node, parent, isLeft, k);
      AttachedOrder(node, parent, isLeft, k);
      assert Stayed(old(root), parent, isLeft, node, k);
    }

    ghost method ShiftUp(k: int)
      modifies nodes`lo, nodes`pos, nodes`hi
      ensures forall x | x in nodes ::
        x.lo == ShLo(old(x.lo), k) && x.pos == Sh(old(x.pos), k) && x.hi == Sh(old(x.hi), k)
    {
      forall x | x in nodes {
        x.lo := ShLo(x.lo, k);
      }
      forall x | x in nodes {
        x.pos := Sh(x.pos, k);
      }
      forall x | x in nodes {
        x.hi := Sh(x.hi, k);
      }
    }

    /** set_parent and set_child: hangs the new leaf into the gap. */
    method Attach(node: AvlNode, parent: AvlNode, isLeft: bool, ghost k: int)
      requires Shape() && node !in nodes && parent in nodes && Descent(null, parent, isLeft, k, k)
      requires node.left == null && node.right == null && node.balance == 0
      modifies `nodes, `order, node`parent, node`lo, node`pos, node`hi, node`ht
      modifies parent`left, parent`right, nodes`lo, nodes`pos, nodes`hi
      ensures Shape() && Attached(node, parent, isLeft, k) && node.ht == 1
    {
      hide Shape;
      node.parent := parent;
      if isLeft {
        parent.left := node;
      } else {
        parent.right := node;
      }
      ShiftUp(k);
      node.lo := k;
      node.pos := k;
      node.hi := k + 1;
      node.ht := 1;
      order := order[..k] + [node] + order[k..];
      nodes := nodes + {node};
      forall x | x in old(nodes) ensures Stayed(x, parent, isLeft, node, k) {
      }
      AttachedShape(node, parent, isLeft, k);
    }

    twostate lemma AttachedBalanced(node: AvlNode, new parent: AvlNode, new isLeft: bool, new k: int)
      requires parent in old(nodes) && old(Shape()) && old(Descent(null, parent, isLeft, k, k)) &&
        Attached(node, parent, isLeft, k)
      requires old(AllBalanced(null, false, 0)) && node.ht == 1 && node.balance == 0
      requires forall x {:trigger SameHeight(x)} | x in old(nodes) :: SameHeight(x)
      ensures AllBalanced(parent, isLeft, -1)
      ensures Ht(root) == old(Ht(root))
    {
      WasLinked(parent);
      forall x | x in nodes ensures Balanced(x, parent, isLeft, -1) {
        if x != node {
          WasLinked(x);
          assert Stayed(x, parent, isLeft, node, k) && SameHeight(x);
          assert old(Balanced(x, null, false, 0));
          assert old(x.left) != null ==> SameHeight(old(x.left));
          assert old(x.right) != null ==> SameHeight(old(x.right));
        }
      }
      assert SameHeight(root);
    }

    // The subtree of `u` on side `left` has just grown by a level, its balance knows
    // it, and its height is still the old one.
    ghost predicate GrownAt(u: AvlNode, left: bool)
      reads `root, `order, `nodes, nodes`ht, nodes`left, nodes`right, nodes`balance
    {
      && u in nodes && BalancedBut(u)
      && u.ht == 1 + Max(Ht(u.left) - (if left then 1 else 0), Ht(u.right) - (if left then 0 else 1))
      && u.balance == Ht(u.right) - Ht(u.left)
      && -1 <= u.balance + (if left then 1 else -1) <= 1
      && var grown := if left then u.left else u.right;
         grown in nodes && (grown.balance != 0 || grown.ht == 1)
    }

    lemma Widest(x: AvlNode)
      requires Shape() && x in nodes
      ensures root in nodes && root.parent == null && Span(x) <= Span(root) == |order|
    {
      At(x);
      At(order[0]);
    }

    /** The balance update at one node: `left` tells which subtree has grown. */
    method Grow(parent: AvlNode, node: AvlNode) returns (ghost left: bool)
      requires Shape() && parent in nodes && (parent.left == node || parent.right == node)
      requires AllBalanced(parent, parent.left == node, -1) && (node.balance != 0 || node.ht == 1)
      modifies parent`balance
      ensures Shape() && GrownAt(parent, left) && left == (parent.left == node)
      ensures old(parent.balance) == parent.balance + (if left then 1 else -1)
    {
      hide Shape, AllBalanced, BalancedBut;
      left := parent.left == node;
      At(parent);
      StaleNode(parent, left, -1);
      if parent.left == node {
        var _ := DecBalance(parent);
      } else {
        var _ := IncBalance(parent);
      }
    }

    // A node that was in perfect balance is one level higher after the update.
    ghost method Raise(parent: AvlNode, left: bool)
      requires Shape() && GrownAt(parent, left) && parent.balance == (if left then -1 else 1)
      modifies parent`ht
      ensures Shape() && AllBalanced(old(parent.parent), IsLeft(parent), -1) && parent.ht == old(parent.ht) + 1
    {
      hide Shape, AllBalanced, BalancedBut;
      At(parent);
      parent.ht := parent.ht + 1;
      CaughtUp(parent);
    }

    /** The loop of avltree_insert that updates balances from the new leaf up to `unbalanced`. */
    method Retrace(leaf: AvlNode, above: AvlNode, unbalanced: AvlNode) returns (ghost left: bool)
      requires Shape() && leaf in nodes && above in nodes && unbalanced in nodes && Quiet(above, unbalanced)
      requires above.left == leaf || above.right == leaf
      requires AllBalanced(above, above.left == leaf, -1) && leaf.ht == 1
      modifies nodes`balance, nodes`ht
      ensures GrownAt(unbalanced, left) && Shape()
      ensures unbalanced.ht == old(unbalanced.ht) && Ht(root) == old(Ht(root))
      ensures old(unbalanced.balance) == unbalanced.balance + (if left then 1 else -1)
    {
      hide Shape, AllBalanced, BalancedBut;
      var node, parent := leaf, above;
      Widest(unbalanced);
      while true
        invariant node in nodes && parent in nodes && (parent.left == node || parent.right == node)
        invariant old(Quiet(parent, unbalanced))
        invariant forall x {:trigger SameHeight(x)} | x in nodes && Span(x) >= Span(parent) :: SameHeight(x)
        invariant node.balance != 0 || node.ht == 1
        invariant AllBalanced(parent, parent.left == node, -1)
        decreases |order| - Span(parent)
      {
        assert SameHeight(parent);
        left := Grow(parent, node);
        if parent == unbalanced {
          assert root != parent ==> SameHeight(root);
          break;
        }
        Raise(parent, left);
        At(parent);
        node := parent;
        parent := parent.parent;
      }
    }

    lemma NoParent(side: bool, d: int)
      requires AllBalanced(null, side, d)
      ensures AllBalanced(null, false, 0)
    {
      forall x | x in nodes ensures Balanced(x, null, false, 0) {
        assert Balanced(x, null, side, d);
      }
    }

    /** The switch of avltree_insert, at the last node on the search path that was not
        in perfect balance: at most two rotations, and the height field grows with the tree. */
    method Rebalance(unbalanced: AvlNode, ghost left: bool, ghost was: int)
      requires Shape() && GrownAt(unbalanced, left) && height == Ht(root) - 1
      requires was == unbalanced.balance + (if left then 1 else -1) && (was == 0 ==> unbalanced == root)
      modifies `root, `rotations, `height, nodes`left, nodes`right, nodes`parent, nodes`lo, nodes`hi, nodes`balance,
        nodes`ht
      ensures Shape() && AllBalanced(null, false, 0) && nodes == old(nodes) && order == old(order)
      ensures height == Ht(root) - 1 == old(height) + (if was == 0 then 1 else 0)
      ensures rotations <= old(rotations) + 2
    {
      hide Shape, AllBalanced, BalancedBut;
      At(unbalanced);
      Widest(unbalanced);
      if unbalanced.balance == 1 || unbalanced.balance == -1 {
        height := height + 1;
        Raise(unbalanced, left);
        NoParent(IsLeft(unbalanced), -1);
      } else if unbalanced.balance == 0 {
        CaughtUp(unbalanced);
        NoStale(unbalanced.parent, IsLeft(unbalanced));
      } else if unbalanced.balance == 2 {
        var right := unbalanced.right;
        AroundLeft(unbalanced);
        IsBalanced(unbalanced, right);
        if right.balance == 1 {
          SingleLeft(unbalanced, 0, 0);
        } else {
          DoubleLeft(unbalanced);
        }
        NoStale(old(unbalanced.parent), old(IsLeft(unbalanced)));
      } else {
        var left := unbalanced.left;
        AroundRight(unbalanced);
        IsBalanced(unbalanced, left);
        if left.balance == -1 {
          SingleRight(unbalanced, 0, 0);
        } else {
          DoubleRight(unbalanced);
        }
        NoStale(old(unbalanced.parent), old(IsLeft(unbalanced)));
      }
    }

    static ghost function InsertAt(s: seq<AvlNode>, k: int, node: AvlNode): seq<AvlNode>
      requires 0 <= k <= |s|
    {
      s[..k] + [node] + s[k..]
    }

    static lemma SortedInsert(s: seq<AvlNode>, k: int, node: AvlNode, cmp: (int, int) -> int, dom: iset<int>)
      requires Sorted(s, cmp) && 0 <= k <= |s| && Ordering(cmp, dom) && node.key in dom
      requires forall i | 0 <= i < |s| :: s[i].key in dom
      requires forall i | 0 <= i < k :: cmp(s[i].key, node.key) < 0
      requires forall i | k <= i < |s| :: cmp(s[i].key, node.key) > 0
      ensures Sorted(InsertAt(s, k, node), cmp)
    {
      var t := InsertAt(s, k, node);
      forall i, j | 0 <= i < j < |t| ensures cmp(t[i].key, t[j].key) < 0 {
        if i == k {
          assert Antisymmetric(cmp, node.key, s[j - 1].key);
        }
      }
    }

    ghost predicate Framed()
      reads this, nodes
    {
      && Shape() && AllBalanced(null, false, 0)
      && height == Ht(root) - 1
    }

    // The first node of the tree.
    method Plant(node: AvlNode)
      requires root == null && order == [] && nodes == {} && height == -1
      requires node.left == null && node.right == null && node.parent == null && node.balance == 0
      modifies `root, `first, `last, `height, `nodes, `order, node`lo, node`pos, node`hi, node`ht
      ensures Framed() && Ends() && order == [node] && nodes == {node}
    {
      root := node;
      first := node;
      last := node;
      height := height + 1;
      order := [node];
      nodes := {node};
      node.lo := 0;
      node.pos := 0;
      node.hi := 1;
      node.ht := 1;
      assert Linked(node);
    }

    twostate lemma StillQuiet(x: AvlNode, new u: AvlNode, new node: AvlNode, new parent: AvlNode, new isLeft: bool,
      new k: int)
      requires x in old(nodes) && u in old(nodes) && old(Quiet(x, u)) && Shape() && Attached(node, parent, isLeft, k)
      requires forall z {:trigger SameHeight(z)} | z in old(nodes) :: SameHeight(z)
      ensures Quiet(x, u)
      decreases old(|order| - Span(x))
    {
      hide Shape;
      if x != u {
        assert Stayed(x, parent, isLeft, node, k) && SameHeight(x);
        StillQuiet(x.parent, u, node, parent, isLeft, k);
        At(x);
        At(x.parent);
      }
    }

    lemma Corners()
      requires Shape() && order != []
      ensures order[0] in nodes && order[0].pos == 0
      ensures order[|order| - 1] in nodes && order[|order| - 1].pos == |order| - 1
    {
    }

    // Linking the leaf below `parent`; the cached ends move when it is outermost.
    method Hang(node: AvlNode, parent: AvlNode, ghost unbalanced: AvlNode, isLeft: bool, ghost k: int)
      requires Framed() && Ends() && node !in nodes && parent in nodes && unbalanced in nodes
      requires Descent(null, parent, isLeft, k, k) && Quiet(parent, unbalanced)
      requires node.left == null && node.right == null && node.balance == 0
      modifies `nodes, `order, `first, `last, node`parent, node`lo, node`pos, node`hi, node`ht
      modifies parent`left, parent`right, nodes`lo, nodes`pos, nodes`hi
      ensures 0 <= k <= |old(order)| && order == InsertAt(old(order), k, node) && nodes == old(nodes) + {node}
      ensures Shape() && Ends() && AllBalanced(parent, parent.left == node, -1) && height == Ht(root) - 1
      ensures Quiet(parent, unbalanced) && (parent.left == node || parent.right == node) && node.ht == 1
    {
      hide Shape, AllBalanced, BalancedBut, Quiet;
      At(parent);
      Corners();
      if isLeft {
        if parent == first {
          first := node;
        }
      } else {
        if parent == last {
          last := node;
        }
      }
      label linking:
      Attach(node, parent, isLeft, k);
      forall x | x in old(nodes) ensures SameHeight@linking(x) {
      }
      AttachedBalanced@linking(node, parent, isLeft, k);
      StillQuiet@linking(parent, unbalanced, node, parent, isLeft, k);
      assert Stayed@linking(parent, parent, isLeft, node, k);
    }

    method Graft(node: AvlNode, parent: AvlNode, unbalanced: AvlNode, isLeft: bool, ghost k: int)
      requires Framed() && Ends() && node !in nodes && parent in nodes && unbalanced in nodes
      requires Descent(null, parent, isLeft, k, k) && Quiet(parent, unbalanced)
      requires unbalanced.balance != 0 || unbalanced == root
      requires node.left == null && node.right == null && node.balance == 0
      modifies this, nodes, node
      ensures 0 <= k <= |old(order)| && order == InsertAt(old(order), k, node) && nodes == old(nodes) + {node}
      ensures Framed() && Ends()
      ensures rotations <= old(rotations) + 2
    {
      hide Shape, AllBalanced, BalancedBut, Quiet, Descent;
      Hang(node, parent, unbalanced, isLeft, k);
      ghost var was := unbalanced.balance;
      ghost var left := Retrace(node, parent, unbalanced);
      Rebalance(unbalanced, left, was);
    }

    // The keys stay sorted with the new node at the gap the search found.
    lemma KeysAfter(k: int, node: AvlNode)
      requires Valid() && node.key in dom && Below(k, node.key) && Over(k, node.key)
      ensures 0 <= k <= |order| && Sorted(InsertAt(order, k, node), cmp)
    {
      assert forall i | 0 <= i < |order| :: order[i] in nodes;
      SortedInsert(order, k, node, cmp, dom);
    }

    lemma EmptyTree()
      requires Framed() && order == []
      ensures root == null && nodes == {} && height == -1
    {
      if root != null { At(root); }
      if x :| x in nodes { At(x); }
    }

    /** avltree_insert. A key that is already there leaves everything as it was and its node
        is returned; otherwise the node joins at its place in the order, with at most
        two rotations. */
    method Insert(node: AvlNode) returns (found: AvlNode?)
      requires Valid() && node !in nodes && node.key in dom
      modifies this, nodes, node
      ensures Valid()
      ensures found != null ==> found in nodes && cmp(found.key, node.key) == 0
      ensures found != null ==> unchanged(this) && unchanged(nodes) && unchanged(node)
      ensures found == null ==> nodes == old(nodes) + {node}
      ensures found == null ==> exists k | 0 <= k <= |old(order)| :: order == InsertAt(old(order), k, node)
      ensures rotations <= old(rotations) + 2
    {
      hide Shape, AllBalanced, Quiet, Below, Over, Descent, Sorted, Ordering;
      var parent, unbalanced, isLeft;
      ghost var k;
      found, parent, unbalanced, isLeft, k := Lookup(node.key);
      if found != null {
        return;
      }
      KeysAfter(k, node);
      node.left, node.right, node.parent, node.balance := null, null, null, 0;
      if parent == null {
        EmptyTree();
        Plant(node);
      } else {
        Graft(node, parent, unbalanced, isLeft, k);
      }
      assert order == InsertAt(old(order), k, node);
    }

    // ---------- removal ----------

    // Where a position goes when position `k` disappears.
    static function Down(v: int, k: int): int {
      if v <= k then v else v - 1
    }

    static ghost function RemoveAt(s: seq<AvlNode>, k: int): seq<AvlNode>
      requires 0 <= k < |s|
    {
      s[..k] + s[k + 1..]
    }

    twostate predicate Shifted(x: AvlNode, k: int)
      reads x
    {
      x.lo == Down(old(x.lo), k) && x.pos == Down(old(x.pos), k) && x.hi == Down(old(x.hi), k)
    }

    // `node`, which had at most the child `next`, is gone and `next` hangs in its place.
    twostate predicate Spliced(node: AvlNode, new next: AvlNode?)
      reads this, nodes
    {
      && node in old(nodes) && nodes == old(nodes) - {node} && root == Swap(old(root), node, next)
      && 0 <= old(node.pos) < |old(order)| && order == RemoveAt(old(order), old(node.pos))
      && (old(node.left) == null || old(node.right) == null)
      && next == (if old(node.left) == null then old(node.right) else old(node.left))
      && forall x {:trigger SplicedAt(x, node, next)} | x in nodes :: SplicedAt(x, node, next)
    }

    twostate predicate SplicedAt(x: AvlNode, node: AvlNode, new next: AvlNode?)
      reads x
    {
      && x.left == Swap(old(x.left), node, next) && x.right == Swap(old(x.right), node, next)
      && x.parent == (if x == next then old(node.parent) else old(x.parent))
      && Shifted(x, old(node.pos))
    }

    twostate lemma SplicedLeft(node: AvlNode, new next: AvlNode?)
      requires old(Shape()) && Spliced(node, next)
      ensures forall x | x in nodes :: Spanned(x) && LeftLinked(x)
    {
      hide Shape, Hung;
      WasLinked(node);
      if next != null {
        WasLinked(next);
        assert SplicedAt(next, node, next);
      }
      forall x | x in nodes ensures Spanned(x) && LeftLinked(x) {
        WasLinked(x);
        assert SplicedAt(x, node, next);
        var c := old(x.left);
        if c != null && c != node {
          WasLinked(c);
          assert SplicedAt(c, node, next);
        }
      }
    }

    twostate lemma SplicedRight(node: AvlNode, new next: AvlNode?)
      requires old(Shape()) && Spliced(node, next)
      ensures forall x | x in nodes :: RightLinked(x)
    {
      hide Shape, Hung;
      WasLinked(node);
      if next != null {
        WasLinked(next);
        assert SplicedAt(next, node, next);
      }
      forall x | x in nodes ensures RightLinked(x) {
        WasLinked(x);
        assert SplicedAt(x, node, next);
        var c := old(x.right);
        if c != null && c != node {
          WasLinked(c);
          assert SplicedAt(c, node, next);
        }
      }
    }

    twostate lemma SplicedUp(node: AvlNode, new next: AvlNode?)
      requires old(Shape()) && Spliced(node, next)
      ensures forall x | x in nodes :: Hung(x)
    {
      WasLinked(node);
      if next != null {
        WasLinked(next);
        assert SplicedAt(next, node, next);
      }
      forall x | x in nodes ensures Hung(x) {
        WasLinked(x);
        assert SplicedAt(x, node, next);
        var p := old(x.parent);
        if p != null && p != node {
          WasLinked(p);
          assert SplicedAt(p, node, next);
        }
        if x == next && old(node.parent) != null {
          WasLinked(old(node.parent));
          assert SplicedAt(old(node.parent), node, next);
        }
      }
    }

    twostate lemma SplicedOrder(node: AvlNode, new next: AvlNode?)
      requires old(Shape()) && Spliced(node, next)
      ensures Indexed()
    {
      var k := old(node.pos);
      forall i | 0 <= i < |order| ensures order[i] in nodes && order[i].pos == i {
        var x := old(order)[if i < k then i else i + 1];
        assert order[i] == x && x in old(nodes);
        assert SplicedAt(x, node, next);
      }
    }

    twostate lemma SplicedShape(node: AvlNode, new next: AvlNode?)
      requires old(Shape()) && Spliced(node, next)
      ensures Shape()
    {
      WasLinked(node);
      hide LeftLinked, RightLinked, Hung, Indexed;
      SplicedLeft(node, next);
      SplicedRight(node, next);
      SplicedUp(node, next);
      SplicedOrder(node, next);
      if old(root) != node {
        WasLinked(old(root));
        assert SplicedAt(old(root), node, next);
      } else if next != null {
        assert SplicedAt(next, node, next);
      }
    }

    // `node` had two children; `next`, its right child and successor, takes its place.
    twostate predicate Promoted(node: AvlNode, new next: AvlNode)
      reads this, nodes
    {
      && node in old(nodes) && next in old(nodes) && next != node
      && nodes == old(nodes) - {node} && root == Swap(old(root), node, next)
      && 0 <= old(node.pos) < |old(order)| && order == RemoveAt(old(order), old(node.pos))
      && old(node.left) != null && old(node.right) == next && old(next.left) == null
      && next.left == old(node.left) && next.right == old(next.right) && next.parent == old(node.parent)
      && next.lo == old(node.lo) && next.pos == old(node.pos) && next.hi == old(node.hi) - 1
      && forall x {:trigger PromotedAt(x, node, next)} | x in nodes && x != next :: PromotedAt(x, node, next)
    }

    twostate predicate PromotedAt(x: AvlNode, node: AvlNode, new next: AvlNode)
      reads x
    {
      && x.left == Swap(old(x.left), node, next) && x.right == Swap(old(x.right), node, next)
      && x.parent == Swap(old(x.parent), node, next) && Shifted(x, old(node.pos) + 1)
    }

    twostate lemma PromotedLeft(node: AvlNode, new next: AvlNode)
      requires old(Shape()) && Promoted(node, next)
      ensures forall x | x in nodes :: Spanned(x) && LeftLinked(x)
    {
      hide Shape;
      WasLinked(node);
      WasLinked(next);
      WasLinked(old(node.left));
      assert PromotedAt(old(node.left), node, next);
      if old(node.parent) != null {
        WasLinked(old(node.parent));
        assert PromotedAt(old(node.parent), node, next);
      }
      forall x | x in nodes ensures Spanned(x) && LeftLinked(x) {
        WasLinked(x);
        if x != next { assert PromotedAt(x, node, next); }
        var c := old(x.left);
        if c != null && c != node && c != next {
          WasLinked(c);
          assert PromotedAt(c, node, next);
        }
      }
    }

    twostate lemma PromotedRight(node: AvlNode, new next: AvlNode)
      requires old(Shape()) && Promoted(node, next)
      ensures forall x | x in nodes :: RightLinked(x)
    {
      hide Shape;
      WasLinked(node);
      WasLinked(next);
      WasLinked(old(node.left));
      assert PromotedAt(old(node.left), node, next);
      if old(node.parent) != null {
        WasLinked(old(node.parent));
        assert PromotedAt(old(node.parent), node, next);
      }
      forall x | x in nodes ensures RightLinked(x) {
        WasLinked(x);
        if x != next { assert PromotedAt(x, node, next); }
        var c := old(x.right);
        if c != null && c != node && c != next {
          WasLinked(c);
          assert PromotedAt(c, node, next);
        }
      }
    }

    twostate lemma PromotedUp(node: AvlNode, new next: AvlNode)
      requires old(Shape()) && Promoted(node, next)
      ensures forall x | x in nodes :: Hung(x)
    {
      WasLinked(node);
      WasLinked(next);
      WasLinked(old(node.left));
      assert PromotedAt(old(node.left), node, next);
      if old(node.parent) != null {
        WasLinked(old(node.parent));
        assert PromotedAt(old(node.parent), node, next);
      }
      forall x | x in nodes ensures Hung(x) {
        WasLinked(x);
        if x != next { assert PromotedAt(x, node, next); }
        var p := old(x.parent);
        if p != null && p != node && p != next {
          WasLinked(p);
          assert PromotedAt(p, node, next);
        }
      }
    }

    twostate lemma PromotedOrder(node: AvlNode, new next: AvlNode)
      requires old(Shape()) && Promoted(node, next)
      ensures Indexed()
    {
      WasLinked(node);
      WasLinked(next);
      hide LeftLinked, RightLinked, Hung;
      var k := old(node.pos);
      forall i | 0 <= i < |order| ensures order[i] in nodes && order[i].pos == i {
        var x := old(order)[if i < k then i else i + 1];
        assert order[i] == x && x in old(nodes);
        if x != next { assert PromotedAt(x, node, next); }
      }
    }

    twostate lemma PromotedShape(node: AvlNode, new next: AvlNode)
      requires old(Shape()) && Promoted(node, next)
      ensures Shape()
    {
      WasLinked(node);
      hide LeftLinked, RightLinked, Hung, Indexed;
      PromotedLeft(node, next);
      PromotedRight(node, next);
      PromotedUp(node, next);
      PromotedOrder(node, next);
      if old(root) != node {
        assert PromotedAt(old(root), node, next);
      }
    }

    // `node` had two children; its successor `next`, deeper in the right subtree,
    // takes its place and leaves its own to its right child.
    twostate predicate Lifted(node: AvlNode, new next: AvlNode)
      reads this, nodes
    {
      && node in old(nodes) && next in old(nodes) && next != node
      && nodes == old(nodes) - {node} && root == Swap(old(root), node, next)
      && 0 <= old(node.pos) < |old(order)| && order == RemoveAt(old(order), old(node.pos))
      && old(node.left) != null && old(node.right) != null && old(node.right) != next
      && old(next.left) == null && old(next.pos) == old(node.pos) + 1 && old(next.parent) in nodes
      && next.left == old(node.left) && next.right == old(node.right) && next.parent == old(node.parent)
      && next.lo == old(node.lo) && next.pos == old(node.pos) && next.hi == old(node.hi) - 1
      && forall x {:trigger LiftedAt(x, node, next)} | x in nodes && x != next :: LiftedAt(x, node, next)
    }

    twostate predicate LiftedAt(x: AvlNode, node: AvlNode, new next: AvlNode)
      requires next in old(nodes)
      reads this, nodes, x
    {
      && x.left == (if old(x.left) == next then old(next.right) else Swap(old(x.left), node, next))
      && x.right == Swap(old(x.right), node, next)
      && x.parent == (if x == old(next.right) then old(next.parent) else Swap(old(x.parent), node, next))
      && Shifted(x, old(node.pos) + 1)
    }

    twostate lemma LiftedFacts(node: AvlNode, new next: AvlNode)
      requires old(Shape()) && Lifted(node, next)
      ensures old(Linked(node)) && old(Linked(next)) && old(Linked(node.left)) && old(Linked(node.right)) &&
        old(Linked(next.parent))
      ensures old(next.parent.left) == next && old(next.parent) != node && old(next.parent) != next
      ensures LiftedAt(old(node.left), node, next) && LiftedAt(old(node.right), node, next) &&
        LiftedAt(old(next.parent), node, next)
      ensures old(next.right) != null ==> old(Linked(next.right)) && LiftedAt(old(next.right), node, next)
      ensures old(node.parent) != null ==> old(Linked(node.parent)) && LiftedAt(old(node.parent), node, next)
    {
      WasLinked(node);
      WasLinked(next);
      WasLinked(old(node.left));
      WasLinked(old(node.right));
      WasLinked(old(next.parent));
      if old(next.right) != null { WasLinked(old(next.right)); }
      if old(node.parent) != null { WasLinked(old(node.parent)); }
    }

    twostate lemma LiftedLeft(node: AvlNode, new next: AvlNode)
      requires old(Shape()) && Lifted(node, next)
      ensures forall x | x in nodes :: Spanned(x) && LeftLinked(x)
    {
      hide Shape, Hung;
      LiftedFacts(node, next);
      forall x | x in nodes ensures Spanned(x) && LeftLinked(x) {
        WasLinked(x);
        if x != next { assert LiftedAt(x, node, next); }
        var c := old(x.left);
        if c != null && c != node && c != next {
          WasLinked(c);
          assert LiftedAt(c, node, next);
        }
      }
    }

    twostate lemma LiftedRight(node: AvlNode, new next: AvlNode)
      requires old(Shape()) && Lifted(node, next)
      ensures forall x | x in nodes :: RightLinked(x)
    {
      hide Shape, Hung;
      LiftedFacts(node, next);
      forall x | x in nodes ensures RightLinked(x) {
        WasLinked(x);
        if x != next { assert LiftedAt(x, node, next); }
        var c := old(x.right);
        if c != null && c != node && c != next {
          WasLinked(c);
          assert LiftedAt(c, node, next);
        }
      }
    }

    twostate lemma LiftedUp(node: AvlNode, new next: AvlNode)
      requires old(Shape()) && Lifted(node, next)
      ensures forall x | x in nodes :: Hung(x)
    {
      hide Shape, Spanned;
      LiftedFacts(node, next);
      forall x | x in nodes ensures Hung(x) {
        WasLinked(x);
        if x != next { assert LiftedAt(x, node, next); }
        var p := old(x.parent);
        if p != null && p != node && p != next {
          WasLinked(p);
          assert LiftedAt(p, node, next);
        }
      }
    }

    twostate lemma LiftedOrder(node: AvlNode, new next: AvlNode)
      requires old(Shape()) && Lifted(node, next)
      ensures Indexed()
    {
      WasLinked(node);
      WasLinked(next);
      hide LeftLinked, RightLinked, Hung;
      var k := old(node.pos);
      forall i | 0 <= i < |order| ensures order[i] in nodes && order[i].pos == i {
        var x := old(order)[if i < k then i else i + 1];
        assert order[i] == x && x in old(nodes);
        if x != next { assert LiftedAt(x, node, next); }
      }
    }

    // The root of the tree after a node has been lifted.
    twostate lemma LiftedTop(node: AvlNode, new next: AvlNode)
      requires old(Shape()) && Lifted(node, next)
      ensures Topped()
    {
      hide LeftLinked, Indexed;
      WasLinked(node);
      LiftedFacts(node, next);
      if old(root) != node {
        WasLinked(old(root));
        assert old(root) != next;
        assert LiftedAt(old(root), node, next);
      }
    }

    twostate lemma LiftedShape(node: AvlNode, new next: AvlNode)
      requires old(Shape()) && Lifted(node, next)
      ensures Shape()
    {
      hide *;
      LiftedTop(node, next);
      LiftedLeft(node, next);
      LiftedRight(node, next);
      LiftedUp(node, next);
      LiftedOrder(node, next);
      Assembled();
    }

    twostate lemma SplicedBalanced(node: AvlNode, new next: AvlNode?)
      requires old(Shape()) && Shape() && Spliced(node, next) && old(AllBalanced(null, false, 0))
      requires forall x {:trigger SameHeight(x)} | x in nodes :: SameHeight(x)
      ensures AllBalanced(old(node.parent), old(IsLeft(node)), 1)
    {
      hide Shape;
      WasLinked(node);
      assert old(Balanced(node, null, false, 0));
      if next != null { assert SameHeight(next); }
      forall x | x in nodes ensures Balanced(x, old(node.parent), old(IsLeft(node)), 1) {
        WasLinked(x);
        assert SplicedAt(x, node, next) && SameHeight(x) && old(Balanced(x, null, false, 0));
        if x.left != null { assert x.left in nodes ==> SameHeight(x.left); }
        if x.right != null { assert x.right in nodes ==> SameHeight(x.right); }
      }
    }

    twostate lemma PromotedBalanced(node: AvlNode, new next: AvlNode)
      requires old(Shape()) && Shape() && Promoted(node, next) && old(AllBalanced(null, false, 0))
      requires forall x {:trigger SameHeight(x)} | x in nodes && x != next :: SameHeight(x)
      requires next.ht == old(node.ht) && next.balance == old(node.balance)
      ensures AllBalanced(next, false, 1)
    {
      hide Shape;
      WasLinked(node);
      WasLinked(next);
      assert old(Balanced(node, null, false, 0)) && old(Balanced(next, null, false, 0));
      forall x | x in nodes ensures Balanced(x, next, false, 1) {
        WasLinked(x);
        assert old(Balanced(x, null, false, 0));
        if x != next {
          assert PromotedAt(x, node, next) && SameHeight(x);
        }
        if x.left != null { assert x.left in nodes && x.left != next ==> SameHeight(x.left); }
        if x.right != null { assert x.right in nodes && x.right != next ==> SameHeight(x.right); }
      }
    }

    // A node other than the one that moved up: its subtrees are as high as before, but
    // for the one that lost the node.
    twostate lemma LiftedBalancedAt(x: AvlNode, new node: AvlNode, new next: AvlNode)
      requires node in old(nodes) && next in old(nodes) && old(Shape()) && Lifted(node, next) && x in nodes && x != next
      requires old(Balanced(node, null, false, 0)) && old(Balanced(next, null, false, 0)) &&
        old(Balanced(x, null, false, 0))
      requires forall x {:trigger SameHeight(x)} | x in nodes && x != next :: SameHeight(x)
      requires next.ht == old(node.ht)
      ensures Balanced(x, old(next.parent), true, 1)
    {
      hide Shape;
      LiftedFacts(node, next);
      WasLinked(x);
      var p := old(next.parent);
      assert LiftedAt(x, node, next) && SameHeight(x);
      if x.left != null { assert x.left in nodes && x.left != next ==> SameHeight(x.left); }
      if x.right != null { assert x.right in nodes && x.right != next ==> SameHeight(x.right); }
      assert Ht(x.right) == old(Ht(x.right));
      assert x != p ==> Ht(x.left) == old(Ht(x.left));
    }

    twostate lemma LiftedBalanced(node: AvlNode, new next: AvlNode)
      requires old(Shape()) && Shape() && Lifted(node, next) && old(AllBalanced(null, false, 0))
      requires forall x {:trigger SameHeight(x)} | x in nodes && x != next :: SameHeight(x)
      requires next.ht == old(node.ht) && next.balance == old(node.balance)
      ensures AllBalanced(old(next.parent), true, 1)
    {
      hide Shape;
      LiftedFacts(node, next);
      assert old(Balanced(node, null, false, 0)) && old(Balanced(next, null, false, 0));
      var p := old(next.parent);
      forall x | x in nodes ensures Balanced(x, p, true, 1) {
        if x == next {
          assert SameHeight(next.left) && (next.right in nodes ==> SameHeight(next.right));
        } else {
          assert old(Balanced(x, null, false, 0));
          LiftedBalancedAt(x, node, next);
        }
      }
    }

    twostate lemma HadRoot(node: AvlNode)
      requires old(Shape()) && node in old(nodes)
      ensures old(root) in old(nodes) && old(root.parent) == null && (old(node.parent) == null <==> old(root) == node)
    {
      WasLinked(node);
      assert old(order[0]) in old(nodes);
    }

    twostate lemma SplicedRoot(node: AvlNode, new next: AvlNode?)
      requires old(Shape()) && Spliced(node, next) && old(AllBalanced(null, false, 0))
      requires forall x {:trigger SameHeight(x)} | x in nodes :: SameHeight(x)
      ensures Ht(root) == old(Ht(root)) - (if old(node.parent) == null then 1 else 0)
    {
      HadRoot(node);
      WasLinked(node);
      hide Shape;
      assert old(Balanced(node, null, false, 0));
      if next != null { WasLinked(next); }
      if root != null { assert SameHeight(root); }
    }

    twostate lemma PromotedRoot(node: AvlNode, new next: AvlNode)
      requires old(Shape()) && node in old(nodes) && next in old(nodes) && old(next.parent) != null && next != node
      requires nodes == old(nodes) - {node} && root == Swap(old(root), node, next)
      requires forall x {:trigger SameHeight(x)} | x in nodes && x != next :: SameHeight(x)
      requires next.ht == old(node.ht)
      ensures Ht(root) == old(Ht(root))
    {
      HadRoot(node);
      hide Shape;
      if root != next { assert SameHeight(root); }
    }

    ghost method ShiftDown(k: int)
      modifies nodes`lo, nodes`pos, nodes`hi
      ensures forall x | x in nodes :: Shifted(x, k)
    {
      forall x | x in nodes {
        x.lo := Down(x.lo, k);
      }
      forall x | x in nodes {
        x.pos := Down(x.pos, k);
      }
      forall x | x in nodes {
        x.hi := Down(x.hi, k);
      }
    }

    // The parent of `node`, or the root pointer, points to `next` instead.
    method Redirect(node: AvlNode, next: AvlNode?) returns (isLeft: bool)
      requires Shape() && node in nodes
      modifies `root, nodes`left, nodes`right
      ensures isLeft == old(IsLeft(node)) && root == Swap(old(root), node, next)
      ensures forall x | x in nodes ::
        x.left == Swap(old(x.left), node, next) && x.right == Swap(old(x.right), node, next)
    {
      At(node);
      var parent := node.parent;
      isLeft := false;
      if parent != null {
        isLeft := parent.left == node;
        if isLeft {
          parent.left := next;
        } else {
          parent.right := next;
        }
      } else {
        root := next;
      }
      HadRoot(node);
      forall x | x in nodes
        ensures x.left == Swap(old(x.left), node, next) && x.right == Swap(old(x.right), node, next)
      {
        WasLinked(x);
        WasLinked(node);
        if old(node.parent) != null { WasLinked(old(node.parent)); }
      }
    }

    /** Removal of a node with at most one child. */
    method Splice(node: AvlNode, next: AvlNode?) returns (parent: AvlNode?, isLeft: bool)
      requires Framed() && node in nodes && (node.left == null || node.right == null)
      requires next == if node.left == null then node.right else node.left
      modifies `root, `nodes, `order, nodes`left, nodes`right, nodes`parent, nodes`lo, nodes`pos, nodes`hi
      ensures 0 <= old(node.pos) < |old(order)| && order == RemoveAt(old(order), old(node.pos)) &&
        nodes == old(nodes) - {node}
      ensures Shape() && (parent != null ==> parent in nodes) && AllBalanced(parent, isLeft, 1)
      ensures height == Ht(root) - 1 + (if parent == null then 1 else 0)
      ensures parent != null ==> (if isLeft then parent.left == next else parent.right == next)
    {
      hide Shape, AllBalanced;
      At(node);
      parent := node.parent;
      isLeft := Redirect(node, next);
      if next != null {
        next.parent := parent;
      }
      ShiftDown(node.pos);
      order := RemoveAt(order, old(node.pos));
      nodes := nodes - {node};
      forall x | x in nodes ensures SplicedAt(x, node, next) && SameHeight(x) {
        assert Shifted(x, old(node.pos));
      }
      SplicedShape(node, next);
      SplicedBalanced(node, next);
      SplicedRoot(node, next);
    }

    // The pointer assignments when the successor is the right child.
    method PromotePointers(node: AvlNode, next: AvlNode) returns (parent: AvlNode?, isLeft: bool)
      requires Shape() && node in nodes && node.left in nodes && node.right == next && next in nodes &&
        node.left != next
      requires node != next && node.left != node && node.left.parent == node && next.parent == node
      requires next.right != null ==> next.right in nodes && next.right != next && next.right.parent == next
      modifies `root, nodes`left, nodes`right, nodes`parent
      ensures root == Swap(old(root), node, next) && parent == next && !isLeft
      ensures forall x | x in nodes :: x.left == (if x == next then old(node.left) else Swap(old(x.left), node, next))
      ensures forall x | x in nodes :: x.right == Swap(old(x.right), node, next)
      ensures forall x | x in nodes ::
        x.parent == (if x == next then old(node.parent) else if x == old(node.left) then next else old(x.parent))
    {
      hide Shape;
      var left := node.left;
      parent := node.parent;
      isLeft := Redirect(node, next);
      next.left := left;
      left.parent := next;
      next.parent := parent;
      parent := next;
      var rest := parent.right;
      isLeft := false;
      if rest != null {
        rest.parent := parent;
      }
    }

    // The pointer assignments when the successor lies deeper in the right subtree.
    method LiftPointers(node: AvlNode, next: AvlNode) returns (parent: AvlNode?, isLeft: bool)
      requires Shape() && node in nodes && next in nodes && node.left in nodes && node.right in nodes &&
        next.parent in nodes
      requires next != node && node.left !in {node, next} && node.right !in {node, next, node.left} &&
        next.parent !in {node, next, node.left}
      requires next.parent.left == next && next.parent.right != next
      requires next.right != null ==>
        next.right in nodes && next.right !in {node, next, node.left, node.right, next.parent}
      modifies `root, nodes`left, nodes`right, nodes`parent
      ensures root == Swap(old(root), node, next) && parent == old(next.parent) && isLeft
      ensures forall x | x in nodes ::
        x.left == (if x == next then old(node.left) else if x == old(next.parent) then old(next.right)
          else Swap(old(x.left), node, next))
      ensures forall x | x in nodes ::
        x.right == (if x == next then old(node.right) else Swap(old(x.right), node, next))
      ensures forall x | x in nodes ::
        x.parent == (if x == next then old(node.parent)
                     else if x == old(node.left) || x == old(node.right) then next
                     else if x == old(next.right) then old(next.parent) else old(x.parent))
    {
      hide Shape;
      var left, right := node.left, node.right;
      isLeft := Redirect(node, next);
      next.left := left;
      left.parent := next;
      parent := next.parent;
      next.parent := node.parent;
      var rest := next.right;
      parent.left := rest;
      isLeft := true;
      next.right := right;
      right.parent := next;
      if rest != null {
        rest.parent := parent;
      }
    }

    // The ghost bookkeeping of both: `next` takes the place of `node` in the order.
    ghost method TakePlace(node: AvlNode, next: AvlNode)
      requires node in nodes && next in nodes && node != next && 0 <= node.pos < |order|
      modifies `nodes, `order, nodes`lo, nodes`pos, nodes`hi, next`ht
      ensures order == RemoveAt(old(order), old(node.pos)) && nodes == old(nodes) - {node}
      ensures next.lo == old(node.lo) && next.pos == old(node.pos) && next.hi == old(node.hi) - 1 &&
        next.ht == old(node.ht)
      ensures forall x | x in nodes && x != next :: Shifted(x, old(node.pos) + 1)
    {
      ShiftDown(node.pos + 1);
      next.lo := old(node.lo);
      next.pos := old(node.pos);
      next.hi := old(node.hi) - 1;
      next.ht := node.ht;
      order := RemoveAt(order, old(node.pos));
      nodes := nodes - {node};
    }

    method PromoteLinks(node: AvlNode, next: AvlNode) returns (parent: AvlNode?, isLeft: bool)
      requires Shape() && node in nodes && node.left != null && node.right == next && next in nodes && next.left == null
      modifies `root, `nodes, `order, nodes`left, nodes`right, nodes`parent, nodes`lo, nodes`pos, nodes`hi,
        next`balance, next`ht
      ensures Promoted(node, next) && parent == next && isLeft == false && next.ht == old(node.ht) &&
        next.balance == old(node.balance)
      ensures forall x {:trigger SameHeight(x)} | x in nodes && x != next :: SameHeight(x)
    {
      hide Shape;
      At(node);
      At(next);
      At(node.left);
      if next.right != null { At(next.right); }
      next.balance := node.balance;
      parent, isLeft := PromotePointers(node, next);
      TakePlace(node, next);
      forall x | x in nodes && x != next ensures PromotedAt(x, node, next) && SameHeight(x) {
        WasLinked(x);
      }
    }

    method LiftLinks(node: AvlNode, next: AvlNode) returns (parent: AvlNode?, isLeft: bool)
      requires Shape() && node in nodes && node.left != null && node.right in nodes && node.right != next
      requires next in nodes && next.left == null && next.pos == node.pos + 1
      modifies `root, `nodes, `order, nodes`left, nodes`right, nodes`parent, nodes`lo, nodes`pos, nodes`hi,
        next`balance, next`ht
      ensures Lifted(node, next) && parent == old(next.parent) && isLeft == true && next.ht == old(node.ht) &&
        next.balance == old(node.balance)
      ensures forall x {:trigger SameHeight(x)} | x in nodes && x != next :: SameHeight(x)
    {
      hide Shape;
      SuccessorPlace(node, next);
      next.balance := node.balance;
      parent, isLeft := LiftPointers(node, next);
      TakePlace(node, next);
      forall x | x in nodes && x != next ensures LiftedAt(x, node, next) && SameHeight(x) {
        WasLinked(x);
      }
    }

    /** Removal of a node whose successor is its right child. */
    method Promote(node: AvlNode, next: AvlNode) returns (parent: AvlNode?, isLeft: bool)
      requires Framed() && node in nodes && node.left != null && node.right == next && next in nodes &&
        next.left == null
      modifies `root, `nodes, `order, nodes`left, nodes`right, nodes`parent, nodes`lo, nodes`pos, nodes`hi,
        next`balance, next`ht
      ensures 0 <= old(node.pos) < |old(order)| && order == RemoveAt(old(order), old(node.pos)) &&
        nodes == old(nodes) - {node}
      ensures Shape() && parent in nodes && AllBalanced(parent, isLeft, 1) && height == Ht(root) - 1
    {
      hide Shape, AllBalanced;
      At(node);
      At(next);
      parent, isLeft := PromoteLinks(node, next);
      PromotedShape(node, next);
      PromotedBalanced(node, next);
      PromotedRoot(node, next);
    }

    /** Removal of a node whose successor lies deeper in the right subtree. */
    method Lift(node: AvlNode, next: AvlNode) returns (parent: AvlNode?, isLeft: bool)
      requires Framed() && node in nodes && node.left != null && node.right in nodes && node.right != next
      requires next in nodes && next.left == null && next.pos == node.pos + 1
      modifies `root, `nodes, `order, nodes`left, nodes`right, nodes`parent, nodes`lo, nodes`pos, nodes`hi,
        next`balance, next`ht
      ensures 0 <= old(node.pos) < |old(order)| && order == RemoveAt(old(order), old(node.pos)) &&
        nodes == old(nodes) - {node}
      ensures Shape() && parent in nodes && AllBalanced(parent, isLeft, 1) && height == Ht(root) - 1
    {
      hide Shape, AllBalanced;
      SuccessorPlace(node, next);
      parent, isLeft := LiftLinks(node, next);
      LiftedShape(node, next);
      LiftedBalanced(node, next);
      PromotedRoot(node, next);
    }

    lemma SuccessorPlace(node: AvlNode, next: AvlNode)
      requires Shape() && node in nodes && node.left != null && node.right in nodes && node.right != next
      requires next in nodes && next.left == null && next.pos == node.pos + 1
      ensures next != node && next.parent in nodes && next.parent != node && next.parent != next &&
        next.parent.left == next && next.parent.right != next
      ensures node.left in nodes && node.left != next && node.left.parent == node && node.right.parent == node &&
        node.left != node && node.right != node
      ensures next.right != null ==>
        next.right in nodes && next.right.parent == next && next.right != node && next.right != next
      ensures next.right != null ==> next.right != node.left && next.right != node.right && next.right != next.parent
      ensures node.left != node.right && node.left != next.parent && 0 <= node.pos < |order|
      ensures node.parent != null ==> node.parent in nodes && node.parent != node && node.parent != next
    {
      At(node);
      At(next);
      At(node.left);
      At(node.right);
      At(next.parent);
      if next.right != null { At(next.right); }
      if node.parent != null { At(node.parent); }
    }

    /** The rebalancing loop of avltree_remove, with its three ways out. */
    method Recover(above: AvlNode?, side: bool)
      requires Shape() && (above != null ==> above in nodes) && AllBalanced(above, side, 1)
      requires height == Ht(root) - 1 + (if above == null then 1 else 0)
      modifies `root, `rotations, `height, nodes`left, nodes`right, nodes`parent, nodes`lo, nodes`hi, nodes`balance,
        nodes`ht
      ensures Framed() && nodes == old(nodes) && order == old(order)
    {
      hide Shape, AllBalanced;
      var parent, isLeft := above, side;
      while parent != null
        invariant Shape() && (parent != null ==> parent in nodes) && AllBalanced(parent, isLeft, 1)
        invariant height == Ht(root) - 1 + (if parent == null then 1 else 0)
        invariant nodes == old(nodes) && order == old(order)
        decreases if parent == null then 0 else 1 + |order| - Span(parent)
      {
        var node := parent;
        Larger(node);
        parent := node.parent;
        var done;
        if isLeft {
          isLeft := parent != null && parent.left == node;
          done := ShrunkLeft(node);
        } else {
          isLeft := parent != null && parent.left == node;
          done := ShrunkRight(node);
        }
        if done {
          return;
        }
        if parent != null { Widest(parent); }
      }
      height := height - 1;
      NoParent(isLeft, 1);
    }

    lemma Larger(node: AvlNode)
      requires Shape() && node in nodes
      ensures Span(node) <= |order|
      ensures node.parent != null ==> node.parent in nodes && Span(node) < Span(node.parent) <= |order|
    {
      At(node);
      if node.parent != null { At(node.parent); }
    }

    lemma RemovedKeys(node: AvlNode)
      requires Valid() && node in nodes
      ensures 0 <= node.pos < |order| && order[node.pos] == node && Sorted(RemoveAt(order, node.pos), cmp)
      ensures node == first <==> node.pos == 0
      ensures node == last <==> node.pos == |order| - 1
      ensures first == order[0] && last == order[|order| - 1]
    {
      At(node);
    }

    // The cached ends after the element at `k` has gone.
    lemma RemovedEnds(was: seq<AvlNode>, k: int)
      requires 0 <= k < |was| && order == RemoveAt(was, k)
      requires first == (if k > 0 then was[0] else if |was| > 1 then was[1] else null)
      requires last == (if k < |was| - 1 then was[|was| - 1] else if |was| > 1 then was[|was| - 2] else null)
      ensures Ends()
    {
    }

    /** avltree_remove. */
    method Remove(node: AvlNode)
      requires Valid() && node in nodes
      modifies this, nodes
      ensures Valid() && nodes == old(nodes) - {node}
      ensures 0 <= old(node.pos) < |old(order)| && old(order)[old(node.pos)] == node
      ensures order == RemoveAt(old(order), old(node.pos))
    {
      hide Shape, AllBalanced, Sorted, Ordering, Ends;
      RemovedKeys(node);
      At(node);
      if node == first {
        first := Next(node);
      }
      if node == last {
        last := Prev(node);
      }
      var left, right := node.left, node.right;
      var next := if left == null then right else left;
      var parent, isLeft;
      if left != null && right != null {
        next := GetFirst(right);
        if next != right {
          parent, isLeft := Lift(node, next);
        } else {
          parent, isLeft := Promote(node, next);
        }
      } else {
        parent, isLeft := Splice(node, next);
      }
      Recover(parent, isLeft);
      RemovedEnds(old(order), old(node.pos));
    }

    static ghost function Keep(s: seq<AvlNode>, drop: int -> bool): seq<AvlNode> {
      if s == [] then [] else Keep(s[..|s| - 1], drop) + if drop(s[|s| - 1].key) then [] else [s[|s| - 1]]
    }

    static lemma KeepNothing(drop: int -> bool)
      ensures Keep([], drop) == []
    {
    }

    static lemma KeepLast(s: seq<AvlNode>, x: AvlNode, drop: int -> bool)
      ensures Keep(s + [x], drop) == Keep(s, drop) + (if drop(x.key) then [] else [x])
    {
      assert (s + [x])[..|s|] == s;
    }

    // Where the saved-next loop stands after meeting the first element of `was[i..]`.
    static lemma Advance(kept: seq<AvlNode>, was: seq<AvlNode>, i: int)
      requires 0 <= i < |was|
      ensures (kept + was[i..])[|kept|] == was[i] && was[..i] + [was[i]] == was[..i + 1]
      ensures |kept + was[i..]| == |kept| + |was| - i
      ensures i + 1 < |was| ==> (kept + was[i..])[|kept| + 1] == was[i + 1]
      ensures RemoveAt(kept + was[i..], |kept|) == kept + was[i + 1..]
      ensures kept + was[i..] == (kept + [was[i]]) + was[i + 1..]
    {
    }

    lemma Numbered(i: int)
      requires Valid() && 0 <= i < |order|
      ensures Shape() && order[i] in nodes && order[i].pos == i
    {
    }

    lemma Opening()
      requires Valid()
      ensures first == if order == [] then null else order[0]
    {
    }

    /** The delete-safe loop ITERATE_AVL_TREE with a body that removes the
        elements `drop` asks for: every element is met once, in order, even when
        a removal moves the saved successor up the tree. */
    method Sweep(drop: int -> bool) returns (visited: seq<AvlNode>)
      requires Valid()
      modifies this, nodes
      ensures Valid() && visited == old(order) && order == Keep(old(order), drop) && nodes <= old(nodes)
    {
      hide Valid, Shape, Keep, RemoveAt;
      Opening();
      visited := [];
      ghost var kept := [];
      ghost var was := order;
      KeepNothing(drop);
      assert was[..0] == [] && order == kept + was[0..];
      var curr := first;
      while curr != null
        invariant Valid() && nodes <= old(nodes)
        invariant |visited| <= |was| && visited == was[..|visited|]
        invariant order == kept + was[|visited|..] && kept == Keep(visited, drop)
        invariant curr == if |visited| < |was| then was[|visited|] else null
        decreases |was| - |visited|
      {
        Advance(kept, was, |visited|);
        Numbered(|kept|);
        var next := Next(curr);
        KeepLast(visited, curr, drop);
        if drop(curr.key) {
          Remove(curr);
          assert kept + [] == kept;
        } else {
          kept := kept + [curr];
        }
        visited := visited + [curr];
        curr := next;
      }
    }

    // ---------- what the invariant means ----------

    /** The height of the subtree, by recursion over the pointers alone. */
    ghost function RealHeight(n: AvlNode?): nat
      requires Shape() && (n != null ==> n in nodes)
      reads this, nodes
      decreases if n == null then 0 else n.hi - n.lo
    {
      if n == null then 0 else
        At(n);
        1 + Max(RealHeight(n.left), RealHeight(n.right))
    }

    /** In-order traversal, by recursion over the pointers alone. */
    ghost function InOrder(n: AvlNode?): seq<AvlNode>
      requires Shape() && (n != null ==> n in nodes)
      reads this, nodes
      decreases if n == null then 0 else n.hi - n.lo
    {
      if n == null then [] else
        At(n);
        InOrder(n.left) + [n] + InOrder(n.right)
    }

    static lemma Sliced(s: seq<AvlNode>, lo: int, pos: int, hi: int)
      requires 0 <= lo <= pos < hi <= |s|
      ensures s[lo..hi] == s[lo..pos] + [s[pos]] + s[pos + 1..hi]
    {
    }

    lemma {:induction false} InOrderSlice(n: AvlNode)
      requires Shape() && n in nodes
      ensures 0 <= n.lo <= n.hi <= |order| && InOrder(n) == order[n.lo..n.hi]
      decreases n.hi - n.lo
    {
      hide Shape;
      At(n);
      if n.left != null { InOrderSlice(n.left); }
      if n.right != null { InOrderSlice(n.right); }
      Sliced(order, n.lo, n.pos, n.hi);
    }

    lemma {:induction false} HeightIsReal(n: AvlNode)
      requires Shape() && n in nodes && AllBalanced(null, false, 0)
      ensures RealHeight(n) == n.ht
      decreases n.hi - n.lo
    {
      At(n);
      assert Balanced(n, null, false, 0);
      if n.left != null { HeightIsReal(n.left); }
      if n.right != null { HeightIsReal(n.right); }
    }

    /** The invariant in terms of the pointers alone: the in-order traversal is
        `order`, holds exactly `nodes` and is sorted, the two cached ends are its
        first and last element, the cached height is exact, and each stored
        balance is the real height difference and at most one. */
    lemma ValidMeans()
      requires Valid()
      ensures InOrder(root) == order && (forall x :: x in order <==> x in nodes)
      ensures forall i, j | 0 <= i < j < |order| :: cmp(order[i].key, order[j].key) < 0 && order[i] != order[j]
      ensures height == RealHeight(root) - 1
      ensures forall x | x in nodes ::
        Linked(x) && x.balance == RealHeight(x.right) - RealHeight(x.left) && -1 <= x.balance <= 1
    {
      if root != null {
        InOrderSlice(root);
        HeightIsReal(root);
        assert order[0..|order|] == order;
      }
      forall x ensures x in order <==> x in nodes {
        if x in nodes { At(x); }
      }
      forall x | x in nodes
        ensures Linked(x) && x.balance == RealHeight(x.right) - RealHeight(x.left) && -1 <= x.balance <= 1
      {
        At(x);
        assert Balanced(x, null, false, 0);
        if x.left != null { HeightIsReal(x.left); }
        if x.right != null { HeightIsReal(x.right); }
      }
    }

    lemma {:induction false} Bushy(n: AvlNode)
      requires Shape() && n in nodes && AllBalanced(null, false, 0)
      ensures n.hi - n.lo >= Fewest(n.ht)
      decreases n.hi - n.lo
    {
      hide Shape;
      At(n);
      assert Balanced(n, null, false, 0);
      if n.left != null { Bushy(n.left); }
      if n.right != null { Bushy(n.right); }
      if n.ht >= 2 { FewestGrows(n.ht - 2); }
    }

    /** The point of the rebalancing: the height is logarithmic in the size. */
    lemma Logarithmic()
      requires Valid()
      ensures Pow2((height + 1) / 2) <= |order| + 1
    {
      if root != null {
        Bushy(root);
        FewestDoubles(root.ht);
      }
    }
  }

  // The fewest nodes of a balanced tree of height `h`.
  function Fewest(h: nat): nat {
    if h == 0 then 0 else if h == 1 then 1 else 1 + Fewest(h - 1) + Fewest(h - 2)
  }

  function Pow2(n: nat): nat {
    if n == 0 then 1 else 2 * Pow2(n - 1)
  }

  lemma {:induction false} FewestGrows(h: nat)
    ensures Fewest(h) <= Fewest(h + 1)
  {
    if h > 1 {
      FewestGrows(h - 1);
    }
  }

  lemma {:induction false} FewestDoubles(h: nat)
    ensures Fewest(h) + 1 >= Pow2(h / 2)
  {
    if h >= 2 {
      FewestDoubles(h - 2);
      FewestGrows(h - 2);
    }
  }
}
