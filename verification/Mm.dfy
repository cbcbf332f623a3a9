/** The memory manager of LinuxMemoryManager/mm.c: pages from the kernel are cut
    into blocks with headers, split on allocation and coalesced on release.

    The layout is a conjunction of facts about single blocks (`Placed`) and
    single pages (`Mapped`).  A gap may follow any block; it belongs to the block
    before it. */
module Mm {
  import Arith
  import opened Common

  const HEADER := 48   // sizeof(block_meta_data_t)
  const FIRST := 32    // offset_of(vm_page_t, block_meta_data)
  const PAYLOAD := 80  // offset_of(vm_page_t, page_memory)

  class Block {
    const addr: int
    const offset: int
    ghost const page: Page
    var isFree: bool
    var size: int
    var prev: Block?
    var next: Block?

    constructor (addr: int, offset: int, size: int, ghost page: Page)
      ensures this.addr == addr && this.offset == offset && this.size == size && this.page == page
      ensures isFree && prev == null && next == null
    {
      this.addr, this.offset, this.size, this.page := addr, offset, size, page;
      isFree, prev, next := true, null, null;
    }

    // The address right behind the block.
    function End(): int
      reads `size
    {
      offset + HEADER + size
    }
  }

  class Page {
    const base: int
    const size: int
    var head: Block?
    var index: int

    constructor (base: int, size: int)
      ensures this.base == base && this.size == size && head == null
    {
      this.base, this.size := base, size;
      head := null;
    }
  }

  // What a user of a family does: obtain a block, or give back the k-th one held.
  datatype Command = Obtain(req: nat) | Release(k: nat)

  function Held(sizes: seq<nat>, c: Command): seq<nat> {
    match c
    case Obtain(req) => sizes + [req]
    case Release(k) => if k < |sizes| then sizes[..k] + sizes[k + 1..] else sizes
  }

  // The sizes asked for and not given back, oldest first.
  function HeldAfter(commands: seq<Command>): seq<nat> {
    if commands == [] then [] else Held(HeldAfter(commands[..|commands| - 1]), commands[|commands| - 1])
  }

  lemma HeldNext(commands: seq<Command>, n: nat)
    requires n < |commands|
    ensures HeldAfter(commands[..n + 1]) == Held(HeldAfter(commands[..n]), commands[n])
  {
    assert commands[..n + 1][..n] == commands[..n];
  }

  class Family {
    const structSize: nat
    const pageSize: int
    var pages: seq<Page>
    var freeList: seq<Block>
    // Which page header lies at an address.
    var at: map<int, Page>
    ghost var blocks: set<Block>

    // ---------- layout ----------

    ghost predicate Placed(b: Block)
      reads `pages, `blocks, pages`head, b`size, blocks`next, blocks`prev, b`next, b`prev
    {
      && b.page in pages && b.addr == b.page.base + b.offset && FIRST <= b.offset && 0 <= b.size
      && (b.next != null ==> b.next in blocks && b.next.prev == b && b.next.page == b.page && b.End() <= b.next.offset)
      && (b.next == null ==> b.End() <= b.page.size)
      && (b.prev != null ==> b.prev in blocks && b.prev.next == b)
      && (b.prev == null ==> b == b.page.head && b.offset == FIRST)
    }

    ghost predicate Mapped(p: Page)
      reads `at, `blocks, p`head, blocks`prev
    {
      && p.base in at && at[p.base] == p && PAYLOAD <= p.size
      && p.head in blocks && p.head.page == p && p.head.prev == null
    }

    static predicate Apart(p: Page, q: Page) {
      p.base + p.size <= q.base || q.base + q.size <= p.base
    }

    // Page indexes rise along the list; every page has its own address range.
    ghost predicate Indexed()
      reads `pages, pages`index
    {
      && (forall p, q {:trigger Apart(p, q)} | p in pages && q in pages && p != q :: Apart(p, q))
      && (forall i | 0 <= i < |pages| :: 0 <= pages[i].index)
      && (forall i, j | 0 <= i < j < |pages| :: pages[i].index < pages[j].index)
    }

    ghost predicate Layout()
      reads `pages, `blocks, `at, pages`index, pages`head, blocks`size, blocks`next, blocks`prev
    {
      && Indexed()
      && (forall p {:trigger Mapped(p)} | p in pages :: Mapped(p))
      && (forall b {:trigger Placed(b)} | b in blocks :: Placed(b))
    }

    // ---------- the free list ----------

    // No block twice, and biggest first, leaving `but` out of account.
    ghost predicate QueueBut(but: Block?)
      reads `freeList, freeList`size
    {
      && (forall i, j | 0 <= i < j < |freeList| :: freeList[i] != freeList[j])
      && (forall i, j | 0 <= i < j < |freeList| && freeList[i] != but && freeList[j] != but ::
        freeList[i].size >= freeList[j].size)
    }

    ghost predicate Queue()
      reads `freeList, freeList`size
    {
      QueueBut(null)
    }

    // The list holds exactly the free blocks, except for `but`, which is under way.
    ghost predicate Listed(but: Block?)
      reads `freeList, `blocks, blocks`isFree
    {
      && but !in freeList
      && (forall b | b in freeList :: b in blocks)
      && (forall b | b in blocks && b != but :: b.isFree <==> b in freeList)
    }

    // `b` and its right neighbour are not both free.
    ghost predicate Merged(b: Block)
      reads `blocks, b`next, blocks`isFree
    {
      b in blocks && b.next in blocks ==> !b.isFree || !b.next.isFree
    }

    ghost predicate AllMerged(but: set<Block?>)
      reads `blocks, blocks`next, blocks`isFree
    {
      forall b {:trigger Merged(b)} | b in blocks && b !in but :: Merged(b)
    }

    ghost predicate Valid()
      reads this, pages, blocks, freeList
    {
      Layout() && Queue() && Listed(null) && AllMerged({})
    }

    /** Every resident page holds a live block. */
    ghost predicate Used(p: Page)
      reads `blocks, blocks`isFree
    {
      exists b :: b in blocks && b.page == p && !b.isFree
    }

    ghost predicate AllUsed()
      reads `pages, `blocks, blocks`isFree
    {
      forall p {:trigger Used(p)} | p in pages :: Used(p)
    }

    constructor (structSize: nat, pageSize: int)
      ensures Valid() && AllUsed() && blocks == {} && pages == [] && this.structSize == structSize &&
        this.pageSize == pageSize
    {
      this.structSize, this.pageSize := structSize, pageSize;
      pages, freeList, at, blocks := [], [], map[], {};
    }

    // ---------- what the layout gives ----------

    // MM_GET_PAGE_FROM_META_BLOCK: the offset leads back to the page header.
    method PageOf(b: Block) returns (p: Page)
      requires Valid() && b in blocks
      ensures p == b.page && p in pages
    {
      At(b);
      p := at[b.addr - b.offset];
    }

    lemma At(b: Block)
      requires Layout() && b in blocks
      ensures Placed(b) && Mapped(b.page)
    {
    }

    /** Following `next` from `x` meets every block of the page behind `x`. */
    lemma {:induction false} Chain(x: Block, y: Block)
      requires Layout() && x in blocks && y in blocks && x.page == y.page && x.offset <= y.offset
      ensures x == y || (x.next != null && x.next in blocks && (x.next == y || x.next.offset < y.offset))
      decreases x.offset + y.offset
    {
      hide Layout;
      At(x);
      At(y);
      if y.prev == null {
        if x.prev != null { At(x.prev); }
      } else {
        At(y.prev);
        if x != y {
          if x.offset <= y.prev.offset {
            Chain(x, y.prev);
          } else {
            Chain(y.prev, x);
          }
        }
      }
    }

    /** Two resident blocks, headers included, never share an address, and each
        lies inside its page, behind the page header. */
    lemma Disjoint(a: Block, b: Block)
      requires Layout() && a in blocks && b in blocks && a != b
      ensures a.addr + HEADER + a.size <= b.addr || b.addr + HEADER + b.size <= a.addr
    {
      Inside(a);
      Inside(b);
      if a.page == b.page {
        if a.offset <= b.offset {
          Chain(a, b);
        } else {
          Chain(b, a);
        }
      } else {
        assert Apart(a.page, b.page);
      }
    }

    ghost function Above(a: Block): set<Block>
      reads `blocks
    {
      set x | x in blocks && x.offset > a.offset
    }

    lemma Fewer(a: Block, b: Block)
      requires b in blocks && a.offset < b.offset
      ensures |Above(b)| < |Above(a)|
    {
      assert Above(b) <= Above(a) - {b};
      assert b in Above(a);
      Smaller(Above(b), Above(a) - {b});
    }

    static lemma {:induction false} Smaller(s: set<Block>, t: set<Block>)
      requires s <= t
      ensures |s| <= |t|
      decreases |t|
    {
      if x :| x in t {
        Smaller(s - {x}, t - {x});
      }
    }

    lemma {:induction false} Inside(a: Block)
      requires Layout() && a in blocks
      ensures Placed(a) && a.page in pages && a.page.base + FIRST <= a.addr &&
        a.addr + HEADER + a.size <= a.page.base + a.page.size
      decreases |Above(a)|
    {
      At(a);
      if a.next != null {
        At(a.next);
        Fewer(a, a.next);
        Inside(a.next);
      }
    }

    lemma Alone(p: Page)
      requires Layout() && p in pages && p.head != null && p.head.next == null
      ensures forall x | x in blocks && x.page == p :: x == p.head
    {
      assert Mapped(p);
      At(p.head);
      forall x | x in blocks && x.page == p ensures x == p.head {
        At(x);
        Chain(p.head, x);
      }
    }

    // ---------- free list operations ----------

    /** mm_add_free_block_meta_data_to_free_block_list: in front of the first
        block that is smaller. */
    method AddFree(b: Block)
      requires Queue() && b !in freeList && b.isFree
      modifies `freeList
      ensures Queue() && forall x :: x in freeList <==> x == b || x in old(freeList)
    {
      var i := 0;
      while i < |freeList| && b.size <= freeList[i].size
        invariant i <= |freeList| && forall j | 0 <= j < i :: b.size <= freeList[j].size
      {
        i := i + 1;
      }
      freeList := freeList[..i] + [b] + freeList[i..];
    }

    // remove_glthread: nothing happens to a block that is not queued.
    method Unlist(b: Block)
      requires QueueBut(b)
      modifies `freeList
      ensures Queue() && forall x :: x in freeList <==> x != b && x in old(freeList)
    {
      if b in freeList {
        var k :| 0 <= k < |freeList| && freeList[k] == b;
        freeList := freeList[..k] + freeList[k + 1..];
      }
    }

    // ---------- allocation ----------

    // Everything about `x` but its links is as it was.
    twostate predicate Stays(x: Block)
      reads x
    {
      x.isFree == old(x.isFree) && x.size == old(x.size)
    }

    twostate lemma WasPlaced(x: Block)
      requires old(Layout()) && x in old(blocks)
      ensures old(Placed(x)) && x.page in old(pages) && old(Mapped(x.page))
      ensures old(x.next) != null ==> old(x.next) in old(blocks) && old(Placed(x.next))
      ensures old(x.prev) != null ==> old(x.prev) in old(blocks) && old(Placed(x.prev))
    {
      assert old(Placed(x));
      if old(x.next) != null { assert old(Placed(x.next)); }
      if old(x.prev) != null { assert old(Placed(x.prev)); }
    }

    // Only `b` and the block that followed it have new links.
    twostate predicate Relinked(x: Block, new b: Block, new next: Block?, new from: Block, new to: Block)
      reads x
    {
      && x.size == old(x.size)
      && x.next == (if x == b then next else old(x.next))
      && x.prev == (if old(x.prev) == from then to else old(x.prev))
    }

    twostate predicate SamePages()
      reads this, pages
    {
      pages == old(pages) && at == old(at) && forall p | p in pages :: p.head == old(p.head) && p.index == old(p.index)
    }

    twostate lemma LayoutAgain()
      requires old(Layout()) && SamePages()
      requires forall x {:trigger Placed(x)} | x in blocks :: Placed(x)
      requires forall p {:trigger Mapped(p)} | p in pages :: Mapped(p)
      ensures Layout()
    {
      hide Placed, Mapped;
    }

    // The pointer assignments of mm_bind_blocks_for_allocation.
    method Link(b: Block, nb: Block)
      requires Layout() && b in blocks && nb !in blocks
      modifies blocks`next, blocks`prev, nb`next, nb`prev
      ensures nb.prev == b && nb.next == old(b.next)
      ensures forall x {:trigger Relinked(x, b, nb, b, nb)} | x in blocks :: Relinked(x, b, nb, b, nb)
    {
      hide Layout;
      At(b);
      nb.prev := b;
      nb.next := b.next;
      b.next := nb;
      if nb.next != null {
        nb.next.prev := nb;
      }
      forall x | x in blocks ensures Relinked(x, b, nb, b, nb) {
        WasPlaced(x);
      }
    }

    /** mm_bind_blocks_for_allocation: `nb` becomes the right neighbour of `b`. */
    method Bind(b: Block, nb: Block)
      requires Layout() && b in blocks && nb !in blocks
      requires nb.page == b.page && nb.addr == b.addr + HEADER + b.size && nb.offset == b.End() && nb.size >= 0
      requires nb.End() <= if b.next != null then b.next.offset else b.page.size
      modifies `blocks, blocks`next, blocks`prev, nb`next, nb`prev
      ensures Layout() && blocks == old(blocks) + {nb} && nb.next == old(b.next)
      ensures forall x {:trigger Relinked(x, b, nb, b, nb)} | x in old(blocks) :: Relinked(x, b, nb, b, nb)
    {
      hide Layout;
      At(b);
      Link(b, nb);
      blocks := blocks + {nb};
      BoundLayout(b, nb);
    }

    twostate predicate Bound(new b: Block, new nb: Block)
      reads this, pages, blocks, nb
    {
      && b in old(blocks) && SamePages() && blocks == old(blocks) + {nb} && nb !in old(blocks)
      && nb.page == b.page && nb.addr == b.addr + HEADER + b.size && nb.offset == b.End() && nb.size >= 0
      && nb.End() <= (if old(b.next) != null then old(b.next).offset else b.page.size)
      && nb.prev == b && nb.next == old(b.next)
      && forall x {:trigger Relinked(x, b, nb, b, nb)} | x in old(blocks) :: Relinked(x, b, nb, b, nb)
    }

    twostate lemma BoundAt(x: Block, new b: Block, new nb: Block)
      requires old(Layout()) && x in old(blocks) && Bound(b, nb)
      ensures Placed(x)
    {
      hide Layout;
      WasPlaced(x);
      WasPlaced(b);
      assert Relinked(x, b, nb, b, nb);
      assert Relinked(b, b, nb, b, nb);
      var y, z := old(x.next), old(x.prev);
      assert y != null ==> Relinked(y, b, nb, b, nb);
      assert z != null ==> Relinked(z, b, nb, b, nb);
    }

    twostate lemma BoundNew(b: Block, new nb: Block)
      requires old(Layout()) && Bound(b, nb)
      ensures Placed(nb)
    {
      hide Layout;
      WasPlaced(b);
      assert Relinked(b, b, nb, b, nb);
      assert nb.next != null ==> Relinked(nb.next, b, nb, b, nb);
    }

    twostate lemma BoundLayout(b: Block, new nb: Block)
      requires old(Layout()) && Bound(b, nb)
      ensures Layout()
    {
      hide Layout, Placed;
      forall x | x in blocks ensures Placed(x) {
        if x == nb { BoundNew(b, nb); } else { BoundAt(x, b, nb); }
      }
      forall p {:trigger Mapped(p)} | p in pages ensures Mapped(p) {
        WasMapped(p);
        assert Relinked(p.head, b, nb, b, nb);
      }
      LayoutAgain();
    }

    twostate lemma WasMapped(p: Page)
      requires old(Layout()) && p in old(pages)
      ensures old(Mapped(p))
    {
    }

    // How far the block may reach.
    ghost function Limit(b: Block): int
      reads b`next
    {
      if b.next != null then b.next.offset else b.page.size
    }

    // Only the size of `b` is new.
    twostate lemma Resized(b: Block)
      requires old(Layout()) && b in blocks && blocks == old(blocks) && SamePages()
      requires forall x {:trigger Relinked(x, b, old(b.next), b, b)} | x in blocks && x != b ::
        Relinked(x, b, old(b.next), b, b)
      requires b.next == old(b.next) && b.prev == old(b.prev) && 0 <= b.size && b.End() <= Limit(b)
      ensures Layout()
    {
      hide Layout;
      forall x | x in blocks ensures Placed(x) {
        WasPlaced(x);
        var y, z := old(x.next), old(x.prev);
        assert x != b ==> Relinked(x, b, old(b.next), b, b);
        assert y != null && y != b ==> Relinked(y, b, old(b.next), b, b);
        assert z != null && z != b ==> Relinked(z, b, old(b.next), b, b);
      }
      forall p {:trigger Mapped(p)} | p in pages ensures Mapped(p) {
        WasMapped(p);
        assert p.head != b ==> Relinked(p.head, b, old(b.next), b, b);
      }
      LayoutAgain();
    }

    twostate lemma QueueStays(b: Block)
      requires old(Queue()) && freeList == old(freeList)
      requires forall x | x in freeList && x != b :: x.size == old(x.size)
      ensures QueueBut(b)
    {
    }

    // A free block leaves the list, cut down to `size`.
    method Take(b: Block, size: nat)
      requires Valid() && b in blocks && b.isFree && size <= b.size
      modifies `freeList, b`isFree, b`size
      ensures Valid() && !b.isFree && b.size == size && (b.next in blocks ==> !b.next.isFree)
    {
      hide Layout, QueueBut;
      At(b);
      assert Merged(b);
      b.isFree := false;
      b.size := size;
      QueueStays(b);
      Unlist(b);
      Resized(b);
      forall x | x in blocks ensures Merged(x) {
        assert old(Merged(x)) && old(Merged(b));
      }
    }

    // A new free block right behind `b`.
    method Carve(b: Block, size: nat)
      requires Valid() && b in blocks && !b.isFree && (b.next in blocks ==> !b.next.isFree)
      requires b.End() + HEADER + size <= Limit(b)
      modifies `freeList, `blocks, blocks`next, blocks`prev
      ensures Valid() && b.next != null && fresh(b.next) && blocks == old(blocks) + {b.next}
      ensures b.next.isFree && b.next.addr == b.addr + HEADER + b.size && b.next.size == size
      ensures b.next.next == old(b.next) && forall x | x in old(blocks) && x != b :: x.next == old(x.next)
    {
      hide Layout, QueueBut;
      At(b);
      var nb := new Block(b.addr + HEADER + b.size, b.offset + HEADER + b.size, size, b.page);
      AddFree(nb);
      label binding:
      Bind(b, nb);
      assert Relinked@binding(b, b, nb, b, nb);
      forall x | x in old(blocks) && x != b ensures x.next == old(x.next) {
        assert Relinked@binding(x, b, nb, b, nb);
      }
      forall x | x in blocks ensures Merged(x) {
        if x != nb {
          assert Relinked@binding(x, b, nb, b, nb);
          assert old(Merged(x));
        }
      }
    }

    /** mm_split_free_data_block_for_allocation.  What is left over becomes a
        free block if a header fits into it, and a gap otherwise. */
    method Split(b: Block, size: nat) returns (ok: bool)
      requires Valid() && b in blocks && b.isFree
      modifies `freeList, `blocks, b`isFree, b`size, blocks`next, blocks`prev
      ensures Valid() && ok == (size <= old(b.size)) && old(blocks) <= blocks
      ensures forall x | x in old(blocks) && x != b :: Stays(x) && x.next == old(x.next)
      ensures !ok ==> blocks == old(blocks) && Stays(b) && freeList == old(freeList)
      ensures ok ==> !b.isFree && b.size == size
      ensures ok && old(b.size) < size + HEADER ==> blocks == old(blocks) && b.next == old(b.next)
      ensures ok && old(b.size) >= size + HEADER ==>
        && b.next != null && fresh(b.next) && blocks == old(blocks) + {b.next} && b.next.isFree
        && b.next.addr == b.addr + HEADER + size && b.next.size == old(b.size) - size - HEADER
        && b.next.next == old(b.next)
    {
      hide Valid;
      if b.size < size {
        return false;
      }
      var remaining := b.size - size;
      Room(b);
      Take(b, size);
      if remaining == 0 {
        return true;
      } else if HEADER < remaining && remaining < HEADER + structSize {
        Carve(b, remaining - HEADER);
      } else if remaining < HEADER {
      } else {
        Carve(b, remaining - HEADER);
      }
      return true;
    }

    lemma Room(b: Block)
      requires Valid() && b in blocks
      ensures 0 <= b.size && b.End() <= Limit(b)
    {
      At(b);
    }

    // ---------- release ----------

    twostate predicate Unbound(new b: Block, new top: Block)
      reads this, pages, blocks
    {
      && b in old(blocks) && top in old(blocks) && old(b.next) == top && SamePages() && blocks == old(blocks) - {top}
      && forall x {:trigger Relinked(x, b, old(top.next), top, b)} | x in blocks ::
        Relinked(x, b, old(top.next), top, b)
    }

    twostate lemma UnboundAt(x: Block, new b: Block, new top: Block)
      requires old(Layout()) && Unbound(b, top) && x in blocks
      ensures Placed(x)
    {
      hide Layout;
      WasPlaced(x);
      WasPlaced(b);
      WasPlaced(top);
      var next := old(top.next);
      assert Relinked(x, b, next, top, b);
      assert Relinked(b, b, next, top, b);
      assert next != null ==> Relinked(next, b, next, top, b);
      var y, z := old(x.next), old(x.prev);
      assert y != null && y != top ==> Relinked(y, b, next, top, b);
      assert z != null && z != top ==> Relinked(z, b, next, top, b);
    }

    twostate lemma WasNext(b: Block)
      requires old(Layout()) && b in old(blocks) && old(b.next) != null
      ensures old(b.next.prev) == b
    {
      assert old(Placed(b));
    }

    twostate lemma UnboundLayout(b: Block, new top: Block)
      requires old(Layout()) && Unbound(b, top)
      ensures Layout()
    {
      hide Layout, Placed;
      forall x | x in blocks ensures Placed(x) {
        UnboundAt(x, b, top);
      }
      WasNext(b);
      forall p {:trigger Mapped(p)} | p in pages ensures Mapped(p) {
        WasMapped(p);
        assert Relinked(p.head, b, old(top.next), top, b);
      }
      LayoutAgain();
    }

    /** mm_bind_blocks_for_deallocation: `top`, the right neighbour of `b`, is no
        longer a block of its own.  The size of `b` stays as it is. */
    method Unbind(b: Block, top: Block)
      requires Layout() && b in blocks && b.next == top
      modifies `blocks, blocks`next, blocks`prev
      ensures Layout() && Unbound(b, top)
    {
      hide Layout;
      At(b);
      At(top);
      b.next := top.next;
      if top.next != null {
        top.next.prev := b;
      }
      blocks := blocks - {top};
      forall x | x in blocks ensures Relinked(x, b, old(top.next), top, b) {
        WasPlaced(x);
      }
      UnboundLayout(b, top);
    }

    // `b` has been freed but is not queued yet, and may still have free neighbours in `but`.
    ghost predicate Freeing(b: Block, but: set<Block?>)
      reads this, pages, blocks, freeList
    {
      Layout() && Queue() && Listed(b) && b in blocks && b.isFree && AllMerged(but)
    }

    lemma Relax(b: Block)
      requires Queue()
      ensures QueueBut(b)
    {
    }

    /** mm_union_free_blocks. */
    method Union(first: Block, second: Block)
      requires Layout() && Queue() && first in blocks && second in blocks && first.next == second && first.isFree &&
        second.isFree
      modifies `freeList, `blocks, blocks`next, blocks`prev
      ensures Layout() && Queue() && Unbound(first, second)
      ensures forall x :: x in freeList <==> x in old(freeList) && x != first && x != second
    {
      hide Layout, QueueBut;
      Relax(first);
      Unlist(first);
      Relax(second);
      Unlist(second);
      label binding:
      Unbind(first, second);
      forall x | x in blocks ensures Relinked(x, first, old(second.next), second, first) {
        assert Relinked@binding(x, first, old(second.next), second, first);
      }
    }

    // The freed block takes in the gap behind it.
    method Absorb(b: Block)
      requires Valid() && b in blocks && !b.isFree
      modifies b`isFree, b`size
      ensures Freeing(b, {b, b.prev}) && b.isFree && b.size == Limit(b) - b.offset - HEADER
    {
      hide Layout, QueueBut;
      At(b);
      var page := PageOf(b);
      b.isFree := true;
      var next := b.next;
      if next != null {
        At(next);
        b.size := b.size + (next.addr - (b.addr + HEADER + b.size));
      } else {
        b.size := b.size + (page.base + page.size - (b.addr + HEADER + b.size));
      }
      QueueStays(b);
      Resized(b);
      forall x | x in blocks && x !in {b, b.prev} ensures Merged(x) {
        At(x);
        assert old(Merged(x));
      }
    }

    method MergeRight(b: Block)
      requires Freeing(b, {b, b.prev})
      modifies `freeList, `blocks, blocks`next, blocks`prev
      ensures Freeing(b, {b.prev}) && b.prev == old(b.prev) && blocks <= old(blocks)
      ensures b.next == if old(b.next) != null && old(b.next.isFree) then old(b.next.next) else old(b.next)
      ensures forall x | x in old(blocks) && x !in blocks :: x != b && x != b.prev && x.isFree
    {
      hide Layout, QueueBut;
      var next := b.next;
      At(b);
      if b.prev != null { At(b.prev); }
      if next != null && next.isFree {
        assert Merged(next);
        Union(b, next);
        assert Relinked(b, b, old(next.next), next, b);
        forall x | x in blocks && x != b.prev ensures Merged(x) {
          assert Relinked(x, b, old(next.next), next, b);
          assert x != b ==> old(Merged(x));
        }
      } else {
        assert Merged(b);
      }
    }

    method MergeLeft(b: Block) returns (r: Block)
      requires Freeing(b, {b.prev})
      modifies `freeList, `blocks, blocks`next, blocks`prev
      ensures Freeing(r, {})
      ensures r == (if old(b.prev) != null && old(b.prev.isFree) then old(b.prev) else b) && r.next == old(b.next)
      ensures blocks == if r == b then old(blocks) else old(blocks) - {b}
    {
      hide Layout, QueueBut;
      var prev := b.prev;
      r := b;
      At(b);
      if prev != null && prev.isFree {
        Union(prev, b);
        r := prev;
        assert Relinked(prev, prev, old(b.next), b, prev);
        forall x | x in blocks ensures Merged(x) {
          assert Relinked(x, prev, old(b.next), b, prev);
          assert old(Merged(b));
          assert x != prev ==> old(Merged(x));
        }
      }
    }

    /** mm_is_vm_page_empty. */
    method IsEmpty(p: Page) returns (empty: bool)
      requires Layout() && p in pages
      ensures p.head != null && empty == (p.head.next == null && p.head.isFree)
    {
      assert Mapped(p);
      empty := p.head.next == null && p.head.prev == null && p.head.isFree;
    }

    lemma RemovePage(was: seq<Page>, k: nat)
      requires k < |was| && pages == was[..k] + was[k + 1..]
      requires forall i | 0 <= i < |was| :: 0 <= was[i].index
      requires forall i, j | 0 <= i < j < |was| :: was[i].index < was[j].index
      requires forall q, r {:trigger Apart(q, r)} | q in was && r in was && q != r :: Apart(q, r)
      ensures Indexed() && forall q :: q in pages <==> q in was && q != was[k]
    {
      assert was == was[..k] + [was[k]] + was[k + 1..];
      forall q | q in pages ensures q != was[k] {
        var i :| 0 <= i < |pages| && pages[i] == q;
      }
    }

    // The page leaves the doubly linked page list.
    method DropPage(p: Page)
      requires Indexed() && p in pages
      modifies `pages
      ensures Indexed() && forall q :: q in pages <==> q in old(pages) && q != p
    {
      ghost var was := pages;
      if pages[0] == p {
        pages := pages[1..];
        assert pages == was[..0] + was[1..];
        RemovePage(was, 0);
      } else {
        var k :| 0 < k < |pages| && pages[k] == p;
        pages := pages[..k] + pages[k + 1..];
        RemovePage(was, k);
      }
    }

    lemma OwnBase(p: Page, q: Page)
      requires Layout() && p in pages && q in pages && p != q
      ensures p.base != q.base
    {
      assert Mapped(p) && Mapped(q);
      assert Apart(p, q);
    }

    /** mm_vm_page_delete_and_free: the page leaves the list and its address
        range goes back to the kernel. */
    method DeletePage(p: Page)
      requires p in pages && p.head != null && Freeing(p.head, {}) && p.head.next == null
      modifies `pages, `at, `blocks
      ensures Valid() && blocks == old(blocks) - {p.head} && p !in pages
      ensures forall q :: q in pages <==> q in old(pages) && q != p
      ensures forall b | b in freeList :: b.page in pages
    {
      hide Layout, QueueBut, Indexed;
      Alone(p);
      Parts();
      forall q | q in pages && q != p ensures q.base != p.base {
        OwnBase(p, q);
      }
      DropPage(p);
      at := at - {p.base};
      blocks := blocks - {p.head};
      PageDeleted(p);
      forall x | x in blocks ensures Merged(x) {
        assert old(Merged(x));
      }
      forall b | b in freeList ensures b.page in pages {
        At(b);
      }
    }

    // Nothing else is lost with a page that holds one block.
    twostate lemma PageDeleted(p: Page)
      requires old(Layout()) && Indexed() && p in old(pages) && p.head != null && blocks == old(blocks) - {p.head}
      requires forall q :: q in pages <==> q in old(pages) && q != p
      requires unchanged(old(pages)) && unchanged(old(blocks)) && p.head.next == null
      requires at == old(at) - {p.base} && forall q | q in old(pages) && q != p :: q.base != p.base
      requires forall x | x in old(blocks) && x.page == p :: x == p.head
      ensures Layout()
    {
      hide Layout, Indexed;
      WasMapped(p);
      WasPlaced(p.head);
      forall x | x in blocks ensures Placed(x) {
        WasPlaced(x);
        assert x.page in old(pages) && x.page != p;
      }
      forall q {:trigger Mapped(q)} | q in pages ensures Mapped(q) {
        WasMapped(q);
        assert q in old(pages) && q.base != p.base;
      }
      Whole();
    }

    lemma Parts()
      requires Layout()
      ensures Indexed()
    {
    }

    lemma Whole()
      requires Indexed()
      requires forall x {:trigger Placed(x)} | x in blocks :: Placed(x)
      requires forall p {:trigger Mapped(p)} | p in pages :: Mapped(p)
      ensures Layout()
    {
    }

    // A live block of the page of `b` other than `b` itself.
    ghost predicate Shared(b: Block)
      reads `blocks, blocks`isFree
    {
      exists x :: x in blocks && x.page == b.page && x != b && !x.isFree
    }

    // Freeing up to the question what becomes of the page.
    method Coalesce(b: Block) returns (r: Block)
      requires Valid() && b in blocks && !b.isFree
      modifies `freeList, `blocks, b`isFree, b`size, blocks`next, blocks`prev
      ensures Freeing(r, {}) && r.page == b.page && blocks <= old(blocks)
      ensures if old(b.prev) != null && old(b.prev.isFree)
        then r == old(b.prev) && r.size == old(b.prev.size)
        else r == b && r.size == old(Limit(b)) - b.offset - HEADER
      ensures r.next == if old(b.next) != null && old(b.next.isFree) then old(b.next.next) else old(b.next)
      ensures forall x | x in old(blocks) && x !in blocks :: x == b || old(x.isFree)
      ensures forall x | x in old(blocks) && x != b :: Stays(x)
      ensures b in blocks ==> b.isFree
    {
      hide Valid, Freeing;
      LeftOf(b);
      Absorb(b);
      MergeRight(b);
      r := MergeLeft(b);
    }

    lemma LeftOf(b: Block)
      requires Valid() && b in blocks
      ensures b.prev != null ==> b.prev in blocks && b.prev.page == b.page && b.prev != b
    {
      At(b);
      if b.prev != null { At(b.prev); }
    }

    // An empty page holds just the block on the way to the free list.
    lemma Emptied(p: Page, r: Block)
      requires Freeing(r, {}) && p in pages && p == r.page && p.head != null && p.head.next == null && p.head.isFree
      ensures r == p.head && forall x | x in blocks && x.page == p :: x == r
    {
      hide QueueBut;
      Alone(p);
    }

    // A page that is not empty has a live block: two free neighbours would have been merged.
    lemma Occupied(p: Page)
      requires Layout() && AllMerged({}) && p in pages && p.head != null && !(p.head.next == null && p.head.isFree)
      ensures Used(p)
    {
      assert Mapped(p);
      At(p.head);
      assert Merged(p.head);
    }

    // No page is left without a live block.
    twostate lemma StillUsed(b: Block)
      requires old(AllUsed()) && b in old(blocks) && (b.page in pages ==> Used(b.page))
      requires forall q | q in pages :: q in old(pages)
      requires forall x | x in old(blocks) && !old(x.isFree) && x != b :: x in blocks && !x.isFree
      ensures AllUsed()
    {
      forall q | q in pages ensures Used(q) {
        assert old(Used(q));
      }
    }

    // The end of mm_free_blocks: the page is returned or `r` is queued.
    method Settle(page: Page, r: Block) returns (kept: bool)
      requires Freeing(r, {}) && page == r.page && page in pages
      modifies this
      ensures Valid() && blocks == if kept then old(blocks) else old(blocks) - {r}
      ensures kept ==> Used(page) && r in freeList
      ensures !kept ==> forall x | x in blocks :: x.page != page
      ensures forall q :: q in pages <==> q in old(pages) && (q == page ==> kept)
    {
      hide Layout, QueueBut;
      var empty := IsEmpty(page);
      kept := !empty;
      if empty {
        Emptied(page, r);
        DeletePage(page);
      } else {
        Occupied(page);
        AddFree(r);
      }
    }

    /** What mm_free_blocks gives back reaches up to its successor, or the end of its
        page, exactly if neither neighbour was free: a union forgets the bytes of the
        second block. */
    twostate lemma Reach(b: Block, new r: Block)
      requires old(Valid()) && b in old(blocks) && !old(b.isFree)
      requires if old(b.prev) != null && old(b.prev.isFree) then r == old(b.prev) && r.size == old(b.prev.size)
        else r == b && r.size == old(Limit(b)) - b.offset - HEADER
      requires r.next == if old(b.next) != null && old(b.next.isFree) then old(b.next.next) else old(b.next)
      ensures r.End() <= Limit(r)
      ensures r.End() == Limit(r) <==>
        !(old(b.prev) != null && old(b.prev.isFree)) && !(old(b.next) != null && old(b.next.isFree))
    {
      hide Layout;
      WasPlaced(b);
      if old(b.next) != null { WasPlaced(old(b.next)); }
      if old(b.prev) != null { WasPlaced(old(b.prev)); }
    }

    /** mm_free_blocks.  The page goes back to the kernel exactly when it holds no
        other live block.  What was free before the block keeps its size: the
        bytes of a block merged into its left neighbour become a gap. */
    method Free(b: Block) returns (r: Block?)
      requires Valid() && b in blocks && !b.isFree
      modifies this, b`isFree, b`size, blocks`next, blocks`prev
      ensures Valid() && (r == null <==> !old(Shared(b))) && blocks <= old(blocks)
      ensures forall x | x in old(blocks) && !old(x.isFree) && x != b :: x in blocks && Stays(x)
      ensures forall x | x in blocks && !x.isFree :: x in old(blocks) && !old(x.isFree) && x != b
      ensures forall q :: q in pages <==> q in old(pages) && (q == b.page ==> r != null)
      ensures r != null && old(b.prev) != null && old(b.prev.isFree) ==> r == old(b.prev) && r.size == old(b.prev.size)
      ensures old(AllUsed()) ==> AllUsed()
      ensures r != null && !(old(b.prev) != null && old(b.prev.isFree)) ==>
        r == b && r.size == old(Limit(b)) - b.offset - HEADER
      ensures r != null ==> r in blocks && r.isFree
      ensures r != null ==>
        r.next == if old(b.next) != null && old(b.next.isFree) then old(b.next.next) else old(b.next)
      ensures r != null ==> (r.End() == Limit(r) <==>
        !(old(b.prev) != null && old(b.prev.isFree)) && !(old(b.next) != null && old(b.next.isFree)))
    {
      hide Valid, Freeing, AllUsed;
      var page := PageOf(b);
      var block := Coalesce(b);
      InFreeing(block);
      Reach(b, block);
      var kept := Settle(page, block);
      r := if kept then block else null;
      if old(AllUsed()) { StillUsed(b); }
    }

    lemma InFreeing(r: Block)
      requires Freeing(r, {})
      ensures r in blocks && r.isFree
    {
    }

    // ---------- new pages ----------

    /** mm_get_available_page_index: how many pages carry the indexes 0, 1, ...
        without a hole. */
    method AvailableIndex() returns (k: nat)
      requires Indexed()
      ensures k <= |pages| && (forall i | 0 <= i < k :: pages[i].index == i)
      ensures forall i | k <= i < |pages| :: k < pages[i].index
    {
      k := 0;
      while k < |pages| && pages[k].index == k
        invariant k <= |pages| && forall i | 0 <= i < k :: pages[i].index == i
      {
        k := k + 1;
      }
      if k < |pages| {
        assert k <= pages[k].index by {
          if k > 0 { assert pages[k - 1].index < pages[k].index; }
        }
      }
    }

    // The range the kernel hands out overlaps no page of the family.
    predicate Vacant(base: int, size: int)
      reads `pages
    {
      forall p | p in pages :: base + size <= p.base || p.base + p.size <= base
    }

    static ghost predicate Taken(ps: seq<Page>, i: int)
      reads ps`index
    {
      exists q :: q in ps && q.index == i
    }

    lemma InsertPage(was: seq<Page>, k: nat, p: Page)
      requires k <= |was| && p.index == k && p !in was && pages == was[..k] + [p] + was[k..]
      requires forall i | 0 <= i < k :: was[i].index == i
      requires forall i | k <= i < |was| :: k < was[i].index
      requires forall i, j | 0 <= i < j < |was| :: was[i].index < was[j].index
      requires forall q, r {:trigger Apart(q, r)} | q in was && r in was && q != r :: Apart(q, r)
      requires forall q | q in was :: Apart(q, p)
      ensures Indexed() && forall q :: q in pages <==> q == p || q in was
    {
      assert was == was[..k] + was[k..];
    }

    // The new page enters the list behind the pages without a hole.
    method AddPage(p: Page)
      requires Indexed() && p !in pages && Vacant(p.base, p.size)
      modifies `pages, p`index
      ensures Indexed() && (forall q :: q in pages <==> q == p || q in old(pages))
      ensures forall q | q in old(pages) :: q.index != p.index
      ensures 0 <= p.index && forall i | 0 <= i < p.index :: Taken(old(pages), i)
    {
      var k := AvailableIndex();
      p.index := if k == 0 then 0 else pages[k - 1].index + 1;
      ghost var was := pages;
      pages := pages[..k] + [p] + pages[k..];
      InsertPage(was, k, p);
      hide Indexed;
      forall i | 0 <= i < p.index ensures Taken(was, i) {
        assert was[i] in was && was[i].index == i;
      }
    }

    /** mm_family_new_page_add: a page that is one free block. */
    method NewPage(units: nat, base: int) returns (p: Page)
      requires Valid() && 1 <= units && PAYLOAD < pageSize && Vacant(base, units * pageSize)
      modifies `pages, `at, `blocks, `freeList
      ensures Valid() && fresh(p) && p.head != null && fresh(p.head) && p.head.page == p && p.head.isFree
      ensures p.base == base && p.size == units * pageSize && p.head.size == p.size - PAYLOAD
      ensures p.head.next == null && blocks == old(blocks) + {p.head}
      ensures forall q :: q in pages <==> q == p || q in old(pages)
      ensures forall q | q in old(pages) :: q.index == old(q.index)
    {
      hide Layout, QueueBut, Indexed;
      assert units * pageSize >= pageSize by { Times(units, pageSize); }
      Parts();
      p := new Page(base, units * pageSize);
      var head := new Block(base + FIRST, FIRST, units * pageSize - PAYLOAD, p);
      p.head := head;
      AddPage(p);
      at := at[base := p];
      AddFree(head);
      blocks := blocks + {head};
      NewLayout(p, head);
      NewListed(head);
      hide Listed, AllMerged;
    }

    twostate lemma NewListed(new head: Block)
      requires old(Layout()) && old(Listed(null)) && old(AllMerged({})) && head !in old(blocks) &&
        blocks == old(blocks) + {head} && head.isFree
      requires forall x :: x in freeList <==> x == head || x in old(freeList)
      requires forall x | x in old(blocks) :: x.isFree == old(x.isFree) && x.next == old(x.next)
      requires head.next == null
      ensures Listed(null) && AllMerged({})
    {
      hide Layout;
      forall x | x in blocks ensures Merged(x) {
        if x != head {
          WasPlaced(x);
          assert old(Merged(x));
        }
      }
    }

    twostate lemma NewLayout(new p: Page, new head: Block)
      requires old(Layout()) && Indexed() && blocks == old(blocks) + {head} && head !in old(blocks) && p !in old(pages)
      requires at == old(at)[p.base := p] && (forall q :: q in pages <==> q == p || q in old(pages))
      requires head.page == p && p.head == head && head.next == null && head.prev == null && head.offset == FIRST
      requires head.addr == p.base + FIRST && head.size == p.size - PAYLOAD && PAYLOAD < p.size
      requires forall q | q in old(pages) :: q.head == old(q.head)
      requires forall x | x in old(blocks) :: x.size == old(x.size) && x.next == old(x.next) && x.prev == old(x.prev)
      ensures Layout()
    {
      hide Layout, Indexed;
      forall x | x in blocks ensures Placed(x) {
        if x != head { WasPlaced(x); }
      }
      forall q {:trigger Mapped(q)} | q in pages ensures Mapped(q) {
        if q != p {
          WasMapped(q);
          Parted(q, p);
        }
      }
      Whole();
    }

    lemma Parted(q: Page, p: Page)
      requires Indexed() && q in pages && p in pages && q != p
      ensures Apart(q, p)
    {
    }

    static lemma Times(n: int, m: int)
      requires 1 <= n && 0 <= m
      ensures n * m >= m
    {
    }

    ghost predicate Fits(req: int)
      reads `blocks, blocks`isFree, blocks`size
    {
      exists x :: x in blocks && x.isFree && x.size >= req
    }

    // The head of the list is the biggest free block.
    lemma Biggest()
      requires Valid()
      ensures freeList != [] ==> freeList[0] in blocks && freeList[0].isFree
      ensures forall x | x in blocks && x.isFree :: freeList != [] && x.size <= freeList[0].size
    {
      hide Layout;
      assert freeList != [] ==> freeList[0] in freeList;
      forall x | x in blocks && x.isFree ensures freeList != [] && x.size <= freeList[0].size {
        var i :| 0 <= i < |freeList| && freeList[i] == x;
      }
    }

    // The bytes free where a block has been taken: a free block, or the payload of a new page.
    twostate function Gross(new b: Block): int {
      if b in old(blocks) then old(b.size) else b.page.size - PAYLOAD
    }

    /** mm_allocate_free_data_block: worst fit, and a new page only if nothing
        fits.  It never fails, and no live block moves or changes. */
    method Allocate(req: nat, base: int) returns (b: Block?)
      requires Valid() && PAYLOAD < pageSize && (!Fits(req) ==> Vacant(base, Units(req, pageSize) * pageSize))
      modifies `pages, `at, `blocks, `freeList, blocks`isFree, blocks`size, blocks`next, blocks`prev
      ensures Valid() && b != null && b in blocks && !b.isFree && b.size == req
      ensures forall x | x in old(blocks) && x != b :: x in blocks && Stays(x) && x.next == old(x.next)
      ensures forall x | x in blocks :: x in old(blocks) || fresh(x)
      ensures old(Fits(req)) ==>
        pages == old(pages) && b in old(blocks) && old(b.isFree) && forall x | x in old(blocks) && old(x.isFree) ::
        old(x.size) <= old(b.size)
      ensures !old(Fits(req)) ==>
        b !in old(blocks) && b == b.page.head && fresh(b.page) && b.page.base == base &&
        b.page.size == Units(req, pageSize) * pageSize && forall q :: q in pages <==> q == b.page || q in old(pages)
      ensures if Gross(b) < req + HEADER then blocks == old(blocks) + {b}
        else
          b.next != null && fresh(b.next) && b.next.isFree && b.next.size == Gross(b) - req - HEADER &&
          blocks == old(blocks) + {b, b.next}
      ensures old(AllUsed()) ==> AllUsed()
    {
      hide Valid;
      Biggest();
      var units := req / Max1(pageSize) + 1;
      var status := false;
      if freeList == [] || freeList[0].size < req {
        EnoughPages(req, pageSize);
        var page := NewPage(units, base);
        status := Split(page.head, req);
        b := if status then page.head else null;
      } else {
        var biggest := freeList[0];
        status := Split(biggest, req);
        b := if status then biggest else null;
      }
      Host(b);
      if old(AllUsed()) {
        forall q | q in pages ensures Used(q) {
          if q == b.page {
            assert b in blocks && b.page == q && !b.isFree;
          } else {
            assert old(Used(q));
          }
        }
      }
    }

    // The kernel has a range to hand out.
    lemma {:induction false} RangeLeft(ps: seq<Page>) returns (base: int)
      ensures forall p | p in ps :: p.base + p.size <= base
    {
      base := 0;
      if ps != [] {
        base := RangeLeft(ps[1..]);
        base := if base < ps[0].base + ps[0].size then ps[0].base + ps[0].size else base;
      }
    }

    // The kernel places a new page anywhere outside of the others.
    method AnyRange(req: nat) returns (base: int)
      requires PAYLOAD < pageSize
      ensures Vacant(base, Units(req, pageSize) * pageSize)
    {
      var last := RangeLeft(pages);
      assert Vacant(last, Units(req, pageSize) * pageSize);
      base :| Vacant(base, Units(req, pageSize) * pageSize);
    }

    // The blocks in use are those held, each of the size asked for, and `others`.
    ghost predicate Holds(held: seq<Block>, sizes: seq<int>, others: set<Block>)
      reads `blocks, blocks`isFree, blocks`size
    {
      && |held| == |sizes|
      && (forall i | 0 <= i < |held| ::
        held[i] in blocks && !held[i].isFree && held[i].size == sizes[i] && held[i] !in others)
      && (forall i, j | 0 <= i < j < |held| :: held[i] != held[j])
      && (forall x | x in blocks && !x.isFree :: x in held || x in others)
    }

    /** Any sequence of allocations and frees, wherever the kernel places new pages: the
        blocks in use before stay as they are, and every block held has exactly the size
        asked for and memory of its own. */
    method Run(commands: seq<Command>) returns (held: seq<Block>)
      requires Valid() && PAYLOAD < pageSize
      modifies this, blocks
      ensures Valid() && (old(AllUsed()) ==> AllUsed())
      ensures Holds(held, HeldAfter(commands), old(InUse()))
      ensures forall x | x in old(InUse()) :: x in blocks && Stays(x)
      ensures forall x, y | x in InUse() && y in InUse() && x != y ::
        x.addr + HEADER + x.size <= y.addr || y.addr + HEADER + y.size <= x.addr
    {
      hide Valid, AllUsed, Holds, Fits, Shared, Vacant;
      held := [];
      ghost var others := InUse();
      var n := 0;
      NoneHeld();
      while n < |commands|
        invariant 0 <= n <= |commands| && Valid() && (old(AllUsed()) ==> AllUsed())
        invariant Holds(held, HeldAfter(commands[..n]), others)
        invariant forall x | x in others :: x in blocks && Stays(x)
        invariant forall x | x in blocks :: x in old(blocks) || fresh(x)
      {
        HeldNext(commands, n);
        label turn:
        if commands[n].Obtain? {
          var req := commands[n].req;
          var base := AnyRange(req);
          var b := Allocate(req, base);
          Obtained@turn(held, HeldAfter(commands[..n]), others, b);
          held := held + [b];
        } else {
          var k := commands[n].k;
          HeldBlock(held, HeldAfter(commands[..n]), others, k);
          if k < |held| {
            var r := Free(held[k]);
            Released@turn(held, HeldAfter(commands[..n]), others, k);
            held := held[..k] + held[k + 1..];
          }
        }
        n := n + 1;
      }
      assert commands[..n] == commands;
      AllDisjoint();
    }

    ghost function InUse(): set<Block>
      reads `blocks, blocks`isFree
    {
      set x | x in blocks && !x.isFree
    }

    lemma HeldBlock(held: seq<Block>, sizes: seq<int>, others: set<Block>, k: nat)
      requires Holds(held, sizes, others)
      ensures |held| == |sizes|
      ensures k < |held| ==> held[k] in blocks && !held[k].isFree && held[k] !in others
    {
    }

    lemma NoneHeld()
      ensures Holds([], [], InUse())
    {
    }

    lemma AllDisjoint()
      requires Valid()
      ensures forall x, y | x in InUse() && y in InUse() && x != y ::
        x.addr + HEADER + x.size <= y.addr || y.addr + HEADER + y.size <= x.addr
    {
      forall x, y | x in InUse() && y in InUse() && x != y
        ensures x.addr + HEADER + x.size <= y.addr || y.addr + HEADER + y.size <= x.addr
      {
        Disjoint(x, y);
      }
    }

    twostate lemma Obtained(held: seq<Block>, new sizes: seq<int>, new others: set<Block>, new b: Block)
      requires forall x | x in others :: x in old(blocks)
      requires old(Holds(held, sizes, others)) && b in blocks && !b.isFree && (b in old(blocks) ==> old(b.isFree))
      requires forall x | x in others :: x in old(blocks) && !old(x.isFree)
      requires forall x | x in old(blocks) && x != b :: x in blocks && Stays(x)
      requires forall x | x in blocks && x !in old(blocks) && x != b :: x.isFree
      ensures Holds(held + [b], sizes + [b.size], others)
    {
    }

    twostate lemma Released(held: seq<Block>, new sizes: seq<int>, new others: set<Block>, new k: nat)
      requires forall x | x in others :: x in old(blocks)
      requires old(Holds(held, sizes, others)) && k < |held|
      requires forall x | x in old(blocks) && !old(x.isFree) && x != held[k] :: x in blocks && Stays(x)
      requires forall x | x in blocks && !x.isFree :: x in old(blocks) && !old(x.isFree) && x != held[k]
      ensures Holds(held[..k] + held[k + 1..], sizes[..k] + sizes[k + 1..], others)
    {
    }

    lemma Neighbours(b: Block)
      requires Valid() && b in blocks
      ensures b.page in pages && (b == b.page.head ==> b.prev == null)
      ensures b.next != null ==>
        b.next in blocks && b.next.prev == b && b.next.page == b.page && b.offset < b.next.offset
    {
      At(b);
    }

    lemma Within(b: Block)
      requires Valid() && b in blocks
      ensures b.End() <= Limit(b)
    {
      At(b);
    }

    lemma Host(b: Block)
      requires Valid() && b in blocks
      ensures b.page in pages
    {
      At(b);
    }
  }

  // Two allocations from a new family: one behind the other, and a free block behind both.
  method TwoInUse(base: int) returns (family: Family, first: Block, second: Block)
    ensures fresh(family) && fresh(family.blocks) && family.Valid() && family.pageSize == 8192
    ensures !first.isFree && !second.isFree && first != second && first == first.page.head && first.next == second
    ensures second.next != null && second.next.isFree && second.next.size >= 100
    ensures family.blocks == {first, second, second.next} && first.page == second.page
  {
    hide Family.Valid;
    family := new Family(100, 8192);
    first := family.Allocate(100, base);
    family.Neighbours(first);
    second := family.Allocate(100, base);
    family.Neighbours(first);
    family.Neighbours(second);
  }

  // A third one: all three share a page.
  method ThreeInUse(base: int) returns (family: Family, first: Block, second: Block, third: Block)
    ensures fresh(family) && fresh(family.blocks) && family.Valid() && {first, second, third} <= family.blocks
    ensures !first.isFree && !second.isFree && !third.isFree && first != second && second != third && first != third
    ensures first.next == second && second.next == third && first.prev == null && second.prev == first
    ensures first.page == second.page == third.page
  {
    hide Family.Valid;
    family, first, second := TwoInUse(base);
    third := family.Allocate(100, base);
    family.Neighbours(first);
    family.Neighbours(second);
  }

  /** A gap is reached: of three blocks in use the first and then the second one is
      freed.  The first one then ends short of the third. */
  method ReachGap(base: int) returns (family: Family, r: Block?)
    ensures family.Valid() && r in family.blocks && r.isFree && r.End() < family.Limit(r)
  {
    hide Family.Valid;
    var first, second, third;
    family, first, second, third := ThreeInUse(base);
    assert family.Shared(first);
    r := family.Free(first);
    family.Neighbours(first);
    assert family.Shared(second);
    r := family.Free(second);
    family.Within(r);
  }

  // MAX_PAGE_ALLOCATABLE_MEMORY(1).
  function Max1(pageSize: int): int {
    pageSize - PAYLOAD
  }

  // The number of system pages requested for one allocation.
  function Units(req: nat, pageSize: int): nat
    requires PAYLOAD < pageSize
  {
    req / Max1(pageSize) + 1
  }

  /** One page more than the request fills: a request of an exact multiple of what one
      page holds takes one more than it needs to. */
  lemma UnitsExact(req: nat, pageSize: int)
    requires PAYLOAD < pageSize
    ensures (Units(req, pageSize) - 1) * Max1(pageSize) <= req < Units(req, pageSize) * Max1(pageSize)
  {
    var q, m := req / Max1(pageSize), Max1(pageSize);
    assert req == q * m + req % m;
    assert (q + 1) * m == q * m + m;
  }

  /** The pages requested always hold the request, so the split cannot fail. */
  lemma EnoughPages(req: nat, pageSize: int)
    requires PAYLOAD < pageSize
    ensures req <= Units(req, pageSize) * pageSize - PAYLOAD
  {
    var q, m := req / Max1(pageSize), Max1(pageSize);
    assert req == q * m + req % m;
    assert (q + 1) * pageSize == q * m + q * PAYLOAD + pageSize;
  }

  // The block size the code stores for a new page: cast to 32 bits.
  function StoredSize(units: nat, pageSize: int): int {
    (pageSize * units - PAYLOAD) % UINT32
  }

  /** With 32-bit sizes the split of a new page fails exactly when the memory of
      the page does not fit into 32 bits. */
  lemma EnoughPages32(req: nat, pageSize: int)
    requires 3 * PAYLOAD <= pageSize <= UINT32 / 2 && req < UINT32
    ensures req <= StoredSize(Units(req, pageSize), pageSize) <==> Units(req, pageSize) * pageSize - PAYLOAD < UINT32
  {
    EnoughPages(req, pageSize);
    var units := Units(req, pageSize);
    var total := pageSize * units - PAYLOAD;
    Overshoot(req, pageSize);
    assert total == units * pageSize - PAYLOAD;
    if total >= UINT32 {
      assert total % UINT32 == total - UINT32;
    }
  }

  /** With pages of 8192 bytes, two of the system's, the largest request of all fails. */
  lemma LargestRequestFails()
    ensures Units(UINT32 - 1, 8192) == 529459 && StoredSize(529459, 8192) == 42360752 < UINT32 - 1
  {
    Arith.Quotient(UINT32 - 1, 529458, 8112);
  }

  lemma Overshoot(req: nat, pageSize: int)
    requires 3 * PAYLOAD <= pageSize
    ensures pageSize * Units(req, pageSize) - PAYLOAD <= req + req / 2 + pageSize
  {
    var m := Max1(pageSize);
    var q := req / m;
    assert req == q * m + req % m;
    Arith.Distributes(q, m, PAYLOAD);
    Arith.Distributes(pageSize, q, 1);
    Arith.Monotone(q, 2 * PAYLOAD, m);
  }
}
