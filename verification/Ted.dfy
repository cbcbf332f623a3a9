/** The traffic-engineering topology database of ted/ted.c: routers with a fixed
    number of interface slots, and links whose two embedded interfaces are
    plugged into such slots.  An interface is a link and a side, 0 or 1. */
module Ted {
  import opened Common

  const SLOTS := 11  // TEDN_MAX_INTF_PER_NODE

  datatype RouterId = RouterId(bits: bv32)

  datatype Intf = Intf(link: Link, side: int)

  // One neighbour of a router: the local index, the neighbour and the index over there.
  datatype Entry = Entry(localIf: int, nbr: RouterId, remoteIf: int)

  class Router {
    const id: RouterId
    var fake: bool
    var intf: seq<Option<Intf>>

    constructor (id: RouterId, fake: bool)
      ensures this.id == id && this.fake == fake && |intf| == SLOTS && forall i | 0 <= i < SLOTS :: intf[i] == None
    {
      this.id, this.fake := id, fake;
      intf := seq(SLOTS, i => None);
    }
  }

  class Link {
    var att: seq<Router?>
    var slot: seq<int>
    var ifindex: seq<int>
    var dirn: bv32

    // ted_create_link.
    constructor (index0: int, index1: int)
      ensures att == [null, null] && slot == [0, 0] && ifindex == [index0, index1] && dirn == 0
    {
      att, slot, ifindex, dirn := [null, null], [0, 0], [index0, index1], 0;
    }
  }

  function Id(n: Router?): bv32 {
    if n == null then 0 else n.id.bits
  }

  function Xor(a: bv32, b: bv32): bv32 {
    a ^ b
  }

  lemma XorLaws(a: bv32, b: bv32)
    ensures Xor(Xor(a, b), b) == a && Xor(Xor(a, b), a) == b && Xor(a, 0) == a && Xor(0, a) == a &&
      Xor(a, b) == Xor(b, a)
    ensures a != b ==> Xor(a, b) != 0
  {
  }

  function Drop(m: map<RouterId, Router>, k: RouterId): (r: map<RouterId, Router>)
    ensures forall i :: i in r <==> i in m && i != k
    ensures forall i | i in r :: r[i] == m[i]
  {
    map i | i in m && i != k :: m[i]
  }

  // ---------- counting slots ----------

  function FreeIn(borne: seq<Option<int>>): nat {
    if borne == [] then 0 else (if borne[0] == None then 1 else 0) + FreeIn(borne[1..])
  }

  // The entries that need a slot of their own at the router `id`: those that name it with
  // an index not borne there.
  function Need(borne: seq<Option<int>>, id: RouterId, entries: seq<Entry>): nat {
    if entries == [] then 0
    else
      (if entries[0].nbr == id && Some(entries[0].remoteIf) !in borne then 1 else 0) + Need(borne, id, entries[1..])
  }

  function Slack(borne: seq<Option<int>>, id: RouterId, entries: seq<Entry>): int {
    FreeIn(borne) - Need(borne, id, entries)
  }

  // No two entries ask for the same interface of a neighbour.
  predicate Separate(entries: seq<Entry>) {
    forall i, j | 0 <= i < j < |entries| ::
      entries[i].nbr != entries[j].nbr || entries[i].remoteIf != entries[j].remoteIf
  }

  lemma {:induction false} FreeUpdated(b: seq<Option<int>>, k: int, v: Option<int>)
    requires 0 <= k < |b|
    ensures FreeIn(b[k := v]) == FreeIn(b) + (if v == None then 1 else 0) - (if b[k] == None then 1 else 0)
  {
    if k == 0 {
      assert b[k := v][1..] == b[1..];
    } else {
      assert b[k := v][1..] == b[1..][k - 1 := v];
      FreeUpdated(b[1..], k - 1, v);
    }
  }

  lemma {:induction false} FreeMeans(b: seq<Option<int>>)
    ensures FreeIn(b) > 0 <==> None in b
    ensures (forall i | 0 <= i < |b| :: b[i] == None) ==> FreeIn(b) == |b|
  {
    if b != [] {
      assert b == [b[0]] + b[1..];
      FreeMeans(b[1..]);
    }
  }

  lemma {:induction false} NeedSame(b: seq<Option<int>>, c: seq<Option<int>>, id: RouterId, entries: seq<Entry>)
    requires forall e | e in entries && e.nbr == id :: Some(e.remoteIf) in b <==> Some(e.remoteIf) in c
    ensures Need(b, id, entries) == Need(c, id, entries)
  {
    if entries != [] {
      assert entries[0] in entries;
      NeedSame(b, c, id, entries[1..]);
    }
  }

  lemma {:induction false} NeedMost(b: seq<Option<int>>, id: RouterId, entries: seq<Entry>)
    ensures Need(b, id, entries) <= |entries|
  {
    if entries != [] {
      NeedMost(b, id, entries[1..]);
    }
  }

  // An index that is borne no more makes at most one entry needy.
  lemma {:induction false} NeedAfterLoss(b: seq<Option<int>>, y: int, id: RouterId, entries: seq<Entry>)
    requires 0 <= y < |b| && Separate(entries)
    ensures Need(b[y := None], id, entries) <= Need(b, id, entries) + 1
  {
    if entries != [] {
      var e, rest, c := entries[0], entries[1..], b[y := None];
      assert forall x {:trigger Some(x) in c} :: b[y] != Some(x) ==> (Some(x) in b <==> Some(x) in c) by {
        forall x | b[y] != Some(x) && Some(x) in b ensures Some(x) in c {
          var i :| 0 <= i < |b| && b[i] == Some(x);
          assert c[i] == Some(x);
        }
      }
      if e.nbr == id && b[y] == Some(e.remoteIf) {
        forall f | f in rest && f.nbr == id ensures f.remoteIf != e.remoteIf {
          var j :| 0 <= j < |rest| && rest[j] == f;
          assert entries[0] == e && entries[j + 1] == f;
        }
        NeedSame(b, c, id, rest);
      } else {
        NeedAfterLoss(b, y, id, rest);
      }
    }
  }

  // One slot lost: nothing is missing that was not missing before.
  lemma SlackAfterLoss(b: seq<Option<int>>, y: int, id: RouterId, entries: seq<Entry>)
    requires 0 <= y < |b| && b[y].Some? && Separate(entries)
    ensures Slack(b[y := None], id, entries) >= Slack(b, id, entries)
  {
    FreeUpdated(b, y, None);
    NeedAfterLoss(b, y, id, entries);
  }

  lemma SeparateRest(entries: seq<Entry>)
    requires entries != [] && Separate(entries)
    ensures Separate(entries[1..])
  {
  }

  // The slot taken is the one the first entry needs.
  lemma SlackAfterTake(b: seq<Option<int>>, m: int, id: RouterId, entries: seq<Entry>)
    requires 0 <= m < |b| && b[m] == None && Separate(entries) && entries != []
    requires entries[0].nbr == id && Some(entries[0].remoteIf) !in b
    ensures Slack(b[m := Some(entries[0].remoteIf)], id, entries[1..]) == Slack(b, id, entries)
  {
    var e, rest, c := entries[0], entries[1..], b[m := Some(entries[0].remoteIf)];
    FreeUpdated(b, m, Some(e.remoteIf));
    forall f | f in rest && f.nbr == id ensures Some(f.remoteIf) in b <==> Some(f.remoteIf) in c {
      var j :| 0 <= j < |rest| && rest[j] == f;
      assert entries[0] == e && entries[j + 1] == f;
      if Some(f.remoteIf) in b {
        var i :| 0 <= i < |b| && b[i] == Some(f.remoteIf);
        assert c[i] == Some(f.remoteIf);
      }
    }
    NeedSame(b, c, id, rest);
  }

  // What an entry may not ask for: the router itself, or one interface twice.
  predicate Proper(id: RouterId, entries: seq<Entry>) {
    && (forall e | e in entries :: e.nbr != id && e.nbr.bits != 0)
    && (forall i, j | 0 <= i < j < |entries| :: entries[i].localIf != entries[j].localIf)
    && Separate(entries)
  }

  predicate AskedFor(nbr: RouterId, ifindex: int, entries: seq<Entry>) {
    exists e | e in entries :: e.nbr == nbr && e.remoteIf == ifindex
  }

  // Enough slots at the router itself, and at every other one.
  predicate Fits(entries: seq<Entry>, slack: map<RouterId, int>) {
    |entries| <= SLOTS && forall id | id in slack :: slack[id] >= 0
  }

  // ---------- a table of interfaces ----------

  datatype End = End(id: RouterId, ifindex: int)

  // For every router the indexes in use, each with the far end of its link.
  type Table = map<RouterId, map<int, Option<End>>>

  function Values(borne: seq<Option<int>>): (v: set<int>)
    ensures forall x :: x in v <==> Some(x) in borne
  {
    set i | 0 <= i < |borne| && borne[i].Some? :: borne[i].value
  }

  function PlaceOf(borne: seq<Option<int>>, x: int): (i: nat)
    requires Some(x) in borne
    ensures i < |borne| && borne[i] == Some(x)
  {
    if borne[0] == Some(x) then 0 else 1 + PlaceOf(borne[1..], x)
  }

  predicate Different(borne: seq<Option<int>>) {
    forall i, j | 0 <= i < j < |borne| :: borne[i] == None || borne[i] != borne[j]
  }

  lemma {:induction false} Taken(b: seq<Option<int>>)
    requires Different(b)
    ensures |Values(b)| == |b| - FreeIn(b)
  {
    if b != [] {
      Taken(b[1..]);
      if b[0].Some? {
        assert b[0].value !in Values(b[1..]);
        assert Values(b) == Values(b[1..]) + {b[0].value};
      } else {
        assert Values(b) == Values(b[1..]);
      }
    }
  }

  lemma ValuesAfterLoss(b: seq<Option<int>>, y: int)
    requires 0 <= y < |b| && b[y].Some? && Different(b)
    ensures Values(b[y := None]) == Values(b) - {b[y].value}
  {
    var c := b[y := None];
    forall x | Some(x) in b && x != b[y].value ensures Some(x) in c {
      var i :| 0 <= i < |b| && b[i] == Some(x);
      assert c[i] == Some(x);
    }
  }

  lemma ValuesAfterTake(b: seq<Option<int>>, m: int, x: int)
    requires 0 <= m < |b| && b[m] == None
    ensures Values(b[m := Some(x)]) == Values(b) + {x}
  {
    var c := b[m := Some(x)];
    assert c[m] == Some(x);
    forall z | Some(z) in b ensures Some(z) in c {
      var i :| 0 <= i < |b| && b[i] == Some(z);
      assert c[i] == Some(z);
    }
  }

  // An entry finds the interface it asks for, or a slot for a new one.
  predicate Accepts(t: Table, e: Entry) {
    e.nbr !in t || e.remoteIf in t[e.nbr] || |t[e.nbr]| < SLOTS
  }

  // The far end of the interface an entry asks for.
  function Asked(t: Table, e: Entry): Option<End> {
    if e.nbr in t && e.remoteIf in t[e.nbr] then t[e.nbr][e.remoteIf] else None
  }

  function Lose(t: Table, f: Option<End>): Table {
    if f.Some? && f.value.id in t then t[f.value.id := t[f.value.id] - {f.value.ifindex}] else t
  }

  // The interface asked for is linked to the new router from then on; the far end it had is gone.
  function Apply(t: Table, e: Entry): Table {
    var u := Lose(t, Asked(t, e));
    u[e.nbr := (if e.nbr in u then u[e.nbr] else map[])[e.remoteIf := None]]
  }

  // Row by row: only the neighbour gains an index, and only the far end loses one.
  lemma ApplyRow(t: Table, e: Entry, j: RouterId)
    requires Asked(t, e).Some? ==> Asked(t, e).value.id != e.nbr
    ensures j in Apply(t, e) <==> j in t || j == e.nbr
    ensures j == e.nbr ==> Apply(t, e)[j] == (if j in t then t[j] else map[])[e.remoteIf := None]
    ensures j != e.nbr && j in t && Asked(t, e).Some? && Asked(t, e).value.id == j ==>
      Apply(t, e)[j] == t[j] - {Asked(t, e).value.ifindex}
    ensures j != e.nbr && j in t && (Asked(t, e) == None || Asked(t, e).value.id != j) ==> Apply(t, e)[j] == t[j]
  {
  }

  // Every entry in turn is accepted.
  predicate Enough(t: Table, entries: seq<Entry>)
    decreases |entries|
  {
    entries == [] || (Accepts(t, entries[0]) && Enough(Apply(t, entries[0]), entries[1..]))
  }

  // ---------- as many numbers as slots ----------

  function Without(at: seq<int>, j: int): seq<int>
    requires 0 <= j < |at|
  {
    at[..j] + at[j + 1..]
  }

  lemma StillIn(at: seq<int>, j: int, x: int)
    requires 0 <= j < |at| && x in at && x != at[j]
    ensures x in Without(at, j)
  {
    var i :| 0 <= i < |at| && at[i] == x;
    assert Without(at, j)[if i < j then i else i - 1] == x;
  }

  lemma {:induction false} AllNumbers(at: seq<int>, n: nat)
    requires forall x | 0 <= x < n :: x in at
    ensures |at| >= n
  {
    if n > 0 {
      assert n - 1 in at;
      var j :| 0 <= j < |at| && at[j] == n - 1;
      forall x | 0 <= x < n - 1 ensures x in Without(at, j) {
        StillIn(at, j, x);
      }
      AllNumbers(Without(at, j), n - 1);
    }
  }

  lemma {:induction false} DistinctNumbers(at: seq<int>, n: nat)
    requires forall i | 0 <= i < |at| :: 0 <= at[i] < n
    requires forall i, j | 0 <= i < j < |at| :: at[i] != at[j]
    ensures |at| <= n
  {
    if at != [] {
      assert 0 <= at[0] < n;
      if n - 1 in at {
        var j :| 0 <= j < |at| && at[j] == n - 1;
        DistinctNumbers(Without(at, j), n - 1);
      } else {
        DistinctNumbers(at, n - 1);
      }
    }
  }

  lemma EveryNumber(at: seq<int>, n: nat, x: int)
    requires forall i | 0 <= i < |at| :: 0 <= at[i] < n
    requires forall i, j | 0 <= i < j < |at| :: at[i] != at[j]
    requires |at| == n && 0 <= x < n
    ensures x in at
  {
    if x !in at {
      DistinctNumbers(at + [x], n);
    }
  }

  class Database {
    var routers: map<RouterId, Router>
    ghost var members: set<Router>
    ghost var links: set<Link>
    // Links that may be attached nowhere while an operation is under way.
    ghost var loose: set<Link>

    ghost predicate Indexed()
      reads `routers, `members
    {
      && (forall id | id in routers :: routers[id] in members && routers[id].id == id)
      && (forall n | n in members :: n.id in routers && routers[n.id] == n && n.id.bits != 0)
    }

    // A plugged-in interface sits in the slot it names.
    ghost predicate EndOk(l: Link, s: int)
      reads `members, l`att, l`slot, members`intf
    {
      0 <= s < |l.att| && |l.att| == |l.slot| && (l.att[s] != null ==>
        l.att[s] in members && 0 <= l.slot[s] < |l.att[s].intf| && l.att[s].intf[l.slot[s]] == Some(Intf(l, s)))
    }

    // Both ends are right, and the direction flag is the XOR of the routers attached.
    ghost predicate LinkOk(l: Link)
      reads `members, l, members`intf
    {
      && |l.att| == |l.slot| == |l.ifindex| == 2 && EndOk(l, 0) && EndOk(l, 1)
      && l.dirn == Xor(Id(l.att[0]), Id(l.att[1]))
      && (l.att[0] != null ==> l.att[0] != l.att[1])
    }

    // The interface in a slot names that slot.
    ghost predicate SlotOk(n: Router, i: int)
      reads `links, n`intf, links`att, links`slot
    {
      0 <= i < |n.intf| && n.intf[i].Some? ==>
        var f := n.intf[i].value;
        f.link in links && 0 <= f.side < 2 && |f.link.att| == 2 && |f.link.slot| == 2 && f.link.att[f.side] == n &&
          f.link.slot[f.side] == i
    }

    // A link is kept while one of its ends is attached.
    ghost predicate Attached(l: Link)
      reads l`att
    {
      |l.att| == 2 && (l.att[0] != null || l.att[1] != null)
    }

    ghost predicate Graph()
      reads `routers, `members, `links, `loose, members`intf, links
    {
      && Indexed()
      && (forall n | n in members :: |n.intf| == SLOTS)
      && (forall l {:trigger LinkOk(l)} | l in links :: LinkOk(l))
      && (forall n, i {:trigger SlotOk(n, i)} | n in members && 0 <= i < SLOTS :: SlotOk(n, i))
      && (forall l {:trigger Attached(l)} | l in links && l !in loose :: Attached(l))
    }

    ghost predicate Valid()
      reads `routers, `members, `links, `loose, members`intf, links
    {
      Graph() && loose == {}
    }

    constructor ()
      ensures Valid() && routers == map[] && links == {} && members == {}
    {
      routers, members, links, loose := map[], {}, {}, {};
    }

    // ---------- interfaces ----------

    /** ted_is_interface_plugged_in. */
    method IsPluggedIn(l: Link, s: int) returns (yes: bool)
      requires Graph() && l in links && 0 <= s < 2
      ensures |l.att| == 2 && yes == (l.att[s] != null)
    {
      hide Graph, Xor;
      DistinctIds(l);
      XorLaws(Id(l.att[0]), Id(l.att[1]));
      yes := l.att[s] != null && l.att[s].intf[l.slot[s]] == Some(Intf(l, s)) && l.dirn != 0;
    }

    lemma DistinctIds(l: Link)
      requires Graph() && l in links
      ensures LinkOk(l)
      ensures l.att[0] != null ==> l.att[0].id.bits != 0 && l.att[0].id.bits != Id(l.att[1])
      ensures l.att[1] != null ==> l.att[1].id.bits != 0 && l.att[1].id.bits != Id(l.att[0])
    {
      assert LinkOk(l);
    }

    /** ted_link_is_bidirectional. */
    method IsBidirectional(l: Link) returns (yes: bool)
      requires Valid() && l in links
      ensures |l.att| == 2
      ensures yes <==> l.att[0] != null && l.att[1] != null
    {
      assert LinkOk(l);
      if l.att[0] == null || l.att[1] == null {
        return false;
      }
      yes := Xor(l.att[0].id.bits, l.att[1].id.bits) == l.dirn;
    }

    /** ted_node_get_empty_slot. */
    method EmptySlot(n: Router) returns (slot: int)
      requires |n.intf| == SLOTS
      ensures -1 <= slot < SLOTS && (slot >= 0 ==> n.intf[slot] == None)
      ensures slot == -1 <==> forall i | 0 <= i < SLOTS :: n.intf[i].Some?
    {
      var i := 0;
      while i < SLOTS
        invariant 0 <= i <= SLOTS && forall j | 0 <= j < i :: n.intf[j].Some?
      {
        if n.intf[i].None? {
          return i;
        }
        i := i + 1;
      }
      return -1;
    }

    lemma At(l: Link)
      requires Graph() && l in links
      ensures LinkOk(l) && (l !in loose ==> Attached(l))
    {
    }

    lemma AtSlot(n: Router, i: int)
      requires Graph() && n in members && 0 <= i < SLOTS
      ensures |n.intf| == SLOTS && SlotOk(n, i)
    {
    }

    twostate lemma WasLink(l: Link)
      requires old(Graph()) && l in old(links)
      ensures old(LinkOk(l)) && (l !in old(loose) ==> old(Attached(l)))
    {
      assert old(LinkOk(l));
    }

    twostate lemma WasSlot(n: Router, new i: int)
      requires old(Graph()) && n in old(members) && 0 <= i < SLOTS
      ensures old(|n.intf|) == SLOTS && old(SlotOk(n, i))
    {
      assert old(SlotOk(n, i));
    }

    // Only the interface at side `s` of `l` and slot `k` of `n` have changed.
    twostate predicate Local(n: Router, l: Link, new s: int, new k: int)
      reads this, members, links
    {
      && routers == old(routers) && members == old(members) && links == old(links) && n in old(members) &&
        l in old(links)
      && 0 <= k < SLOTS && 0 <= s < 2 && old(|l.att|) == old(|l.slot|) == 2 && old(|n.intf|) == SLOTS
      && |n.intf| == SLOTS && |l.att| == 2 && |l.slot| == 2
      && (forall r {:trigger r.intf} | r in members && r != n :: r.intf == old(r.intf))
      && n.intf == old(n.intf)[k := n.intf[k]]
      && (forall x {:trigger x.att} {:trigger x.slot} {:trigger x.dirn} | x in links && x != l ::
        x.att == old(x.att) && x.slot == old(x.slot) && x.dirn == old(x.dirn))
      && (forall x {:trigger x.ifindex} | x in links :: x.ifindex == old(x.ifindex))
      && l.att == old(l.att)[s := l.att[s]] && l.slot == old(l.slot)[s := l.slot[s]]
      && l.dirn == Xor(old(l.dirn), n.id.bits)
    }

    // No slot of the router is free.
    static ghost predicate Full(n: Router)
      reads n`intf
    {
      forall i | 0 <= i < |n.intf| :: n.intf[i].Some?
    }

    /** ted_plug_in_interface; -1 stands for the failed assertion that a slot is free. */
    method PlugIn(n: Router, l: Link, s: int) returns (slot: int)
      requires Graph() && n in members && l in links && 0 <= s < 2 && |l.att| == 2 && l.att[s] == null &&
        l.att[1 - s] != n
      modifies `loose, n`intf, l`att, l`slot, l`dirn
      ensures -1 <= slot < SLOTS
      ensures slot == -1 ==> unchanged(n, l, this) && Full(n)
      ensures slot >= 0 ==> Graph() && Plugged(n, l, s, slot)
    {
      hide Graph, EndOk;
      At(l);
      AtSlot(n, 0);
      slot := EmptySlot(n);
      if slot < 0 {
        return;
      }
      l.att := l.att[s := n];
      n.intf := n.intf[slot := Some(Intf(l, s))];
      l.slot := l.slot[s := slot];
      l.dirn := Xor(l.dirn, l.att[s].id.bits);
      loose := loose - {l};
      PluggedIn(n, l, s, slot);
    }

    twostate predicate Plugged(n: Router, l: Link, new s: int, new k: int)
      reads this, members, links
    {
      && Local(n, l, s, k) && loose == old(loose) - {l}
      && old(n.intf)[k] == None && n.intf[k] == Some(Intf(l, s)) && old(l.att)[s] == null && old(l.att)[1 - s] != n
      && l.att[s] == n && l.slot[s] == k
    }

    lemma Pushed(n: Router, l: Link, s: int, k: int)
      requires n in members && 0 <= s < |l.att| && |l.att| == |l.slot| && l.att[s] == n && l.slot[s] == k
      requires 0 <= k < |n.intf| && n.intf[k] == Some(Intf(l, s))
      ensures EndOk(l, s)
    {
    }

    lemma Pulled(l: Link, s: int)
      requires 0 <= s < |l.att| && |l.att| == |l.slot| && l.att[s] == null
      ensures EndOk(l, s)
    {
    }

    // Another interface is not disturbed.
    twostate lemma EndStays(x: Link, new t: int, new n: Router, new l: Link, new s: int, new k: int)
      requires old(Graph()) && n in old(members) && l in old(links) && Local(n, l, s, k) && x in links && 0 <= t < 2
      requires old(n.intf)[k] == None || old(n.intf)[k] == Some(Intf(l, s))
      requires x != l || t != s
      ensures EndOk(x, t) && |x.att| == 2 && x.att[t] == old(x.att)[t]
    {
      hide Graph;
      WasLink(x);
    }

    twostate lemma PluggedLink(x: Link, new n: Router, new l: Link, new s: int, new k: int)
      requires old(Graph()) && n in old(members) && l in old(links) && Plugged(n, l, s, k) && x in links
      ensures LinkOk(x) && (x !in loose ==> Attached(x))
    {
      hide Graph, Xor, EndOk;
      WasLink(x);
      XorLaws(Id(old(l.att)[1 - s]), n.id.bits);
      if x != l || s != 0 { EndStays(x, 0, n, l, s, k); }
      if x != l || s != 1 { EndStays(x, 1, n, l, s, k); }
      Pushed(n, l, s, k);
    }

    twostate lemma PluggedSlot(r: Router, new i: int, new n: Router, new l: Link, new s: int, new k: int)
      requires old(Graph()) && n in old(members) && l in old(links) && Plugged(n, l, s, k) && r in members &&
        0 <= i < SLOTS
      ensures SlotOk(r, i)
    {
      hide Graph;
      WasSlot(r, i);
    }

    twostate lemma PluggedIn(n: Router, new l: Link, new s: int, new k: int)
      requires old(Graph()) && n in old(members) && l in old(links) && Plugged(n, l, s, k)
      ensures Graph()
    {
      hide Graph, LinkOk, SlotOk, Attached;
      forall x | x in links ensures LinkOk(x) && (x !in loose ==> Attached(x)) {
        PluggedLink(x, n, l, s, k);
      }
      forall r, i | r in members && 0 <= i < SLOTS ensures SlotOk(r, i) {
        PluggedSlot(r, i, n, l, s, k);
      }
      Sizes();
      Whole();
    }

    twostate lemma Sizes()
      requires old(Graph()) && routers == old(routers) && members == old(members)
      ensures Indexed() && forall r | r in members :: old(|r.intf|) == SLOTS
    {
    }

    lemma Whole()
      requires Indexed()
      requires forall n | n in members :: |n.intf| == SLOTS
      requires forall l {:trigger LinkOk(l)} | l in links :: LinkOk(l)
      requires forall n, i {:trigger SlotOk(n, i)} | n in members && 0 <= i < SLOTS :: SlotOk(n, i)
      requires forall l {:trigger Attached(l)} | l in links && l !in loose :: Attached(l)
      ensures Graph()
    {
    }

    twostate predicate Unplugged(n: Router, l: Link, new s: int, new k: int)
      reads this, members, links
    {
      && Local(n, l, s, k) && loose == old(loose) + {l}
      && old(l.att)[s] == n && old(l.slot)[s] == k && old(n.intf)[k] == Some(Intf(l, s))
      && n.intf[k] == None && l.att[s] == null
    }

    twostate lemma UnpluggedLink(x: Link, new n: Router, new l: Link, new s: int, new k: int)
      requires old(Graph()) && n in old(members) && l in old(links) && Unplugged(n, l, s, k) && x in links
      ensures LinkOk(x) && (x !in loose ==> Attached(x))
    {
      hide Graph, Xor, EndOk;
      WasLink(x);
      XorLaws(Id(old(l.att)[1 - s]), n.id.bits);
      XorLaws(Id(old(l.att)[1 - s]), 0);
      XorLaws(n.id.bits, Id(old(l.att)[1 - s]));
      if x != l || s != 0 { EndStays(x, 0, n, l, s, k); }
      if x != l || s != 1 { EndStays(x, 1, n, l, s, k); }
      Pulled(l, s);
    }

    twostate lemma UnpluggedSlot(r: Router, new i: int, new n: Router, new l: Link, new s: int, new k: int)
      requires old(Graph()) && n in old(members) && l in old(links) && Unplugged(n, l, s, k) && r in members &&
        0 <= i < SLOTS
      ensures SlotOk(r, i)
    {
      hide Graph;
      WasSlot(r, i);
      WasLink(l);
    }

    twostate lemma UnpluggedOut(n: Router, new l: Link, new s: int, new k: int)
      requires old(Graph()) && n in old(members) && l in old(links) && Unplugged(n, l, s, k)
      ensures Graph()
    {
      hide Graph, LinkOk, SlotOk, Attached;
      forall x | x in links ensures LinkOk(x) && (x !in loose ==> Attached(x)) {
        UnpluggedLink(x, n, l, s, k);
      }
      forall r, i | r in members && 0 <= i < SLOTS ensures SlotOk(r, i) {
        UnpluggedSlot(r, i, n, l, s, k);
      }
      Sizes();
      Whole();
    }

    lemma Where(l: Link, s: int) returns (n: Router, k: int)
      requires Graph() && l in links && 0 <= s < 2 && |l.att| == 2 && l.att[s] != null
      ensures LinkOk(l) && n == l.att[s] && k == l.slot[s] && n in members && |n.intf| == SLOTS && 0 <= k < SLOTS &&
        n.intf[k] == Some(Intf(l, s))
    {
      At(l);
      n, k := l.att[s], l.slot[s];
    }

    /** ted_plug_out_interface. */
    method PlugOut(l: Link, s: int, ghost n: Router, ghost k: int)
      requires Graph() && l in links && 0 <= s < 2 && |l.att| == |l.slot| == 2 && l.att[s] == n && l.slot[s] == k
      requires n in members && |n.intf| == SLOTS && 0 <= k < SLOTS && n.intf[k] == Some(Intf(l, s))
      modifies `loose, n`intf, l`att, l`slot, l`dirn
      ensures Graph() && Unplugged(n, l, s, k)
    {
      hide Graph, EndOk;
      At(l);
      var slot := l.slot[s];
      l.dirn := Xor(l.dirn, l.att[s].id.bits);
      l.att[s].intf := l.att[s].intf[slot := None];
      l.att := l.att[s := null];
      l.slot := l.slot[s := 0];
      loose := loose + {l};
      UnpluggedOut(n, l, s, k);
    }

    // ted_is_link_dettached and XFREE.
    method FreeIfDetached(l: Link)
      requires Graph() && l in links
      modifies `links, `loose
      ensures Graph() && |l.att| == 2 && loose == old(loose) - {l}
      ensures links == if Attached(l) then old(links) else old(links) - {l}
    {
      hide Graph, LinkOk;
      At(l);
      Sides(l);
      var first := IsPluggedIn(l, 0);
      var second := IsPluggedIn(l, 1);
      loose := loose - {l};
      if !first && !second {
        links := links - {l};
        Freed(l);
      } else {
        Settled(l);
      }
    }

    lemma Sides(l: Link)
      requires LinkOk(l)
      ensures |l.att| == |l.slot| == |l.ifindex| == 2
    {
    }

    twostate lemma Freed(l: Link)
      requires old(Graph()) && l in old(links) && !Attached(l) && links == old(links) - {l} && loose == old(loose) - {l}
      requires routers == old(routers) && members == old(members) && unchanged(members) && unchanged(old(links))
      ensures Graph()
    {
      hide Graph, LinkOk;
      WasLink(l);
      forall x | x in links ensures LinkOk(x) && (x !in loose ==> Attached(x)) {
        WasLink(x);
      }
      forall r, i | r in members && 0 <= i < SLOTS ensures SlotOk(r, i) {
        WasSlot(r, i);
        if old(r.intf)[i].Some? && old(r.intf)[i].value.link == l { Ends(l, old(r.intf)[i].value.side); }
      }
      Sizes();
      Whole();
    }

    lemma Ends(l: Link, s: int)
      requires !Attached(l) && |l.att| == 2 && 0 <= s < 2
      ensures l.att[s] == null
    {
    }

    twostate lemma Settled(l: Link)
      requires old(Graph()) && l in old(links) && Attached(l) && links == old(links) && loose == old(loose) - {l}
      requires routers == old(routers) && members == old(members) && unchanged(members) && unchanged(old(links))
      ensures Graph()
    {
    }

    // What unplugging the first `i` slots of `n` does to a link attached as `att`, `slot` says.
    static ghost predicate Cut(x: Link, n: Router, i: int, att: seq<Router?>, slot: seq<int>)
      reads x
    {
      && |x.att| == |x.slot| == |att| == |slot| == 2
      && forall s | 0 <= s < 2 ::
        && x.att[s] == (if att[s] == n && slot[s] < i then null else att[s])
        && (x.att[s] != null ==> x.slot[s] == slot[s])
    }

    // The step over slot `i`: only the interface in it loses its router.
    twostate predicate CutAt(x: Link, new n: Router, new i: int)
      reads x
    {
      && old(|x.att|) == old(|x.slot|) == |x.att| == |x.slot| == 2
      && forall s | 0 <= s < 2 ::
        && x.att[s] == (if old(x.att)[s] == n && old(x.slot)[s] == i then null else old(x.att)[s])
        && (x.att[s] != null ==> x.slot[s] == old(x.slot)[s])
    }

    twostate lemma CutNext(x: Link, new n: Router, new i: int)
      requires old(Graph()) && n in old(members) && 0 <= i < SLOTS && old(|n.intf|) == SLOTS
      requires old(|x.att|) == old(|x.slot|) == 2 && (x in old(links) || !old(Attached(x)))
      requires old(n.intf)[i] == None ==> x.att == old(x.att) && x.slot == old(x.slot)
      requires old(n.intf)[i].Some? && old(n.intf)[i].value.link != x ==> x.att == old(x.att) && x.slot == old(x.slot)
      requires old(n.intf)[i].Some? && old(n.intf)[i].value.link == x ==>
        var s := old(n.intf)[i].value.side;
        0 <= s < 2 && x.att == old(x.att)[s := null] && |x.slot| == 2 &&
        x.slot[1 - s] == old(x.slot)[1 - s]
      ensures CutAt(x, n, i)
    {
      hide Graph;
      if x in old(links) { WasLink(x); }
      WasSlot(n, i);
    }

    // One slot is emptied, and its link released if that was its last end.
    method Pull(n: Router, i: int)
      requires Graph() && loose == {} && n in members && 0 <= i < SLOTS && |n.intf| == SLOTS
      modifies `links, `loose, n`intf, links`att, links`slot, links`dirn
      ensures Graph() && loose == {} && links <= old(links) && n.intf == old(n.intf)[i := None]
      ensures old(n.intf)[i] == None ==> links == old(links) && unchanged(old(links))
      ensures old(n.intf)[i].Some? ==>
        var l, s := old(n.intf)[i].value.link, old(n.intf)[i].value.side;
        l in old(links) && 0 <= s < 2 && old(|l.att|) == old(|l.slot|) == |l.slot| == 2 &&
        l.att == old(l.att)[s := null] && l.slot[1 - s] == old(l.slot)[1 - s] &&
        (forall x {:trigger x.att} {:trigger x.slot} | x in old(links) && x != l ::
          x.att == old(x.att) && x.slot == old(x.slot)) &&
        links == if Attached(l) then old(links) else old(links) - {l}
    {
      hide Graph, LinkOk, SlotOk, EndOk, Xor, Attached;
      if n.intf[i].Some? {
        var l, s := n.intf[i].value.link, n.intf[i].value.side;
        Plug(n, i);
        PlugOut(l, s, n, i);
        FreeIfDetached(l);
      }
    }

    /** ted_unplug_all_interfaces: afterwards no interface is attached to `n`, and
        exactly the links with an end elsewhere are left. */
    method UnplugAll(n: Router)
      requires Valid() && n in members
      modifies `links, `loose, n`intf, links`att, links`slot, links`dirn
      ensures Valid() && links <= old(links)
      ensures |n.intf| == SLOTS && forall i | 0 <= i < SLOTS :: n.intf[i] == None
      ensures forall x {:trigger x.att} | x in old(links) :: Cut(x, n, SLOTS, old(x.att), old(x.slot))
      ensures forall x | x in old(links) :: x in links <==> Attached(x)
    {
      hide Graph, LinkOk, SlotOk, Attached, EndOk, Xor, Indexed;
      Begin(n);
      forall x | x in links ensures Cut(x, n, 0, x.att, x.slot) && Attached(x) {
        Uncut(x, n);
      }
      var i := 0;
      while i < SLOTS
        invariant 0 <= i <= SLOTS && Graph() && loose == {} && links <= old(links) && n in members
        invariant |n.intf| == SLOTS && (forall j | 0 <= j < i :: n.intf[j] == None)
        invariant forall x {:trigger x.att} | x in old(links) :: Cut(x, n, i, old(x.att), old(x.slot))
        invariant forall x | x in old(links) :: x in links <==> Attached(x)
      {
        label pulling:
        Pull(n, i);
        forall x | x in old(links) ensures Cut(x, n, i + 1, old(x.att), old(x.slot)) {
          var att, slot := old(x.att), old(x.slot);
          assert old@pulling(Cut(x, n, i, att, slot));
          CutNext@pulling(x, n, i);
        }
        i := i + 1;
      }
    }

    lemma Begin(n: Router)
      requires Graph() && n in members
      ensures |n.intf| == SLOTS && forall l | l in links && l !in loose :: Attached(l)
      ensures forall r {:trigger r.intf} | r in members :: |r.intf| == SLOTS
    {
    }

    lemma Uncut(x: Link, n: Router)
      requires Graph() && x in links
      ensures forall s | 0 <= s < 2 :: |x.att| == |x.slot| == 2 && (x.att[s] == n ==> 0 <= x.slot[s])
      ensures Cut(x, n, 0, x.att, x.slot)
    {
      At(x);
    }

    lemma Plug(n: Router, i: int)
      requires Graph() && n in members && 0 <= i < SLOTS && |n.intf| == SLOTS && n.intf[i].Some?
      ensures var l, s := n.intf[i].value.link, n.intf[i].value.side;
        l in links && 0 <= s < 2 && |l.att| == |l.slot| == 2 && l.att[s] == n && l.slot[s] == i && l.att[1 - s] != n
    {
      AtSlot(n, i);
      At(n.intf[i].value.link);
    }

    // ---------- routers ----------

    // A router without interfaces can be taken out.
    twostate lemma TakenOut(n: Router)
      requires old(Graph()) && n in old(members) && old(|n.intf|) == SLOTS && forall i | 0 <= i < SLOTS ::
        old(n.intf)[i] == None
      requires members == old(members) - {n} && routers == Drop(old(routers), n.id) && links == old(links) &&
        loose == old(loose)
      requires unchanged(old(members)) && unchanged(links)
      ensures Graph()
    {
      hide Graph;
      forall x | x in links ensures LinkOk(x) && (x !in loose ==> Attached(x)) {
        WasLink(x);
      }
      forall r, i | r in members && 0 <= i < SLOTS ensures SlotOk(r, i) {
        WasSlot(r, i);
      }
      WasIndexed();
      forall id | id in routers ensures routers[id] in members && routers[id].id == id {
        assert old(routers)[id] in old(members) && old(routers)[id].id == id && routers[id] == old(routers)[id];
      }
      Whole();
    }

    twostate lemma WasIndexed()
      requires old(Graph())
      ensures old(Indexed()) && forall r | r in old(members) :: old(|r.intf|) == SLOTS
    {
    }

    /** ted_delete_node: only the links that had an end at the router are touched. */
    method Delete(id: RouterId)
      requires Valid()
      modifies this, members`intf, links`att, links`slot, links`dirn
      ensures Valid() && routers == Drop(old(routers), id) && members <= old(members) && links <= old(links)
      ensures forall r | r in members :: r.intf == old(r.intf)
      ensures id !in old(routers) ==> unchanged(this) && unchanged(old(members)) && unchanged(old(links))
      ensures id in old(routers) ==>
        forall x {:trigger x.att} | x in old(links) :: Cut(x, old(routers[id]), SLOTS, old(x.att), old(x.slot))
      ensures id in old(routers) ==> forall x | x in old(links) :: x in links <==> Attached(x)
    {
      hide Graph, LinkOk, SlotOk, Attached, Cut;
      if id !in routers {
        assert routers == Drop(routers, id);
        return;
      }
      var n := routers[id];
      Found(id);
      UnplugAll(n);
      label unplugged:
      routers := Drop(routers, id);
      members := members - {n};
      TakenOut@unplugged(n);
      forall x | x in old(links) ensures Cut(x, n, SLOTS, old(x.att), old(x.slot)) {
        assert x.att == old@unplugged(x.att);
      }
    }

    lemma Found(id: RouterId)
      requires Graph() && id in routers
      ensures routers[id] in members && routers[id].id == id && id.bits != 0
    {
      assert routers[id] in members;
    }

    // Slot `i` of `n` holds an interface with the index.
    ghost predicate Bears(n: Router, i: int, ifindex: int)
      reads `links, n`intf, links`ifindex
    {
      0 <= i < |n.intf| && n.intf[i].Some? && n.intf[i].value.link in links &&
      var f := n.intf[i].value; 0 <= f.side < |f.link.ifindex| && f.link.ifindex[f.side] == ifindex
    }

    /** ted_node_lookup_intf. */
    method LookupIntf(n: Router, ifindex: int) returns (found: Option<Intf>)
      requires Graph() && n in members
      ensures |n.intf| == SLOTS && (found == None <==> forall i | 0 <= i < SLOTS :: !Bears(n, i, ifindex))
      ensures found.Some? ==> exists i :: Bears(n, i, ifindex) && n.intf[i] == found
    {
      Begin(n);
      var i := 0;
      while i < SLOTS
        invariant 0 <= i <= SLOTS && forall j | 0 <= j < i :: !Bears(n, j, ifindex)
      {
        if n.intf[i].Some? {
          Plug(n, i);
          At(n.intf[i].value.link);
          if n.intf[i].value.link.ifindex[n.intf[i].value.side] == ifindex {
            assert Bears(n, i, ifindex);
            return n.intf[i];
          }
        }
        i := i + 1;
      }
      return None;
    }

    // ted_lookup_node, and ted_create_node with ted_insert_node_in_teddb if there is none.
    method Obtain(id: RouterId, fake: bool) returns (n: Router, created: bool)
      requires Valid() && id.bits != 0
      modifies `routers, `members
      ensures Valid() && n in members && n.id == id && routers == old(routers)[id := n] && members == old(members) + {n}
      ensures if id in old(routers) then !created && n == old(routers)[id] && routers == old(routers)
        else created && fresh(n) && n.fake == fake && |n.intf| == SLOTS && forall i | 0 <= i < SLOTS ::
          n.intf[i] == None
    {
      hide Graph, LinkOk, SlotOk;
      if id in routers {
        n, created := routers[id], false;
        Found(id);
        return;
      }
      n := new Router(id, fake);
      created := true;
      routers := routers[id := n];
      members := members + {n};
      Added(n);
    }

    twostate lemma Added(new n: Router)
      requires old(Graph()) && n !in old(members) && n.id !in old(routers) && n.id.bits != 0
      requires |n.intf| == SLOTS && forall i | 0 <= i < SLOTS :: n.intf[i] == None
      requires routers == old(routers)[n.id := n] && members == old(members) + {n} && links == old(links) &&
        loose == old(loose)
      requires unchanged(old(members)) && unchanged(links)
      ensures Graph()
    {
      hide Graph;
      forall x | x in links ensures LinkOk(x) && (x !in loose ==> Attached(x)) {
        WasLink(x);
      }
      forall r, i | r in members && 0 <= i < SLOTS ensures SlotOk(r, i) {
        if r != n { WasSlot(r, i); }
      }
      WasIndexed();
      Whole();
    }

    // ---------- links between routers ----------

    // Slot `i` of `r` after interface (l, s) has moved to slot `k` of `from`.
    twostate predicate Moved(r: Router, new i: int, from: Router, new k: int, new l: Link, new s: int)
      reads r
    {
      0 <= i < |r.intf| && |r.intf| == old(|r.intf|) &&
      r.intf[i] == if r == from && i == k then Some(Intf(l, s)) else if old(r.intf)[i] == Some(Intf(l, s)) then None
        else old(r.intf)[i]
    }

    lemma Sole(r: Router, i: int, l: Link, s: int)
      requires Graph() && r in members && 0 <= i < SLOTS && l in links && 0 <= s < 2
      ensures |r.intf| == SLOTS && |l.att| == |l.slot| == 2
      ensures r.intf[i] == Some(Intf(l, s)) ==> r == l.att[s] && i == l.slot[s]
    {
      AtSlot(r, i);
      At(l);
    }

    twostate lemma Reindexed(l: Link)
      requires old(Graph()) && l in links && |l.ifindex| == 2 && l.att == old(l.att) && l.slot == old(l.slot) &&
        l.dirn == old(l.dirn)
      requires links == old(links) && loose == old(loose) && routers == old(routers) && members == old(members) &&
        unchanged(members)
      requires forall x {:trigger x.ifindex} | x in links && x != l ::
        x.att == old(x.att) && x.slot == old(x.slot) && x.dirn == old(x.dirn) && x.ifindex == old(x.ifindex)
      ensures Graph()
    {
      hide Graph, EndOk, Xor;
      forall x | x in links ensures LinkOk(x) && (x !in loose ==> Attached(x)) {
        WasLink(x);
        assert x != l ==> x.ifindex == old(x.ifindex);
      }
      forall r, i | r in members && 0 <= i < SLOTS ensures SlotOk(r, i) {
        WasSlot(r, i);
        if r.intf[i].Some? && r.intf[i].value.link != l {
          assert r.intf[i].value.link.ifindex == old(r.intf[i].value.link.ifindex);
        }
      }
      Sizes();
      Whole();
    }

    /** The interface (l, s), plugged in elsewhere or not at all, is plugged into
        `from` under a new index; the other end of the link keeps its router. */
    method Reattach(from: Router, ifindex: int, l: Link, s: int) returns (slot: int)
      requires Valid() && from in members && l in links && 0 <= s < 2 && |l.att| == 2 && l.att[1 - s] != null &&
        l.att[1 - s] != from
      modifies `loose, members`intf, l
      ensures Graph() && -1 <= slot < SLOTS && (slot < 0 ==> Full(from))
      ensures slot < 0 <==> old(Full(from)) && old(l.att)[s] != from
      ensures slot >= 0 ==>
        Valid() && |l.att| == |l.ifindex| == old(|l.ifindex|) == 2 && l.att == old(l.att)[s := from] &&
        l.ifindex == old(l.ifindex)[s := ifindex]
      ensures |from.intf| == old(|from.intf|) == SLOTS
      ensures slot >= 0 ==> (old(from.intf)[slot] == None || old(from.intf)[slot] == Some(Intf(l, s)))
      ensures slot >= 0 ==>
        forall r, i {:trigger Moved(r, i, from, slot, l, s)} | r in members && 0 <= i < SLOTS ::
        Moved(r, i, from, slot, l, s)
      ensures slot >= 0 ==> forall r {:trigger Vacated(r, l, s)} | r in members && r != from :: Vacated(r, l, s)
    {
      hide Graph, EndOk, Attached, SlotOk;
      At(l);
      Begin(from);
      forall r, i | r in members && 0 <= i < SLOTS
        ensures |r.intf| == SLOTS && (r.intf[i] == Some(Intf(l, s)) ==> r == l.att[s] && i == l.slot[s])
      {
        Sole(r, i, l, s);
      }
      var plugged := IsPluggedIn(l, s);
      ghost var k := -1;
      if plugged {
        ghost var n;
        n, k := Where(l, s);
        PlugOut(l, s, n, k);
      }
      label renaming:
      l.ifindex := l.ifindex[s := ifindex];
      Reindexed@renaming(l);
      label plugging:
      slot := PlugIn(from, l, s);
      forall r, i | slot >= 0 && r in members && 0 <= i < SLOTS ensures Moved(r, i, from, slot, l, s) {
        assert old(|r.intf|) == SLOTS;
        assert old@renaming(r.intf) == old@plugging(r.intf);
        assert r != from ==> r.intf == old@plugging(r.intf);
      }
      forall r | slot >= 0 && r in members && r != from ensures Vacated(r, l, s) {
        assert old@renaming(r.intf) == old@plugging(r.intf) == r.intf;
        if r == old(l.att)[s] { assert old(l.slot)[s] == k; }
      }
    }

    // A router other than the one that takes interface (l, s) has lost it, or is as before.
    twostate predicate Vacated(r: Router, new l: Link, new s: int)
      requires l in old(links)
      reads this, r
    {
      old(|l.att|) == old(|l.slot|) == 2 && 0 <= s < 2 && old(|r.intf|) == SLOTS &&
      if r == old(l.att)[s]
      then
        0 <= old(l.slot)[s] < SLOTS && old(r.intf)[old(l.slot)[s]] == Some(Intf(l, s)) &&
        r.intf == old(r.intf)[old(l.slot)[s] := None]
      else r.intf == old(r.intf)
    }

    twostate lemma NewLink(new l: Link)
      requires old(Graph()) && l !in old(links) && links == old(links) + {l} && loose == old(loose) + {l}
      requires routers == old(routers) && members == old(members) && unchanged(members) && unchanged(old(links))
      requires l.att == [null, null] && l.slot == [0, 0] && |l.ifindex| == 2 && l.dirn == 0
      ensures Graph()
    {
      hide Graph, Xor;
      XorLaws(0, 0);
      forall x | x in links ensures LinkOk(x) && (x !in loose ==> Attached(x)) {
        if x != l { WasLink(x); }
      }
      forall r, i | r in members && 0 <= i < SLOTS ensures SlotOk(r, i) {
        WasSlot(r, i);
      }
      Sizes();
      Whole();
    }

    // ted_create_link and both ends plugged in.
    method Join(from: Router, fromIf: int, to: Router, toIf: int) returns (l: Link?, ghost k: int, ghost m: int)
      requires Valid() && from in members && to in members && from != to
      modifies `links, `loose, from`intf, to`intf
      ensures forall x | x in links :: x in old(links) || fresh(x)
      ensures |from.intf| == |to.intf| == old(|from.intf|) == old(|to.intf|) == SLOTS
      ensures l == null ==> Full(from) || Full(to)
      ensures l == null <==> old(Full(from)) || old(Full(to))
      ensures l != null ==>
        Valid() && fresh(l) && links == old(links) + {l} && l.att == [from, to] && l.ifindex == [fromIf, toIf]
      ensures l != null ==>
        0 <= k < SLOTS && old(from.intf)[k] == None && from.intf == old(from.intf)[k := Some(Intf(l, 0))]
      ensures l != null ==> 0 <= m < SLOTS && old(to.intf)[m] == None && to.intf == old(to.intf)[m := Some(Intf(l, 1))]
    {
      hide Graph, LinkOk, SlotOk, Attached, EndOk;
      Begin(from);
      k, m := -1, -1;
      l := new Link(fromIf, toIf);
      links := links + {l};
      loose := loose + {l};
      NewLink(l);
      var slot := PlugIn(from, l, 0);
      k := slot;
      if slot < 0 {
        return null, k, m;
      }
      slot := PlugIn(to, l, 1);
      m := slot;
      if slot < 0 {
        l := null;
      }
    }

    /** No two interfaces of a router share an index. */
    ghost predicate Unique(r: Router)
      reads `links, r`intf, links`ifindex
    {
      forall i, j, x {:trigger Bears(r, i, x), Bears(r, j, x)} | 0 <= i < j < SLOTS ::
        !(Bears(r, i, x) && Bears(r, j, x))
    }

    ghost predicate AllUnique()
      reads `members, `links, members`intf, links`ifindex
    {
      forall r {:trigger Unique(r)} | r in members :: Unique(r)
    }

    // What plugging `l` in between `from` (side `s`, slot `k`) and `to` has done.
    twostate predicate Rewired(from: Router, new fromIf: int, to: Router, new toIf: int, new l: Link, new s: int,
      new k: int)
      reads this, members, links, from
    {
      && l in links && links <= old(links) + {l} && old(links) <= links && members == old(members) && 0 <= s < 2 &&
        |l.att| == |l.ifindex| == 2
      && l.att[s] == from && l.att[1 - s] == to && l.ifindex[s] == fromIf && l.ifindex[1 - s] == toIf
      && (forall x {:trigger x.att} {:trigger x.ifindex} | x in old(links) && x != l ::
        x.att == old(x.att) && x.ifindex == old(x.ifindex))
      && (l in old(links) ==>
        old(|l.att|) == old(|l.ifindex|) == 2 && old(l.att)[1 - s] == to && old(l.ifindex)[1 - s] == toIf)
      && |from.intf| == old(|from.intf|) == SLOTS && 0 <= k < SLOTS && from.intf[k] == Some(Intf(l, s))
      && (forall r, i {:trigger r.intf[i]} | r in members && 0 <= i < SLOTS :: Took(r, i, l))
      && (old(from.intf)[k] == None || old(from.intf)[k] == Some(Intf(l, s)))
      && forall i | 0 <= i < SLOTS && i != k ::
        from.intf[i] == if old(from.intf)[i] == Some(Intf(l, s)) then None else old(from.intf)[i]
    }

    // A slot keeps what it has, loses it, or takes an end of `l`.
    twostate predicate Took(r: Router, new i: int, new l: Link)
      reads r
    {
      0 <= i < |r.intf| && |r.intf| == old(|r.intf|) &&
        (r.intf[i].Some? && r.intf[i].value.link != l ==> r.intf[i] == old(r.intf)[i])
    }

    // No slot of the router bears the index.
    ghost predicate Unused(n: Router, ifindex: int)
      reads `links, n`intf, links`ifindex
    {
      forall i | 0 <= i < SLOTS :: !Bears(n, i, ifindex)
    }

    // The interface sits in a slot of the router, under the index.
    ghost predicate Sits(n: Router, ifindex: int, f: Intf)
      reads `links, n`intf, links`ifindex
    {
      f.link in links && |f.link.ifindex| == 2 && 0 <= f.side < 2 &&
      exists i | 0 <= i < SLOTS :: Bears(n, i, ifindex) && n.intf[i] == Some(f)
    }

    // The router the other end of the link is attached to.
    static ghost function Opposite(f: Intf): Router?
      reads f.link`att
    {
      if 0 <= 1 - f.side < |f.link.att| then f.link.att[1 - f.side] else null
    }

    static ghost function NonNull(r: Router?): set<Router> {
      if r == null then {} else {r}
    }

    static ghost function LinkOf(f: Option<Intf>): set<Link> {
      if f.Some? then {f.value.link} else {}
    }

    // A slot is missing for joining the two routers, null if there is none yet, given the
    // interfaces found under the two indexes.
    static ghost predicate Cramped(from: Router?, to: Router?, fi: Option<Intf>, ti: Option<Intf>)
      reads NonNull(from)`intf, NonNull(to)`intf, LinkOf(fi)`att, LinkOf(ti)`att
    {
      var fromFull, toFull := from != null && Full(from), to != null && Full(to);
      if fi.None? && ti.None? then fromFull || toFull
      else if fi.None? then fromFull && Opposite(ti.value) != from
      else if ti.None? then toFull && Opposite(fi.value) != to
      else false
    }

    // The slots a router has had; a new one had none taken.
    twostate function Slots(new r: Router): seq<Option<Intf>> {
      if r in old(members) then old(r.intf) else seq(SLOTS, i => None)
    }

    // One interface has gone from slot `k`, or one has come there, or nothing has happened.
    static ghost predicate Displaced(now: seq<Option<Intf>>, was: seq<Option<Intf>>, k: int, gone: Option<Intf>,
      come: Option<Intf>)
    {
      |was| == SLOTS &&
      if gone.Some? || come.Some? then 0 <= k < SLOTS && was[k] == gone && now == was[k := come] else now == was
    }

    // What plugging in `l` has done to a router other than the one at its side `s`: an old
    // link has left its former slot, a new one has taken slot `m` of `to`.
    twostate predicate Elsewhere(new r: Router, new to: Router, new l: Link, new s: int, new m: int)
      reads this, r
    {
      0 <= s < 2 && (l in old(links) ==> old(|l.att|) == old(|l.slot|) == 2) &&
      if l in old(links) && r == old(l.att)[s] then
        Displaced(r.intf, Slots(r), old(l.slot)[s], Some(Intf(l, s)), None)
      else if l !in old(links) && r == to then Displaced(r.intf, Slots(r), m, None, Some(Intf(l, 1 - s)))
      else Displaced(r.intf, Slots(r), 0, None, None)
    }

    // The two branches of ted_resurrect_link without a local interface of the index; `ti`
    // is the interface found under the remote one.
    method LinkUp(from: Router, fromIf: int, to: Router, toIf: int, ti: Option<Intf>)
      returns (link: Link?, ghost s: int, ghost k: int, ghost m: int)
      requires Valid() && from in members && to in members && from != to
      requires if ti.Some? then Sits(to, toIf, ti.value) else Unused(to, toIf)
      modifies `links, `loose, members`intf, links
      ensures forall x | x in links :: x in old(links) || fresh(x)
      ensures link == null ==> Full(from) || Full(to)
      ensures link == null <==> old(Cramped(from, to, None, ti))
      ensures link != null ==> Valid() && Rewired(from, fromIf, to, toIf, link, s, k)
      ensures link != null ==> if ti.Some? then link == ti.value.link && link in old(links) else link !in old(links)
      ensures link != null ==> forall r {:trigger Elsewhere(r, to, link, s, m)} | r in members && r != from ::
        Elsewhere(r, to, link, s, m)
    {
      hide Graph, EndOk, Attached, SlotOk, Bears;
      Begin(from);
      m := -1;
      if ti.Some? {
        link := ti.value.link;
        ghost var j :| 0 <= j < SLOTS && Bears(to, j, toIf) && to.intf[j] == ti;
        BearsSome(to, j, toIf);
        Plug(to, j);
        At(link);
        BearsIndex(to, j, toIf);
        s := 1 - ti.value.side;
        var slot := Reattach(from, fromIf, link, 1 - ti.value.side);
        k := slot;
        if slot < 0 {
          link := null;
        } else {
          forall r | r in members && r != from ensures Elsewhere(r, to, link, s, m) {
            assert Vacated(r, link, s);
          }
          forall r, i | r in members && 0 <= i < SLOTS ensures Took(r, i, link) {
            assert Moved(r, i, from, slot, link, s);
          }
          forall i | 0 <= i < SLOTS
            ensures from.intf[i] == if i == slot then Some(Intf(link, s))
              else if old(from.intf)[i] == Some(Intf(link, s)) then None else old(from.intf)[i]
          {
            assert Moved(from, i, from, slot, link, s);
          }
        }
      } else {
        s := 0;
        link, k, m := Join(from, fromIf, to, toIf);
        if link != null {
          forall r, i | r in members && 0 <= i < SLOTS ensures Took(r, i, link) {
            assert old(|r.intf|) == SLOTS;
          }
        }
      }
    }

    lemma BearsIndex(n: Router, i: int, ifindex: int)
      requires Bears(n, i, ifindex)
      ensures 0 <= i < |n.intf| && n.intf[i].Some? && n.intf[i].value.link in links
      ensures var f := n.intf[i].value; 0 <= f.side < |f.link.ifindex| && f.link.ifindex[f.side] == ifindex
    {
    }

    // A slot that does not hold an end of `l` bears what it bore before.
    twostate lemma BoreBefore(r: Router, new i: int, new x: int, new l: Link)
      requires links <= old(links) + {l} && Took(r, i, l) && Bears(r, i, x) && r.intf[i].value.link != l
      requires forall y {:trigger y.ifindex} | y in old(links) && y != l :: y.ifindex == old(y.ifindex)
      ensures old(Bears(r, i, x))
    {
      var y := r.intf[i].value.link;
      assert y.ifindex == old(y.ifindex);
    }

    // The slot of the far end, if the link was there before.
    twostate lemma FarEnd(to: Router, new toIf: int, new l: Link, new t: int) returns (i: int)
      requires old(Graph()) && l in old(links) && 0 <= t < 2 && old(|l.att|) == old(|l.ifindex|) == 2 &&
        old(l.att)[t] == to && old(l.ifindex)[t] == toIf
      ensures 0 <= i < SLOTS && old(|to.intf|) == SLOTS && old(to.intf)[i] == Some(Intf(l, t)) &&
        old(Bears(to, i, toIf))
    {
      WasLink(l);
      i := old(l.slot)[t];
      assert old(EndOk(l, t));
      WasSlot(to, 0);
    }

    // One slot of `r` holds an end of `l`: no other slot bears the same index.
    twostate lemma EndUnique(r: Router, new i: int, new j: int, new x: int,
        new from: Router, new fromIf: int, new to: Router, new toIf: int, new l: Link, new s: int, new k: int)
      requires old(Graph()) && Graph() && from in old(members) && to in old(members) && from != to && r in members &&
        r in old(members)
      requires Rewired(from, fromIf, to, toIf, l, s, k) && old(Unique(to))
      requires forall n | 0 <= n < SLOTS :: !old(Bears(from, n, fromIf))
      requires l in old(links) || forall n | 0 <= n < SLOTS :: !old(Bears(to, n, toIf))
      requires 0 <= i < SLOTS && 0 <= j < SLOTS && i != j && Bears(r, i, x) && r.intf[i].value.link == l
      ensures !Bears(r, j, x)
    {
      hide Graph;
      AtSlot(r, i);
      AtSlot(r, j);
      if Bears(r, j, x) {
        var t := r.intf[i].value.side;
        assert r.intf[j].value.link != l;
        assert Took(r, j, l);
        BoreBefore(r, j, x, l);
        if t != s && l in old(links) {
          var n := FarEnd(to, toIf, l, t);
        }
      }
    }

    twostate lemma StillUnique(from: Router, new fromIf: int, new to: Router, new toIf: int, new l: Link, new s: int,
      new k: int)
      requires old(Graph()) && Graph() && from in old(members) && to in old(members) && from != to
      requires Rewired(from, fromIf, to, toIf, l, s, k) && old(AllUnique())
      requires forall n | 0 <= n < SLOTS :: !old(Bears(from, n, fromIf))
      requires l in old(links) || forall n | 0 <= n < SLOTS :: !old(Bears(to, n, toIf))
      ensures AllUnique()
    {
      hide Graph, Bears;
      forall r | r in members ensures Unique(r) {
        assert old(Unique(r)) && old(Unique(to));
        forall i, j, x | 0 <= i < j < SLOTS ensures !(Bears(r, i, x) && Bears(r, j, x)) {
          if Bears(r, i, x) && Bears(r, j, x) {
            BearsSome(r, i, x);
            BearsSome(r, j, x);
            if r.intf[i].value.link == l {
              EndUnique(r, i, j, x, from, fromIf, to, toIf, l, s, k);
            } else if r.intf[j].value.link == l {
              EndUnique(r, j, i, x, from, fromIf, to, toIf, l, s, k);
            } else {
              assert Took(r, i, l) && Took(r, j, l);
              BoreBefore(r, i, x, l);
              BoreBefore(r, j, x, l);
            }
          }
        }
      }
    }

    lemma BearsSome(r: Router, i: int, x: int)
      requires Bears(r, i, x)
      ensures 0 <= i < |r.intf| && r.intf[i].Some?
    {
    }

    // What ted_resurrect_link does at a router without an interface of the index.
    twostate predicate Resurrected(from: Router, new fromIf: int, new toId: RouterId, new toIf: int, new l: Link,
      new s: int, new k: int)
      reads this, links, from
    {
      && l in links && 0 <= s < 2 && |l.att| == |l.ifindex| == 2 && toId in routers
      && l.att[s] == from && l.att[1 - s] == routers[toId] && l.ifindex[s] == fromIf && l.ifindex[1 - s] == toIf
      && old(links) <= links <= old(links) + {l}
      && (forall x {:trigger x.att} {:trigger x.ifindex} | x in old(links) && x != l ::
        x.att == old(x.att) && x.ifindex == old(x.ifindex))
      && (l in old(links) ==>
        toId in old(routers) && old(|l.att|) == old(|l.ifindex|) == 2 && old(l.att)[1 - s] == old(routers)[toId] &&
        old(l.ifindex)[1 - s] == toIf)
      && |from.intf| == old(|from.intf|) == SLOTS && 0 <= k < SLOTS && from.intf[k] == Some(Intf(l, s))
      && (old(from.intf)[k] == None || old(from.intf)[k] == Some(Intf(l, s)))
      && forall i | 0 <= i < SLOTS && i != k ::
        from.intf[i] == if old(from.intf)[i] == Some(Intf(l, s)) then None else old(from.intf)[i]
    }

    // The link in which `from` and `to` now meet.
    ghost predicate Between(l: Link, from: Router, to: Router)
      reads `links, l`att
    {
      l in links && |l.att| == 2 && (l.att == [from, to] || l.att == [to, from])
    }

    // The link joins the two routers under the two indexes.
    ghost predicate Joins(l: Link, from: Router, fromIf: int, to: Router, toIf: int)
      reads `links, l`att, l`ifindex
    {
      l in links && ((l.att == [from, to] && l.ifindex == [fromIf, toIf]) ||
        (l.att == [to, from] && l.ifindex == [toIf, fromIf]))
    }

    // The other end of the link.
    static function Far(f: Intf): Intf {
      Intf(f.link, 1 - f.side)
    }

    static ghost function FarIndex(f: Intf): int
      reads f.link`ifindex
    {
      if 0 <= 1 - f.side < |f.link.ifindex| then f.link.ifindex[1 - f.side] else 0
    }

    // A slot of the router that does not hold the interface bears the index.
    ghost predicate Clashes(n: Router, ifindex: int, f: Intf)
      reads `links, n`intf, links`ifindex
    {
      exists i | 0 <= i < SLOTS :: Bears(n, i, ifindex) && n.intf[i] != Some(f)
    }

    // One interface has moved to slot `k` of `to`, and no index has changed: indexes
    // stay unique exactly if the one it brings is not in use there.
    twostate lemma MovedUnique(to: Router, new k: int, new l: Link, new s: int)
      requires old(Graph()) && Graph() && to in old(members) && members == old(members) && links == old(links)
      requires l in links && 0 <= s < 2 && 0 <= k < SLOTS && old(|l.ifindex|) == 2
      requires forall x {:trigger x.ifindex} | x in links :: x.ifindex == old(x.ifindex)
      requires old(to.intf)[k] == None || old(to.intf)[k] == Some(Intf(l, s))
      requires forall r, i {:trigger Moved(r, i, to, k, l, s)} | r in members && 0 <= i < SLOTS ::
        Moved(r, i, to, k, l, s)
      requires old(AllUnique())
      ensures AllUnique() <==> !old(Clashes(to, l.ifindex[s], Intf(l, s)))
    {
      hide Graph;
      var y := old(l.ifindex)[s];
      Begin(to);
      assert Moved(to, k, to, k, l, s) && Bears(to, k, y);
      if old(Clashes(to, l.ifindex[s], Intf(l, s))) {
        var i :| 0 <= i < SLOTS && old(Bears(to, i, y)) && old(to.intf)[i] != Some(Intf(l, s));
        assert Moved(to, i, to, k, l, s) && i != k && Bears(to, i, y);
        assert !Unique(to);
      } else {
        forall r | r in members ensures Unique(r) {
          MovedUniqueAt(r, to, k, l, s);
        }
      }
    }

    twostate lemma MovedUniqueAt(r: Router, new to: Router, new k: int, new l: Link, new s: int)
      requires old(Graph()) && Graph() && r in old(members) && to in old(members) && members == old(members) &&
        links == old(links)
      requires l in links && 0 <= s < 2 && 0 <= k < SLOTS && old(|l.ifindex|) == 2
      requires forall x {:trigger x.ifindex} | x in links :: x.ifindex == old(x.ifindex)
      requires forall r, i {:trigger Moved(r, i, to, k, l, s)} | r in members && 0 <= i < SLOTS ::
        Moved(r, i, to, k, l, s)
      requires old(Unique(r)) && !old(Clashes(to, l.ifindex[s], Intf(l, s)))
      ensures Unique(r)
    {
      hide Graph, Moved;
      forall i, j, x | 0 <= i < j < SLOTS ensures !(Bears(r, i, x) && Bears(r, j, x)) {
        assert !(old(Bears(r, i, x)) && old(Bears(r, j, x)));
        MovedBears(r, i, x, to, k, l, s);
        MovedBears(r, j, x, to, k, l, s);
      }
    }

    // A slot bears what it bore before, unless it has taken or lost the interface.
    twostate lemma MovedBears(r: Router, new i: int, new x: int, new to: Router, new k: int, new l: Link, new s: int)
      requires old(Graph()) && r in old(members) && to in old(members) && members == old(members) &&
        links == old(links) && 0 <= i < SLOTS
      requires l in links && 0 <= s < 2 && 0 <= k < SLOTS && old(|l.ifindex|) == 2
      requires forall x {:trigger x.ifindex} | x in links :: x.ifindex == old(x.ifindex)
      requires forall r, i {:trigger Moved(r, i, to, k, l, s)} | r in members && 0 <= i < SLOTS ::
        Moved(r, i, to, k, l, s)
      ensures Bears(r, i, x) ==>
        if r == to && i == k then x == old(l.ifindex)[s] else old(Bears(r, i, x)) && old(r.intf)[i] != Some(Intf(l, s))
    {
      hide Graph;
      assert Moved(r, i, to, k, l, s);
    }

    // ted_resurrect_link with a local interface only: its far end moves to `to`, and
    // keeps the index it has, for the statement that should change it has no effect.
    method RelinkFar(from: Router, fromIf: int, fi: Intf, to: Router, toIf: int, ghost i: int) returns (link: Link?)
      requires Valid() && from in members && to in members && from != to
      requires Bears(from, i, fromIf) && from.intf[i] == Some(fi)
      modifies `links, `loose, members`intf, links
      ensures links == old(links) && fi.link in links && old(|fi.link.ifindex|) == old(|fi.link.att|) == 2 &&
        0 <= fi.side < 2
      ensures link == null ==> Full(to)
      ensures link == null <==> old(Full(to)) && old(Opposite(fi)) != to
      ensures link != null ==> Valid() && Between(link, from, to)
      ensures link != null ==> (Joins(link, from, fromIf, to, toIf) <==> old(FarIndex(fi)) == toIf)
      ensures link != null && old(AllUnique()) ==>
        (AllUnique() <==> !old(Clashes(to, FarIndex(fi), Far(fi))))
    {
      hide Graph, LinkOk, SlotOk, Attached, EndOk, Full, AllUnique, Clashes;
      BearsSome(from, i, fromIf);
      Begin(from);
      Plug(from, i);
      At(fi.link);
      Sides(fi.link);
      link := fi.link;
      var slot := Reattach(to, link.ifindex[1 - fi.side], link, 1 - fi.side);
      if slot < 0 {
        return null;
      }
      ghost var y := old(link.ifindex)[1 - fi.side];
      assert link.att == if fi.side == 0 then [from, to] else [to, from];
      assert link.ifindex == if fi.side == 0 then [fromIf, y] else [y, fromIf];
      if old(AllUnique()) {
        MovedUnique(to, slot, link, 1 - fi.side);
      }
    }

    // Two interfaces are replaced by the ends of a new link, under the same indexes.
    twostate lemma RenewedUnique(r: Router, new n: Router, new i: int, new k: int, new x: int, new l: Link, new s: int)
      requires r in old(members) && old(Unique(r)) && 0 <= i < SLOTS && 0 <= k < SLOTS &&
        |r.intf| == old(|r.intf|) == SLOTS
      requires l !in old(links) && l in links && links <= old(links) + {l} && 0 <= s < |l.ifindex|
      requires forall y {:trigger y.ifindex} | y in old(links) && y in links :: y.ifindex == old(y.ifindex)
      requires r == n ==>
        old(Bears(r, i, x)) && l.ifindex[s] == x && r.intf == old(r.intf)[i := None][k := Some(Intf(l, s))]
      requires r != n ==> r.intf == old(r.intf)
      requires forall j | 0 <= j < SLOTS && old(r.intf)[j].Some? :: old(r.intf)[j].value.link in old(links)
      ensures Unique(r)
    {
      forall a, b, y | 0 <= a < b < SLOTS ensures !(Bears(r, a, y) && Bears(r, b, y)) {
        assert !(old(Bears(r, a, y)) && old(Bears(r, b, y)));
        RenewedBears(r, a, y, n, i, k, x, l, s);
        RenewedBears(r, b, y, n, i, k, x, l, s);
      }
    }

    twostate lemma RenewedBears(r: Router, new a: int, new y: int, new n: Router, new i: int, new k: int, new x: int,
      new l: Link, new s: int)
      requires r in old(members) && 0 <= i < SLOTS && 0 <= k < SLOTS && 0 <= a < SLOTS &&
        |r.intf| == old(|r.intf|) == SLOTS
      requires l !in old(links) && l in links && links <= old(links) + {l} && 0 <= s < |l.ifindex|
      requires forall y {:trigger y.ifindex} | y in old(links) && y in links :: y.ifindex == old(y.ifindex)
      requires r == n ==> l.ifindex[s] == x && r.intf == old(r.intf)[i := None][k := Some(Intf(l, s))]
      requires r != n ==> r.intf == old(r.intf)
      requires forall j | 0 <= j < SLOTS && old(r.intf)[j].Some? :: old(r.intf)[j].value.link in old(links)
      ensures Bears(r, a, y) ==> if r == n && a == k then y == x else old(Bears(r, a, y)) && !(r == n && a == i)
    {
    }

    // ted_resurrect_link with an interface on either side, of different links: both are
    // given up for a new link.
    method Renew(from: Router, fromIf: int, fi: Intf, to: Router, toIf: int, ti: Intf, ghost i: int, ghost j: int)
      returns (link: Link?)
      requires Valid() && from in members && to in members && from != to
      requires Bears(from, i, fromIf) && from.intf[i] == Some(fi) && Bears(to, j, toIf) && to.intf[j] == Some(ti) &&
        fi.link != ti.link
      modifies `links, `loose, members`intf, links
      ensures forall x | x in links :: x in old(links) || fresh(x)
      ensures link != null && Valid() && Joins(link, from, fromIf, to, toIf)
      ensures old(AllUnique()) ==> AllUnique()
    {
      hide Graph, LinkOk, SlotOk, Attached, EndOk, Xor, Indexed, Bears, AllUnique, Full;
      BearsSome(from, i, fromIf);
      BearsSome(to, j, toIf);
      Begin(from);
      Plug(from, i);
      At(fi.link);
      Sides(fi.link);
      Plug(to, j);
      At(ti.link);
      Sides(ti.link);
      PlugOut(fi.link, fi.side, from, i);
      PlugOut(ti.link, ti.side, to, j);
      FreeIfDetached(fi.link);
      FreeIfDetached(ti.link);
      HasRoom(from, i);
      HasRoom(to, j);
      ghost var k, m;
      link, k, m := Join(from, fromIf, to, toIf);
      if old(AllUnique()) {
        Renewed(from, fromIf, to, toIf, i, j, k, m, link);
      }
    }

    lemma HasRoom(n: Router, i: int)
      requires 0 <= i < |n.intf| && n.intf[i] == None
      ensures !Full(n)
    {
    }

    twostate lemma Renewed(from: Router, new fromIf: int, new to: Router, new toIf: int, new i: int, new j: int,
      new k: int, new m: int, new l: Link)
      requires old(Graph()) && from in old(members) && to in old(members) && from != to && members == old(members)
      requires l !in old(links) && l in links && links <= old(links) + {l} && l.ifindex == [fromIf, toIf]
      requires 0 <= i < SLOTS && 0 <= j < SLOTS && 0 <= k < SLOTS && 0 <= m < SLOTS
      requires forall y {:trigger y.ifindex} | y in old(links) && y in links :: y.ifindex == old(y.ifindex)
      requires old(|from.intf|) == SLOTS && from.intf == old(from.intf)[i := None][k := Some(Intf(l, 0))] &&
        old(Bears(from, i, fromIf))
      requires old(|to.intf|) == SLOTS && to.intf == old(to.intf)[j := None][m := Some(Intf(l, 1))] &&
        old(Bears(to, j, toIf))
      requires forall r {:trigger r.intf} | r in members && r != from && r != to :: r.intf == old(r.intf)
      requires old(AllUnique())
      ensures AllUnique()
    {
      hide Graph, Bears, Unique;
      forall r | r in members ensures Unique(r) {
        WasSlot(r, 0);
        forall n | 0 <= n < SLOTS && old(r.intf)[n].Some? ensures old(r.intf)[n].value.link in old(links) {
          WasSlot(r, n);
        }
        if r == from {
          RenewedUnique(r, from, i, k, fromIf, l, 0);
        } else {
          RenewedUnique(r, to, j, m, toIf, l, 1);
        }
      }
    }

    // Branches of ted_resurrect_link that find a local interface.
    method Relink(from: Router, fromIf: int, fi: Intf, to: Router, toIf: int, ti: Option<Intf>) returns (link: Link?)
      requires Valid() && from in members && to in members && from != to
      requires exists i :: Bears(from, i, fromIf) && from.intf[i] == Some(fi)
      requires if ti.Some? then exists i :: Bears(to, i, toIf) && to.intf[i] == ti else Unused(to, toIf)
      modifies `links, `loose, members`intf, links
      ensures forall x | x in links :: x in old(links) || fresh(x)
      ensures fi.link in old(links) && old(|fi.link.ifindex|) == 2 && 0 <= fi.side < 2
      ensures link == null ==> Full(to)
      ensures link == null <==> old(Cramped(from, to, Some(fi), ti))
      ensures link != null ==> Valid() && Between(link, from, to)
      ensures link != null ==>
        (Joins(link, from, fromIf, to, toIf) <==> ti.Some? || old(FarIndex(fi)) == toIf)
      ensures link != null && old(AllUnique()) ==>
        (AllUnique() <==> ti.Some? || !old(Clashes(to, FarIndex(fi), Far(fi))))
    {
      hide Graph, LinkOk, SlotOk, Attached, EndOk, Full, Xor, Indexed, Local, AllUnique, Clashes;
      ghost var i :| Bears(from, i, fromIf) && from.intf[i] == Some(fi);
      BearsSome(from, i, fromIf);
      Begin(from);
      Plug(from, i);
      At(fi.link);
      Sides(fi.link);
      if ti.None? {
        link := RelinkFar(from, fromIf, fi, to, toIf, i);
        return;
      }
      ghost var j :| Bears(to, j, toIf) && to.intf[j] == ti;
      Begin(to);
      Plug(to, j);
      if fi.link == ti.value.link {
        return fi.link;
      }
      link := Renew(from, fromIf, fi, to, toIf, ti.value, i, j);
    }

    // Routers without interfaces do not matter.
    twostate lemma GrownUnique()
      requires old(members) <= members && links == old(links) && unchanged(links)
      requires forall r {:trigger r.intf} | r in old(members) :: r.intf == old(r.intf)
      requires forall r {:trigger r.intf} | r in members && r !in old(members) ::
        |r.intf| == SLOTS && forall i | 0 <= i < SLOTS :: r.intf[i] == None
      ensures AllUnique() == old(AllUnique())
    {
      forall r | r in members ensures if r in old(members) then Unique(r) == old(Unique(r)) else Unique(r) {
        if r in old(members) {
          SameUnique(r);
        }
      }
      if AllUnique() {
        forall r | r in old(members) ensures old(Unique(r)) {
          assert Unique(r);
        }
      }
    }

    twostate lemma SameUnique(r: Router)
      requires links == old(links) && unchanged(links) && r.intf == old(r.intf)
      ensures Unique(r) == old(Unique(r))
    {
      assert forall i, x :: Bears(r, i, x) == old(Bears(r, i, x));
    }

    // No slot of the router holds an interface.
    static ghost predicate Bare(n: Router)
      reads n`intf
    {
      |n.intf| == SLOTS && forall i | 0 <= i < SLOTS :: n.intf[i] == None
    }

    lemma BearsNone(n: Router, ifindex: int)
      requires Bare(n)
      ensures Unused(n, ifindex) && !Full(n) && forall f :: !Clashes(n, ifindex, f)
    {
      assert n.intf[0] == None;
    }

    // A router is fake as long as it is only known as a neighbour: a new one is, but for
    // the one with the id, which has been heard from now.
    twostate predicate Unheard(new r: Router, new id: RouterId) {
      r.id != id && (r in old(members) ==> old(r.fake))
    }

    // Both routers of ted_resurrect_link, created if need be.
    method Meet(fromId: RouterId, toId: RouterId) returns (from: Router, fromNew: bool, to: Router, toNew: bool)
      requires Valid() && fromId != toId && fromId.bits != 0 && toId.bits != 0
      modifies `routers, `members, members`fake
      ensures Valid() && from in members && to in members && from != to && from.id == fromId && to.id == toId
      ensures fromId in routers && routers[fromId] == from && toId in routers && routers[toId] == to
      ensures forall id | id in old(routers) :: id in routers && routers[id] == old(routers)[id]
      ensures routers.Keys == old(routers).Keys + {fromId, toId}
      ensures toId in routers && (toId in old(routers) <==> !toNew) && (fromId in old(routers) <==> !fromNew)
      ensures if fromId in old(routers) then from in old(members) else Bare(from)
      ensures if toId in old(routers) then to in old(members) else Bare(to)
      ensures links == old(links) && forall r | r in old(members) :: r.intf == old(r.intf)
      ensures forall r {:trigger Slots(r)} | r in members :: r.intf == Slots(r)
      ensures old(members) <= members && (forall r | r in members && r !in old(members) :: fresh(r))
      ensures toId !in old(routers) ==> fresh(to)
      ensures forall r | r in members :: r.fake == Unheard(r, fromId)
      ensures old(AllUnique()) == AllUnique()
    {
      hide Graph, LinkOk, SlotOk, Attached, EndOk, AllUnique;
      if fromId in routers { Found(fromId); }
      if toId in routers { Found(toId); }
      from, fromNew := Obtain(fromId, false);
      from.fake := false;
      to, toNew := Obtain(toId, true);
      GrownUnique();
      forall r | r in members ensures r.fake == Unheard(r, fromId) {
        SameId(r, from);
      }
    }

    // The same, with what it means for the indexes of every router.
    method LinkUpUnique(from: Router, fromIf: int, to: Router, toIf: int, ti: Option<Intf>)
      returns (link: Link?, ghost s: int, ghost k: int, ghost m: int)
      requires Valid() && from in members && to in members && from != to
      requires Unused(from, fromIf) && if ti.Some? then Sits(to, toIf, ti.value) else Unused(to, toIf)
      modifies `links, `loose, members`intf, links
      ensures forall x | x in links :: x in old(links) || fresh(x)
      ensures link == null ==> Full(from) || Full(to)
      ensures link == null <==> old(Cramped(from, to, None, ti))
      ensures link != null ==>
        Valid() && Rewired(from, fromIf, to, toIf, link, s, k) && (old(AllUnique()) ==> AllUnique())
      ensures link != null ==> if ti.Some? then link == ti.value.link && link in old(links) else link !in old(links)
      ensures link != null ==> forall r {:trigger Elsewhere(r, to, link, s, m)} | r in members && r != from ::
        Elsewhere(r, to, link, s, m)
    {
      hide Graph, LinkOk, SlotOk, Attached, EndOk, AllUnique, Bears, Full, Rewired, Elsewhere, Cramped, Sits;
      link, s, k, m := LinkUp(from, fromIf, to, toIf, ti);
      if link != null && old(AllUnique()) {
        StillUnique(from, fromIf, to, toIf, link, s, k);
      }
    }

    // ted_resurrect_link once both routers are there, and have been searched for the
    // two indexes.
    method Attend(from: Router, fromIf: int, to: Router, toIf: int, fi: Option<Intf>, ti: Option<Intf>)
      returns (link: Link?, ghost s: int, ghost k: int, ghost m: int)
      requires Valid() && from in members && to in members && from != to
      requires if fi.Some? then Sits(from, fromIf, fi.value) else Unused(from, fromIf)
      requires if ti.Some? then Sits(to, toIf, ti.value) else Unused(to, toIf)
      modifies `links, `loose, members`intf, links
      ensures forall x | x in links :: x in old(links) || fresh(x)
      ensures link == null ==> Full(from) || Full(to)
      ensures link == null <==> old(Cramped(from, to, fi, ti))
      ensures link != null ==> Valid() && Between(link, from, to)
      ensures link != null && fi == None ==> Rewired(from, fromIf, to, toIf, link, s, k)
      ensures link != null && fi == None ==>
        if ti.Some? then link == ti.value.link && link in old(links) else link !in old(links)
      ensures link != null && fi == None ==>
        forall r {:trigger Elsewhere(r, to, link, s, m)} | r in members && r != from :: Elsewhere(r, to, link, s, m)
      ensures link != null ==> (Joins(link, from, fromIf, to, toIf) <==>
        fi == None || ti.Some? || old(FarIndex(fi.value)) == toIf)
      ensures link != null && old(AllUnique()) ==> (AllUnique() <==>
        fi == None || ti.Some? || !old(Clashes(to, FarIndex(fi.value), Far(fi.value))))
    {
      hide Graph, LinkOk, SlotOk, Attached, EndOk, AllUnique, Bears, Full, Clashes, Rewired, Unused, Elsewhere, Cramped;
      s, k, m := 0, 0, 0;
      if fi.None? {
        link, s, k, m := LinkUpUnique(from, fromIf, to, toIf, ti);
        if link != null { RewiredJoins(from, fromIf, to, toIf, link, s, k); }
      } else {
        link := Relink(from, fromIf, fi.value, to, toIf, ti);
      }
    }

    // ted_node_lookup_intf, unless the router is new.
    method Search(n: Router, ifindex: int, isNew: bool) returns (found: Option<Intf>)
      requires Valid() && n in members && (isNew ==> Bare(n))
      ensures if found.Some? then Sits(n, ifindex, found.value) else Unused(n, ifindex)
      ensures (isNew ==> found == None) && (found.Some? ==> found.value.link in links)
    {
      hide Graph;
      found := None;
      if isNew {
        BearsNone(n, ifindex);
      } else {
        found := LookupIntf(n, ifindex);
        if found.Some? { FoundSits(n, ifindex, found.value); }
      }
    }

    lemma FoundSits(n: Router, ifindex: int, f: Intf)
      requires Graph() && n in members && exists i :: Bears(n, i, ifindex) && n.intf[i] == Some(f)
      ensures Sits(n, ifindex, f)
    {
      var i :| Bears(n, i, ifindex) && n.intf[i] == Some(f);
      Begin(n);
      AtSlot(n, i);
      At(f.link);
    }

    twostate lemma RewiredJoins(from: Router, new fromIf: int, new to: Router, new toIf: int, new l: Link, new s: int,
      new k: int)
      requires from in old(members) && to in old(members) && Rewired(from, fromIf, to, toIf, l, s, k)
      ensures Joins(l, from, fromIf, to, toIf) && Between(l, from, to)
    {
      assert l.att == if s == 0 then [from, to] else [to, from];
      assert l.ifindex == if s == 0 then [fromIf, toIf] else [toIf, fromIf];
      assert Between(l, from, to);
    }

    // A router of the database has a slot with the index.
    ghost predicate InUse(id: RouterId, ifindex: int)
      requires Indexed()
      reads `routers, `members, `links, members`intf, links`ifindex
    {
      id in routers && !Unused(routers[id], ifindex)
    }

    // The router with the id, if there is one.
    ghost function Known(id: RouterId): Router?
      reads `routers
    {
      if id in routers then routers[id] else null
    }

    ghost predicate FullAt(id: RouterId)
      requires Indexed()
      reads `routers, `members, members`intf
    {
      id in routers && Full(routers[id])
    }

    /** ted_resurrect_link; null stands for the failed assertion that a slot is free.
        `local` and `remote` are the interfaces that bore the two indexes before.  If there
        was a local one only, its far end keeps the index it had: the link bears what was
        asked for exactly if that is the one, and indexes stay unique exactly if no other
        interface of the remote router has it. */
    method Resurrect(fromId: RouterId, fromIf: int, toId: RouterId, toIf: int)
      returns (link: Link?, ghost s: int, ghost k: int, ghost m: int, ghost local: Option<Intf>,
        ghost remote: Option<Intf>)
      requires Valid() && fromId != toId && fromId.bits != 0 && toId.bits != 0
      modifies this, members, links
      ensures forall id | id in old(routers) :: id in routers && routers[id] == old(routers)[id]
      ensures routers.Keys == old(routers).Keys + {fromId, toId}
      ensures forall x | x in links :: x in old(links) || fresh(x)
      ensures forall r | r in members :: r in old(members) || fresh(r)
      ensures forall r | r in members :: r.fake == Unheard(r, fromId)
      ensures fromId in routers && toId in routers && (link == null ==> Full(routers[fromId]) || Full(routers[toId]))
      ensures (local == None <==> !old(InUse(fromId, fromIf))) && (remote == None <==> !old(InUse(toId, toIf)))
      ensures local.Some? ==> local.value.link in old(links) && old(Sits(routers[fromId], fromIf, local.value))
      ensures remote.Some? ==> remote.value.link in old(links) && old(Sits(routers[toId], toIf, remote.value))
      ensures local == None && remote == None ==> (link == null <==> old(FullAt(fromId)) || old(FullAt(toId)))
      ensures local == None && remote.Some? ==>
        (link == null <==> old(FullAt(fromId)) && old(Opposite(remote.value)) != old(Known(fromId)))
      ensures local.Some? && remote == None ==>
        (link == null <==> old(FullAt(toId)) && old(Opposite(local.value)) != old(Known(toId)))
      ensures local.Some? && remote.Some? ==> link != null
      ensures link != null ==> Valid() && Between(link, routers[fromId], routers[toId])
      ensures link != null && local == None && fromId in old(routers) ==>
        Resurrected(old(routers)[fromId], fromIf, toId, toIf, link, s, k)
      ensures link != null && local == None ==>
        if remote.Some? then link == remote.value.link && link in old(links) else link !in old(links)
      ensures link != null && local == None ==> forall r {:trigger Elsewhere(r, routers[toId], link, s, m)} |
        r in members && r != routers[fromId] :: Elsewhere(r, routers[toId], link, s, m)
      ensures link != null ==> (Joins(link, routers[fromId], fromIf, routers[toId], toIf) <==>
        local == None || old(InUse(toId, toIf)) || old(FarIndex(local.value)) == toIf)
      ensures link != null && old(AllUnique()) ==> (AllUnique() <==>
        local == None || old(InUse(toId, toIf)) || toId !in old(routers) ||
        !old(Clashes(routers[toId], FarIndex(local.value), Far(local.value))))
    {
      hide Graph, LinkOk, SlotOk, Attached, EndOk, AllUnique, Bears, Full, Unused, Sits, Clashes, Joins, Between,
        Took, Indexed, Cramped, Opposite, FarIndex, FullAt, Known, InUse, Displaced, Unheard;
      var from, to, fi, ti := Prepare(fromId, fromIf, toId, toIf);
      local, remote := fi, ti;
      label attending:
      link, s, k, m := Attend(from, fromIf, to, toIf, fi, ti);
      if link != null && fi == None {
        forall r | r in members && r != from ensures Elsewhere(r, to, link, s, m) {
          assert Elsewhere@attending(r, to, link, s, m) && old@attending(r.intf) == Slots(r);
        }
      }
    }

    // The part of ted_resurrect_link that looks for routers and interfaces.
    method Prepare(fromId: RouterId, fromIf: int, toId: RouterId, toIf: int)
      returns (from: Router, to: Router, fi: Option<Intf>, ti: Option<Intf>)
      requires Valid() && fromId != toId && fromId.bits != 0 && toId.bits != 0
      modifies `routers, `members, members`fake
      ensures Valid() && from in members && to in members && from != to
      ensures fromId in routers && routers[fromId] == from && toId in routers && routers[toId] == to
      ensures forall id | id in old(routers) :: id in routers && routers[id] == old(routers)[id]
      ensures routers.Keys == old(routers).Keys + {fromId, toId}
      ensures old(members) <= members && (forall r | r in members && r !in old(members) :: fresh(r))
      ensures forall r | r in members :: r.fake == Unheard(r, fromId)
      ensures fromId in old(routers) ==> from in old(members)
      ensures toId !in old(routers) ==> fresh(to)
      ensures forall r {:trigger Slots(r)} | r in members :: r.intf == Slots(r)
      ensures if fi.Some? then Sits(from, fromIf, fi.value) else Unused(from, fromIf)
      ensures if ti.Some? then Sits(to, toIf, ti.value) else Unused(to, toIf)
      ensures (fi == None <==> !old(InUse(fromId, fromIf))) && (ti == None <==> !old(InUse(toId, toIf)))
      ensures fi.Some? ==>
        fi.value.link in links && old(Sits(routers[fromId], fromIf, fi.value)) &&
        FarIndex(fi.value) == old(FarIndex(fi.value))
      ensures ti.Some? ==>
        toId in old(routers) && ti.value.link in links && old(Sits(routers[toId], toIf, ti.value))
      ensures fi.Some? ==> (Clashes(to, FarIndex(fi.value), Far(fi.value)) <==>
        toId in old(routers) && old(Clashes(routers[toId], FarIndex(fi.value), Far(fi.value))))
      ensures fi == None && ti == None ==> (Cramped(from, to, fi, ti) <==> old(FullAt(fromId)) || old(FullAt(toId)))
      ensures fi == None && ti.Some? ==>
        (Cramped(from, to, fi, ti) <==> old(FullAt(fromId)) && old(Opposite(ti.value)) != old(Known(fromId)))
      ensures fi.Some? && ti == None ==>
        (Cramped(from, to, fi, ti) <==> old(FullAt(toId)) && old(Opposite(fi.value)) != old(Known(toId)))
      ensures fi.Some? && ti.Some? ==> !Cramped(from, to, fi, ti)
      ensures AllUnique() == old(AllUnique())
    {
      hide Graph, LinkOk, SlotOk, Attached, EndOk, AllUnique, Bears, Full, Bare, Unused, Sits, Clashes, Indexed,
        Unheard;
      var fromNew, toNew;
      from, fromNew, to, toNew := Meet(fromId, toId);
      fi := Search(from, fromIf, fromNew);
      ti := Search(to, toIf, toNew);
      SitsUsed(from, fromIf);
      SitsUsed(to, toIf);
      if fromNew { BearsNone(from, fromIf); } else { SameSlots(from, fromIf, fi); }
      if toNew {
        BearsNone(to, toIf);
        BearsNone(to, if fi.Some? then FarIndex(fi.value) else 0);
      } else {
        SameSlots(to, toIf, fi);
      }
    }

    // Nothing the search looks at has changed.
    twostate lemma SameSlots(n: Router, new ifindex: int, new f: Option<Intf>)
      requires n in old(members) && n.intf == old(n.intf) && links == old(links) && unchanged(links)
      requires f.Some? ==> f.value.link in links
      ensures Unused(n, ifindex) == old(Unused(n, ifindex)) && Full(n) == old(Full(n))
      ensures f.Some? ==> Sits(n, ifindex, f.value) == old(Sits(n, ifindex, f.value))
      ensures f.Some? ==> FarIndex(f.value) == old(FarIndex(f.value))
      ensures f.Some? ==>
        Clashes(n, FarIndex(f.value), Far(f.value)) == old(Clashes(n, FarIndex(f.value), Far(f.value)))
    {
      if f.Some? {
        var y := FarIndex(f.value);
        assert forall i, x :: Bears(n, i, x) == old(Bears(n, i, x));
      }
    }

    lemma SitsUsed(n: Router, ifindex: int)
      ensures forall f | Sits(n, ifindex, f) :: !Unused(n, ifindex)
    {
    }

    // Slot `i` of `n` carries the link the entry asks for.
    ghost predicate Serves(n: Router, i: int, e: Entry)
      reads `routers, `links, n`intf, links`att, links`ifindex
    {
      0 <= i < |n.intf| && n.intf[i].Some? && n.intf[i].value.link in links && 0 <= n.intf[i].value.side < 2 &&
        e.nbr in routers &&
      var l, s := n.intf[i].value.link, n.intf[i].value.side;
      |l.att| == |l.ifindex| == 2 && l.ifindex[s] == e.localIf && l.att[1 - s] == routers[e.nbr] &&
        l.ifindex[1 - s] == e.remoteIf
    }

    twostate lemma StillBears(r: Router, new i: int, new x: int)
      requires links <= old(links) && r.intf == old(r.intf)
      requires forall y {:trigger y.ifindex} | y in links :: y.ifindex == old(y.ifindex)
      ensures Bears(r, i, x) ==> old(Bears(r, i, x))
    {
      if Bears(r, i, x) {
        assert r.intf[i].value.link.ifindex == old(r.intf[i].value.link.ifindex);
      }
    }

    twostate lemma ShrunkUnique()
      requires old(AllUnique()) && members <= old(members) && links <= old(links)
      requires forall r {:trigger r.intf} | r in members :: r.intf == old(r.intf)
      requires forall x {:trigger x.ifindex} | x in links :: x.ifindex == old(x.ifindex)
      ensures AllUnique()
    {
      forall r | r in members ensures Unique(r) {
        assert old(Unique(r)) && r.intf == old(r.intf);
        forall i, j, x | 0 <= i < j < SLOTS ensures !(Bears(r, i, x) && Bears(r, j, x)) {
          assert !(old(Bears(r, i, x)) && old(Bears(r, j, x)));
          StillBears(r, i, x);
          StillBears(r, j, x);
        }
      }
    }

    // Every interface of `n` serves one of the entries, and each entry is served.
    ghost predicate Matches(n: Router, entries: seq<Entry>, at: seq<int>)
      reads `routers, `links, n`intf, links`att, links`ifindex
    {
      && |at| == |entries| && |n.intf| == SLOTS
      && (forall j | 0 <= j < |at| :: Serves(n, at[j], entries[j]))
      && (forall i | 0 <= i < SLOTS && n.intf[i].Some? :: i in at)
      && (forall i, j | 0 <= i < j < |at| :: at[i] != at[j])
    }

    // No slot bears an index that none of the entries has.
    lemma NotYet(n: Router, entries: seq<Entry>, at: seq<int>, ifindex: int)
      requires Matches(n, entries, at) && forall e | e in entries :: e.localIf != ifindex
      ensures forall i | 0 <= i < SLOTS :: !Bears(n, i, ifindex)
    {
      forall i | 0 <= i < SLOTS && n.intf[i].Some? ensures !Bears(n, i, ifindex) {
        var j :| 0 <= j < |at| && at[j] == i;
        assert Serves(n, at[j], entries[j]) && entries[j] in entries;
      }
    }

    // One entry more.
    twostate lemma Served(n: Router, new entries: seq<Entry>, new at: seq<int>, new e: Entry, new l: Link, new s: int,
      new k: int)
      requires old(Valid()) && Valid() && n in old(members) && n in members && old(Matches(n, entries, at)) &&
        Resurrected(n, e.localIf, e.nbr, e.remoteIf, l, s, k)
      requires forall id | id in old(routers) :: id in routers && routers[id] == old(routers)[id]
      requires e.nbr != n.id && forall f | f in entries :: f.nbr != e.nbr || f.remoteIf != e.remoteIf
      ensures Matches(n, entries + [e], at + [k])
    {
      hide Graph;
      assert Serves(n, k, e);
      forall j | 0 <= j < |at| ensures Serves(n, at[j], entries[j]) && at[j] != k {
        ServedBefore(n, entries, at, e, l, s, k, j);
      }
      forall i | 0 <= i < SLOTS && n.intf[i].Some? ensures i in at + [k] {
        if i != k { assert i in at; }
      }
    }

    twostate lemma ServedBefore(n: Router, new entries: seq<Entry>, new at: seq<int>, new e: Entry, new l: Link,
      new s: int, new k: int, new j: int)
      requires old(Valid()) && Valid() && n in old(members) && n in members && old(Matches(n, entries, at)) &&
        Resurrected(n, e.localIf, e.nbr, e.remoteIf, l, s, k)
      requires forall id | id in old(routers) :: id in routers && routers[id] == old(routers)[id]
      requires e.nbr != n.id && forall f | f in entries :: f.nbr != e.nbr || f.remoteIf != e.remoteIf
      requires 0 <= j < |at|
      ensures Serves(n, at[j], entries[j]) && at[j] != k
    {
      assert old(Serves(n, at[j], entries[j])) && entries[j] in entries;
      var f := old(n.intf)[at[j]].value;
      WasSlot(n, at[j]);
      WasIndexed();
      assert old(routers)[entries[j].nbr].id == entries[j].nbr;
      assert l in old(links) ==> old(routers)[e.nbr].id == e.nbr;
      assert f.link != l;
    }

    // No end of the link is at the router `id`, or is the one an entry asks for.
    static ghost predicate Unrelated(x: Link, id: RouterId, entries: seq<Entry>)
      reads x`att, x`ifindex
    {
      |x.att| == |x.ifindex| == 2 && forall t | 0 <= t < 2 && x.att[t] != null ::
        x.att[t].id != id && forall e | e in entries :: x.att[t].id != e.nbr || x.ifindex[t] != e.remoteIf
    }

    static twostate predicate Undisturbed(x: Link)
      reads x
    {
      x.att == old(x.att) && x.ifindex == old(x.ifindex)
    }

    twostate lemma StaysUnrelated(x: Link, new id: RouterId, new entries: seq<Entry>)
      requires old(Unrelated(x, id, entries)) && Undisturbed(x)
      ensures Unrelated(x, id, entries)
    {
    }

    twostate lemma StillUndisturbed(n: Router, new x: Link, new id: RouterId, new entries: seq<Entry>, new e: Entry,
      new l: Link, new s: int, new k: int)
      requires old(Graph()) && x in old(links) && old(Unrelated(x, id, entries)) && e in entries
      requires Resurrected(n, e.localIf, e.nbr, e.remoteIf, l, s, k)
      ensures x in links && Undisturbed(x)
    {
      hide Graph;
      WasIndexed();
      assert l in old(links) ==> old(routers)[e.nbr].id == e.nbr;
    }

    twostate lemma UndisturbedByDelete(x: Link, new id: RouterId, new entries: seq<Entry>)
      requires old(Valid()) && x in old(links) && old(Unrelated(x, id, entries)) && x.ifindex == old(x.ifindex)
      requires id !in old(routers) ==> links == old(links) && x.att == old(x.att)
      requires id in old(routers) ==>
        Cut(x, old(routers[id]), SLOTS, old(x.att), old(x.slot)) && (x in links <==> Attached(x))
      ensures x in links && Undisturbed(x)
    {
      hide Graph, LinkOk;
      WasLink(x);
      WasIndexed();
    }

    ghost function IndexAt(o: Option<Intf>): Option<int>
      reads `links, links`ifindex
    {
      if o.Some? && o.value.link in links && 0 <= o.value.side < |o.value.link.ifindex|
      then Some(o.value.link.ifindex[o.value.side])
      else None
    }

    ghost function Indexes(slots: seq<Option<Intf>>): (b: seq<Option<int>>)
      reads `links, links`ifindex
      ensures |b| == |slots| && forall i | 0 <= i < |b| :: b[i] == IndexAt(slots[i])
    {
      if slots == [] then [] else [IndexAt(slots[0])] + Indexes(slots[1..])
    }

    // The indexes the slots of the router bear.
    ghost function Borne(n: Router): seq<Option<int>>
      reads `links, n`intf, links`ifindex
    {
      Indexes(n.intf)
    }

    lemma BorneMeans(n: Router, ifindex: int)
      requires Graph() && n in members
      ensures Unused(n, ifindex) <==> Some(ifindex) !in Borne(n)
      ensures Full(n) <==> None !in Borne(n)
    {
      Begin(n);
      forall i | 0 <= i < SLOTS ensures Bears(n, i, ifindex) <==> Borne(n)[i] == Some(ifindex) {
        assert Borne(n)[i] == IndexAt(n.intf[i]);
      }
      forall i | 0 <= i < SLOTS ensures n.intf[i] == None <==> Borne(n)[i] == None {
        if n.intf[i].Some? {
          Plug(n, i);
          At(n.intf[i].value.link);
        }
      }
    }

    twostate function BorneBefore(new r: Router): seq<Option<int>> {
      if r in old(members) then old(Borne(r)) else seq(SLOTS, i => None)
    }

    // An interface that stays in its slot at another router keeps its index.
    twostate lemma IndexKept(r: Router, new i: int, new from: Router, new toIf: int, new l: Link, new s: int)
      requires old(Graph()) && Graph() && r in members && r in old(members) && r != from && 0 <= i < SLOTS
      requires l in links && 0 <= s < 2 && |l.att| == |l.ifindex| == 2 && l.att[s] == from && l.ifindex[1 - s] == toIf
      requires forall x {:trigger x.ifindex} | x in old(links) && x != l :: x.ifindex == old(x.ifindex)
      requires l in old(links) ==> old(|l.ifindex|) == 2 && old(l.ifindex)[1 - s] == toIf
      requires |r.intf| == old(|r.intf|) == SLOTS && r.intf[i] == old(r.intf)[i]
      ensures IndexAt(r.intf[i]) == old(IndexAt(r.intf[i]))
    {
      hide Graph;
      if r.intf[i].Some? {
        Plug(r, i);
        WasSlot(r, i);
      }
    }

    // How the indexes borne by another router follow the plugging in of `l`.
    twostate lemma BorneElsewhere(new r: Router, new from: Router, new to: Router, new toIf: int, new l: Link,
      new s: int, new m: int)
      requires old(Graph()) && Graph() && r in members && r != from && Elsewhere(r, to, l, s, m)
      requires l in links && |l.att| == |l.ifindex| == 2 && l.att[s] == from && l.ifindex[1 - s] == toIf
      requires forall x {:trigger x.ifindex} | x in old(links) && x != l :: x.ifindex == old(x.ifindex)
      requires l in old(links) ==> old(|l.ifindex|) == 2 && old(l.ifindex)[1 - s] == toIf
      ensures |BorneBefore(r)| == SLOTS
      ensures Borne(r) ==
        if l in old(links) && r == old(l.att)[s] then BorneBefore(r)[old(l.slot)[s] := None]
        else if l !in old(links) && r == to then BorneBefore(r)[m := Some(toIf)]
        else BorneBefore(r)
      ensures l in old(links) && r == old(l.att)[s] ==>
        0 <= old(l.slot)[s] < SLOTS && BorneBefore(r)[old(l.slot)[s]] == Some(old(l.ifindex)[s])
      ensures l !in old(links) && r == to ==> 0 <= m < SLOTS && BorneBefore(r)[m] == None
    {
      hide Graph;
      forall i | 0 <= i < SLOTS && r in old(members) && r.intf[i] == Slots(r)[i]
        ensures IndexAt(r.intf[i]) == BorneBefore(r)[i]
      {
        IndexKept(r, i, from, toIf, l, s);
      }
    }

    twostate lemma SlackElsewhere(new r: Router, new from: Router, new to: Router, new l: Link, new s: int,
      new m: int, new entries: seq<Entry>)
      requires old(Graph()) && Graph() && r in members && to in members && r != from && Elsewhere(r, to, l, s, m)
      requires entries != [] && Separate(entries) && entries[0].nbr == to.id
      requires l in links && |l.att| == |l.ifindex| == 2 && l.att[s] == from && l.ifindex[1 - s] == entries[0].remoteIf
      requires forall x {:trigger x.ifindex} | x in old(links) && x != l :: x.ifindex == old(x.ifindex)
      requires l in old(links) ==>
        old(|l.att|) == old(|l.ifindex|) == 2 && old(l.att)[1 - s] == to && old(l.ifindex)[1 - s] == entries[0].remoteIf
      requires l in old(links) <==> Some(entries[0].remoteIf) in BorneBefore(to)
      ensures Slack(Borne(r), r.id, entries[1..]) >= Slack(BorneBefore(r), r.id, entries)
      ensures l !in old(links) || r != old(l.att)[s] ==>
        Slack(Borne(r), r.id, entries[1..]) == Slack(BorneBefore(r), r.id, entries)
    {
      hide Graph, Separate;
      BorneElsewhere(r, from, to, entries[0].remoteIf, l, s, m);
      SameId(r, to);
      if l in old(links) && r == old(l.att)[s] {
        WasLink(l);
        SeparateRest(entries);
        SlackAfterLoss(BorneBefore(r), old(l.slot)[s], r.id, entries[1..]);
      } else if l !in old(links) && r == to {
        SlackAfterTake(BorneBefore(r), m, r.id, entries);
      }
    }

    lemma Registered(r: Router)
      requires Graph() && r in members
      ensures r.id in routers && routers[r.id] == r
    {
    }

    lemma IsIndexed()
      requires Graph()
      ensures Indexed()
    {
    }

    lemma SameId(r: Router, n: Router)
      requires Graph() && r in members && n in members
      ensures r.id == n.id <==> r == n
    {
    }

    // Every router but `n` has as many slots to spare as `slack` says, a new one `spare`.
    ghost predicate Room(n: Router, entries: seq<Entry>, slack: map<RouterId, int>, spare: int)
      reads `members, `links, members`intf, links`ifindex
    {
      forall r {:trigger Borne(r)} | r in members && r != n ::
        Slack(Borne(r), r.id, entries) >= if r.id in slack then slack[r.id] else spare
    }

    // A router from which no link is taken has no more to spare than `slack` says.
    ghost predicate Tight(robbed: set<RouterId>, entries: seq<Entry>, slack: map<RouterId, int>)
      reads `members, `links, members`intf, links`ifindex
    {
      forall r {:trigger Borne(r)} | r in members && r.id in slack && r.id !in robbed ::
        Slack(Borne(r), r.id, entries) == slack[r.id]
    }

    // If an entry asks for one end of the link, its other end is at one of the routers.
    static ghost predicate TakenFrom(x: Link, id: RouterId, entries: seq<Entry>, robbed: set<RouterId>)
      reads x`att, x`ifindex
    {
      |x.att| == |x.ifindex| == 2 && forall t | 0 <= t < 2 && x.att[t] != null && x.att[1 - t] != null ::
        AskedFor(x.att[t].id, x.ifindex[t], entries) && x.att[1 - t].id != id ==> x.att[1 - t].id in robbed
    }

    ghost predicate Robs(id: RouterId, entries: seq<Entry>, robbed: set<RouterId>)
      reads `links, links`att, links`ifindex
    {
      forall x {:trigger TakenFrom(x, id, entries, robbed)} | x in links :: TakenFrom(x, id, entries, robbed)
    }

    // The routers at the other ends of links that an entry asks for.
    ghost function Robbed(id: RouterId, entries: seq<Entry>): set<RouterId>
      reads `links, links`att, links`ifindex
    {
      set x, t | x in links && 0 <= t < 2 && |x.att| == |x.ifindex| == 2 && x.att[t] != null && x.att[1 - t] != null &&
        x.att[1 - t].id != id && AskedFor(x.att[t].id, x.ifindex[t], entries) :: x.att[1 - t].id
    }

    lemma RobbedSuffices(id: RouterId, entries: seq<Entry>)
      requires Graph()
      ensures Robs(id, entries, Robbed(id, entries))
    {
      hide Graph;
      forall x | x in links ensures TakenFrom(x, id, entries, Robbed(id, entries)) {
        At(x);
      }
    }

    ghost function SlackOf(id: RouterId, entries: seq<Entry>): map<RouterId, int>
      requires Indexed()
      reads `routers, `members, `links, members`intf, links`ifindex
    {
      map j | j in routers && j != id :: Slack(Borne(routers[j]), j, entries)
    }

    /** At most as many entries as a router has slots, and every other router has a free
        slot for each entry that names it with an index not in use there. */
    ghost predicate Roomy(id: RouterId, entries: seq<Entry>)
      requires Indexed()
      reads `routers, `members, `links, members`intf, links`ifindex
    {
      Fits(entries, SlackOf(id, entries))
    }

    // `n` is the router with the id, and the routers `slack` speaks of are others.
    ghost predicate Kept(id: RouterId, n: Router, slack: map<RouterId, int>)
      reads `routers, `members
    {
      && id in routers && routers[id] == n && n in members
      && forall j | j in slack :: j != id && j in routers
    }

    // Before entry `i`: the earlier ones are served, and slots are accounted for.
    ghost predicate Stage(id: RouterId, n: Router, entries: seq<Entry>, i: int, at: seq<int>, slack: map<RouterId, int>,
      robbed: set<RouterId>)
      reads this, members, links
    {
      && Valid() && Kept(id, n, slack) && 0 <= i <= |entries| && Matches(n, entries[..i], at)
      && Room(n, entries[i..], slack, SLOTS - |entries|)
      && Robs(id, entries, robbed) && Tight(robbed, entries[i..], slack)
    }

    // Neither router lacks a slot for the next entry.
    lemma Vacancy(id: RouterId, n: Router, entries: seq<Entry>, i: int, at: seq<int>, slack: map<RouterId, int>,
      robbed: set<RouterId>)
      requires Stage(id, n, entries, i, at, slack, robbed) && i < |entries| && Proper(id, entries) &&
        Fits(entries, slack)
      ensures !Full(n)
      ensures var e := entries[i];
        e.nbr in routers && Unused(routers[e.nbr], e.remoteIf) ==> !Full(routers[e.nbr])
    {
      hide Graph, Matches, Full;
      var e, rest := entries[i], entries[i..];
      HasSlot(n, entries[..i], at);
      if e.nbr in routers && Unused(routers[e.nbr], e.remoteIf) {
        var to := routers[e.nbr];
        Found(e.nbr);
        assert e in entries && rest[0] == e;
        BorneMeans(to, e.remoteIf);
        FreeMeans(Borne(to));
        assert Need(Borne(to), e.nbr, rest) > 0;
      }
    }

    lemma HasSlot(n: Router, entries: seq<Entry>, at: seq<int>)
      requires Matches(n, entries, at)
      ensures |entries| <= SLOTS && (|entries| < SLOTS ==> !Full(n))
    {
      forall j | 0 <= j < |at| ensures 0 <= at[j] < SLOTS {
        assert Serves(n, at[j], entries[j]);
      }
      DistinctNumbers(at, SLOTS);
      if Full(n) {
        AllNumbers(at, SLOTS);
      }
    }

    // What ted_resurrect_link does for an entry of a router that has no such local index.
    twostate predicate Provided(n: Router, new e: Entry, new l: Link, new s: int, new k: int, new m: int)
      requires n in old(members) && old(Indexed())
      reads this, members, links, n
    {
      && Resurrected(n, e.localIf, e.nbr, e.remoteIf, l, s, k)
      && (forall id | id in old(routers) :: id in routers && routers[id] == old(routers)[id])
      && routers.Keys == old(routers).Keys + {e.nbr}
      && (l in old(links) <==> old(InUse(e.nbr, e.remoteIf)))
      && forall r {:trigger Elsewhere(r, routers[e.nbr], l, s, m)} | r in members && r != n ::
        Elsewhere(r, routers[e.nbr], l, s, m)
    }

    twostate lemma WasBorne(new id: RouterId, new ifindex: int)
      requires old(Graph()) && Graph() && id in routers && forall j | j in old(routers) ::
        j in routers && routers[j] == old(routers)[j]
      ensures old(Indexed()) && (old(InUse(id, ifindex)) <==> Some(ifindex) in BorneBefore(routers[id]))
    {
      hide Graph;
      WasIndexed();
      Found(id);
      if id in old(routers) {
        var r := old(routers)[id];
        forall i | 0 <= i < SLOTS ensures old(Bears(r, i, ifindex)) <==> BorneBefore(r)[i] == Some(ifindex) {
          assert BorneBefore(r)[i] == old(IndexAt(r.intf[i]));
        }
      }
    }

    // What other routers have to spare after an entry is served.
    twostate lemma SlackAfter(new r: Router, new n: Router, new rest: seq<Entry>, new l: Link,
      new s: int, new k: int, new m: int)
      requires old(Graph()) && Graph() && n in old(members) && n in members && r in members && r != n
      requires rest != [] && Separate(rest) && Provided(n, rest[0], l, s, k, m)
      ensures Slack(Borne(r), r.id, rest[1..]) >= Slack(BorneBefore(r), r.id, rest)
      ensures l !in old(links) || r != old(l.att)[s] ==>
        Slack(Borne(r), r.id, rest[1..]) == Slack(BorneBefore(r), r.id, rest)
    {
      hide Graph, Separate, Elsewhere;
      var to := routers[rest[0].nbr];
      Found(rest[0].nbr);
      WasBorne(rest[0].nbr, rest[0].remoteIf);
      assert Elsewhere(r, to, l, s, m);
      SlackElsewhere(r, n, to, l, s, m, rest);
    }

    // An entry served costs no router a slot that it did not need for it.
    twostate lemma RoomAfter(n: Router, new id: RouterId, new entries: seq<Entry>, new rest: seq<Entry>,
      new slack: map<RouterId, int>, new l: Link, new s: int, new k: int, new m: int)
      requires old(Graph()) && Graph() && old(Kept(id, n, slack)) && n in members
      requires rest != [] && |rest| <= |entries| && Separate(rest) && Provided(n, rest[0], l, s, k, m)
      requires old(Room(n, rest, slack, SLOTS - |entries|))
      ensures Room(n, rest[1..], slack, SLOTS - |entries|)
    {
      hide Graph, Separate, Resurrected, Elsewhere;
      WasIndexed();
      forall r | r in members && r != n
        ensures Slack(Borne(r), r.id, rest[1..]) >= if r.id in slack then slack[r.id] else SLOTS - |entries|
      {
        SlackAfter(r, n, rest, l, s, k, m);
        Registered(r);
        if r in old(members) {
          assert BorneBefore(r) == old(Borne(r));
        } else {
          FreeMeans(BorneBefore(r));
          NeedMost(BorneBefore(r), r.id, rest);
        }
      }
    }

    // The link moved for an entry was attached to a router that counts as robbed.
    twostate lemma TightAfter(n: Router, new id: RouterId, new entries: seq<Entry>, new rest: seq<Entry>,
      new slack: map<RouterId, int>, new robbed: set<RouterId>, new l: Link, new s: int, new k: int, new m: int)
      requires old(Graph()) && Graph() && old(Kept(id, n, slack)) && n in members && n.id == id
      requires rest != [] && rest[0] in entries && Separate(rest) && Provided(n, rest[0], l, s, k, m)
      requires old(Tight(robbed, rest, slack)) && old(Robs(id, entries, robbed)) &&
        forall e | e in entries :: e.nbr != id
      ensures Tight(robbed, rest[1..], slack) && Robs(id, entries, robbed)
    {
      hide Graph, Separate, Elsewhere;
      WasIndexed();
      forall r | r in members && r.id in slack && r.id !in robbed
        ensures Slack(Borne(r), r.id, rest[1..]) == slack[r.id]
      {
        Registered(r);
        if l in old(links) {
          assert old(TakenFrom(l, id, entries, robbed));
        }
        assert BorneBefore(r) == old(Borne(r));
        SlackAfter(r, n, rest, l, s, k, m);
      }
      forall x | x in links ensures TakenFrom(x, id, entries, robbed) {
        if x != l { assert old(TakenFrom(x, id, entries, robbed)); }
      }
    }

    twostate lemma BorneStays(r: Router)
      requires Graph() && r in members && r.intf == old(r.intf) && links <= old(links)
      requires forall x {:trigger x.ifindex} | x in links :: x.ifindex == old(x.ifindex)
      ensures Borne(r) == old(Borne(r))
    {
      hide Graph;
      Begin(r);
      forall i | 0 <= i < SLOTS ensures IndexAt(r.intf[i]) == old(IndexAt(r.intf[i])) {
        if r.intf[i].Some? { Plug(r, i); }
      }
    }

    // An end of the link is where it was, or was at the router `id` and is nowhere now.
    static twostate predicate Loosened(x: Link, new id: RouterId)
      reads x
    {
      |x.att| == old(|x.att|) == 2 && x.ifindex == old(x.ifindex) && forall t | 0 <= t < 2 ::
        x.att[t] == old(x.att)[t] || (x.att[t] == null && old(x.att)[t] != null && old(x.att)[t].id == id)
    }

    // The router is there anew, without interfaces; the others are as before.
    twostate lemma Ready(new n: Router, new id: RouterId, new entries: seq<Entry>)
      requires old(Graph()) && Valid() && id in routers && routers[id] == n && n in members && Bare(n)
      requires forall r | r in members && r != n :: r in old(members) && r.intf == old(r.intf)
      requires forall j | j in old(routers) && j != id :: j in routers && routers[j] == old(routers)[j]
      requires links <= old(links) && forall x {:trigger Loosened(x, id)} | x in links :: Loosened(x, id)
      requires old(Robs(id, entries, Robbed(id, entries)))
      ensures Stage(id, n, entries, 0, [], old(SlackOf(id, entries)), old(Robbed(id, entries)))
    {
      hide Graph, Bare, Robbed;
      WasIndexed();
      var slack := old(SlackOf(id, entries));
      NoneYet(n);
      Found(id);
      forall x | x in links ensures x.ifindex == old(x.ifindex) {
        assert Loosened(x, id);
      }
      assert entries[0..] == entries && entries[..0] == [];
      forall r | r in members && r != n
        ensures r.id in slack && Slack(Borne(r), r.id, entries) == slack[r.id]
      {
        Registered(r);
        assert old(routers)[r.id] == r;
        BorneStays(r);
      }
      var robbed := old(Robbed(id, entries));
      forall x | x in links ensures TakenFrom(x, id, entries, robbed) {
        assert Loosened(x, id) && old(TakenFrom(x, id, entries, robbed));
      }
    }

    lemma NoneYet(n: Router)
      requires Bare(n)
      ensures Matches(n, [], [])
    {
    }

    // The far end of the link of an interface, unless it is at the router `id`.
    static ghost function PeerOf(f: Intf, id: RouterId): Option<End>
      reads f.link`att, f.link`ifindex
    {
      if Opposite(f) == null || Opposite(f).id == id then None else Some(End(Opposite(f).id, FarIndex(f)))
    }

    ghost predicate PeerOk(t: Table, id: RouterId, r: Router, i: int)
      reads `links, r`intf, links`att, links`ifindex
    {
      0 <= i < |r.intf| && r.intf[i].Some? ==>
        var f := r.intf[i].value;
        f.link in links && 0 <= f.side < |f.link.ifindex| && r.id in t && f.link.ifindex[f.side] in t[r.id] &&
        t[r.id][f.link.ifindex[f.side]] == PeerOf(f, id)
    }

    // The table shows the interfaces of all routers but `id`.
    ghost predicate Shows(t: Table, id: RouterId)
      reads `routers, `members, `links, members`intf, links`att, links`ifindex
    {
      && (forall j :: j in t <==> j in routers && j != id)
      && (forall r {:trigger Borne(r)} | r in members && r.id != id :: r.id in t && t[r.id].Keys == Values(Borne(r)))
      && (forall r, i {:trigger PeerOk(t, id, r, i)} | r in members && r.id != id && 0 <= i < SLOTS ::
        PeerOk(t, id, r, i))
    }

    // What the table says of an entry.
    lemma ShowsEntry(t: Table, id: RouterId, e: Entry)
      requires Graph() && AllUnique() && Shows(t, id) && e.nbr != id && e.nbr.bits != 0
      ensures Indexed() && (e.nbr in t <==> e.nbr in routers)
      ensures InUse(e.nbr, e.remoteIf) <==> e.nbr in t && e.remoteIf in t[e.nbr]
      ensures (FullAt(e.nbr) <==> e.nbr in t && |t[e.nbr]| == SLOTS) && (e.nbr in t ==> |t[e.nbr]| <= SLOTS)
    {
      hide Graph, Unused, Full;
      IsIndexed();
      if e.nbr in routers {
        var r := routers[e.nbr];
        Found(e.nbr);
        Begin(r);
        BorneMeans(r, e.remoteIf);
        BorneDiffers(r);
        Taken(Borne(r));
        FreeMeans(Borne(r));
        assert |t[r.id]| == |t[r.id].Keys|;
      }
    }

    lemma BorneDiffers(r: Router)
      requires Graph() && r in members && AllUnique()
      ensures |Borne(r)| == SLOTS && Different(Borne(r))
    {
      hide Graph;
      Begin(r);
      assert Unique(r);
      var b := Borne(r);
      forall i, j | 0 <= i < j < |b| ensures b[i] == None || b[i] != b[j] {
        if b[i].Some? { assert !(Bears(r, i, b[i].value) && Bears(r, j, b[i].value)); }
      }
    }

    twostate lemma WasDifferent(new r: Router)
      requires old(Graph()) && old(AllUnique()) && (r in old(members) || |r.intf| == SLOTS)
      ensures |BorneBefore(r)| == SLOTS && Different(BorneBefore(r))
    {
      hide Graph;
      if r in old(members) {
        WasSlot(r, 0);
        assert old(Unique(r));
        var b := BorneBefore(r);
        forall i, j | 0 <= i < j < |b| ensures b[i] == None || b[i] != b[j] {
          if b[i].Some? { assert !(old(Bears(r, i, b[i].value)) && old(Bears(r, j, b[i].value))); }
        }
      }
    }

    // What the table says of an end of a link: the other one.
    twostate lemma ShownPeer(t: Table, new id: RouterId, new to: Router, new l: Link, new s: int)
      requires old(Graph()) && old(Shows(t, id)) && l in old(links) && to in old(members) && to.id != id
      requires 0 <= s < 2 && old(|l.att|) == old(|l.ifindex|) == 2 && old(l.att)[1 - s] == to
      ensures to.id in t && old(l.ifindex)[1 - s] in t[to.id]
      ensures t[to.id][old(l.ifindex)[1 - s]] == old(PeerOf(Intf(l, 1 - s), id))
    {
      hide Graph, PeerOf;
      WasLink(l);
      WasSlot(to, 0);
      assert old(EndOk(l, 1 - s));
      assert old(PeerOk(t, id, to, l.slot[1 - s]));
    }

    twostate lemma ShownLink(t: Table, new id: RouterId, new n: Router, new e: Entry, new l: Link, new s: int,
      new k: int, new m: int)
      requires old(Graph()) && Graph() && n in old(members) && e.nbr != id
      requires Provided(n, e, l, s, k, m) && old(Shows(t, id))
      ensures l in old(links) <==> e.nbr in t && e.remoteIf in t[e.nbr]
    {
      hide Graph, Elsewhere;
      WasIndexed();
      WasBorne(e.nbr, e.remoteIf);
      if e.nbr in old(routers) {
        assert BorneBefore(routers[e.nbr]) == old(Borne(routers[e.nbr]));
      }
    }

    // What the step asks of the table.
    twostate lemma ShownAsked(t: Table, new id: RouterId, new n: Router, new e: Entry, new l: Link, new s: int,
      new k: int, new m: int)
      requires old(Graph()) && Graph() && n in old(members) && e.nbr != id
      requires Provided(n, e, l, s, k, m) && old(Shows(t, id))
      ensures l in old(links) <==> e.nbr in t && e.remoteIf in t[e.nbr]
      ensures l in old(links) ==>
        old(|l.ifindex|) == old(|l.att|) == 2 && Asked(t, e) == old(PeerOf(Intf(l, 1 - s), id)) &&
        (Asked(t, e).Some? ==> Asked(t, e).value.id != e.nbr)
    {
      hide Graph, Elsewhere, Shows;
      ShownLink(t, id, n, e, l, s, k, m);
      if l in old(links) {
        WasIndexed();
        WasLink(l);
        ShownPeer(t, id, old(routers)[e.nbr], l, s);
      }
    }

    twostate lemma RowBefore(t: Table, new id: RouterId, new r: Router, new n: Router, new e: Entry, new l: Link,
      new s: int, new k: int, new m: int)
      requires old(Graph()) && Graph() && r in members && r.id != id && old(Shows(t, id)) && n in old(members)
      requires Provided(n, e, l, s, k, m)
      ensures e.nbr in routers && (r == routers[e.nbr] <==> r.id == e.nbr)
      ensures if r.id in t then r in old(members) && t[r.id].Keys == Values(BorneBefore(r))
        else r == routers[e.nbr] && Values(BorneBefore(r)) == {}
    {
      hide Graph, Resurrected, Elsewhere;
      Found(e.nbr);
      SameId(r, routers[e.nbr]);
      WasIndexed();
      Registered(r);
      if r in old(members) {
        assert BorneBefore(r) == old(Borne(r));
      }
    }

    // The indexes that another router bears, where the table says which link has moved.
    twostate lemma BorneAsked(t: Table, new id: RouterId, new r: Router, new n: Router, new e: Entry, new l: Link,
      new s: int, new k: int, new m: int)
      requires old(Graph()) && Graph() && n in old(members) && n in members && r in members
      requires n.id == id && r.id != id && e.nbr != id && Provided(n, e, l, s, k, m) && old(Shows(t, id))
      ensures var b, to, f := BorneBefore(r), routers[e.nbr], Asked(t, e);
        if r == to && !(e.nbr in t && e.remoteIf in t[e.nbr])
        then 0 <= m < |b| && b[m] == None && Borne(r) == b[m := Some(e.remoteIf)]
        else if r in old(members) && f.Some? && f.value.id == r.id
        then exists y | 0 <= y < |b| :: b[y] == Some(f.value.ifindex) && Borne(r) == b[y := None]
        else Borne(r) == b
      ensures Asked(t, e).Some? ==> Asked(t, e).value.id != e.nbr
    {
      hide Graph, Elsewhere, Shows, BorneBefore, Borne;
      var to := routers[e.nbr];
      Found(e.nbr);
      ShownAsked(t, id, n, e, l, s, k, m);
      assert Elsewhere(r, to, l, s, m);
      BorneElsewhere(r, n, to, e.remoteIf, l, s, m);
      if l in old(links) {
        WasLink(l);
        WasIndexed();
      }
    }

    // The row of another router in the table follows the step.
    twostate lemma RowAfter(t: Table, new id: RouterId, new r: Router, new n: Router, new e: Entry, new l: Link,
      new s: int, new k: int, new m: int)
      requires old(Graph()) && Graph() && old(AllUnique()) && n in old(members) && n in members && r in members
      requires n.id == id && r.id != id && e.nbr != id && Provided(n, e, l, s, k, m) && old(Shows(t, id))
      ensures r.id in Apply(t, e) && Apply(t, e)[r.id].Keys == Values(Borne(r))
    {
      hide Graph, Different, Apply, Shows, BorneBefore, Borne, Provided, AllUnique;
      var b, f := BorneBefore(r), Asked(t, e);
      RowBefore(t, id, r, n, e, l, s, k, m);
      BorneAsked(t, id, r, n, e, l, s, k, m);
      ApplyRow(t, e, r.id);
      if r.id == e.nbr {
        if e.nbr in t && e.remoteIf in t[e.nbr] {
          assert Apply(t, e)[r.id].Keys == t[r.id].Keys;
        } else {
          ValuesAfterTake(b, m, e.remoteIf);
        }
      } else if f.Some? && f.value.id == r.id {
        var y :| 0 <= y < |b| && b[y] == Some(f.value.ifindex) && Borne(r) == b[y := None];
        WasDifferent(r);
        ValuesAfterLoss(b, y);
      }
    }

    // An interface of another link has its far end where it was.
    twostate lemma PeerStays(t: Table, new id: RouterId, new r: Router, new i: int, new n: Router, new e: Entry,
      new l: Link, new s: int, new k: int, new m: int)
      requires old(Graph()) && r in members && r in old(members) && n in old(members) && r.id != id && 0 <= i < SLOTS
      requires Resurrected(n, e.localIf, e.nbr, e.remoteIf, l, s, k) && old(Shows(t, id))
      requires |r.intf| == old(|r.intf|) == SLOTS && r.intf[i].Some? && r.intf[i].value.link != l &&
        r.intf[i] == old(r.intf)[i]
      ensures PeerOk(t, id, r, i)
    {
      hide Graph, Borne, Values;
      assert old(PeerOk(t, id, r, i));
      WasSlot(r, i);
    }

    lemma BorneAt(r: Router, i: int)
      requires 0 <= i < |r.intf|
      ensures |Borne(r)| == |r.intf| && Borne(r)[i] == IndexAt(r.intf[i])
    {
    }

    // The interface of another link does not bear the index of one that is there.
    lemma OtherIndex(r: Router, i: int, l: Link, s: int)
      requires Graph() && AllUnique() && r in members && 0 <= i < SLOTS && |r.intf| == SLOTS
      requires r.intf[i].Some? && r.intf[i].value.link != l && l in links && 0 <= s < 2
      requires |l.att| == |l.ifindex| == 2 && l.att[s] == r
      ensures IndexAt(r.intf[i]) != Some(l.ifindex[s])
    {
      hide Graph, AllUnique, Borne;
      At(l);
      assert EndOk(l, s);
      BorneDiffers(r);
      BorneAt(r, i);
      BorneAt(r, l.slot[s]);
    }

    // The interface at the neighbour leads to the new router.
    lemma PeerOfNew(t: Table, id: RouterId, r: Router, i: int, e: Entry, n: Router, l: Link, s: int)
      requires Graph() && r in members && 0 <= i < SLOTS && |r.intf| == SLOTS && r.intf[i] == Some(Intf(l, 1 - s))
      requires 0 <= s < 2 && |l.att| == |l.ifindex| == 2 && l.att[s] == n && n.id == id
      requires l.ifindex[1 - s] == e.remoteIf && r.id == e.nbr && l in links
      ensures PeerOk(Apply(t, e), id, r, i)
    {
    }

    twostate lemma PeerAfter(t: Table, new id: RouterId, new r: Router, new i: int, new n: Router, new e: Entry,
      new l: Link, new s: int, new k: int, new m: int)
      requires old(Graph()) && Graph() && old(AllUnique()) && AllUnique() && n in old(members) && n in members
      requires r in members && 0 <= i < SLOTS
      requires n.id == id && r.id != id && e.nbr != id && Provided(n, e, l, s, k, m) && old(Shows(t, id))
      ensures PeerOk(Apply(t, e), id, r, i)
    {
      hide Graph, Apply, Shows, Borne, Bears, Unique;
      Begin(r);
      if r.intf[i].Some? {
        Plug(r, i);
        assert Elsewhere(r, routers[e.nbr], l, s, m);
        if r.intf[i].value.link == l {
          Found(e.nbr);
          PeerOfNew(t, id, r, i, e, n, l, s);
        } else {
          RowAfter(t, id, r, n, e, l, s, k, m);
          ShownAsked(t, id, n, e, l, s, k, m);
          ApplyRow(t, e, r.id);
          PeerStays(t, id, r, i, n, e, l, s, k, m);
          if r.id == e.nbr {
            Registered(r);
            OtherIndex(r, i, l, 1 - s);
          }
          BorneAt(r, i);
        }
      }
    }

    // The table is right again after an entry.
    twostate lemma ShowsAfter(t: Table, new id: RouterId, new n: Router, new e: Entry, new l: Link, new s: int,
      new k: int, new m: int)
      requires old(Graph()) && Graph() && old(AllUnique()) && AllUnique() && n in old(members) && n in members
      requires n.id == id && e.nbr != id && Provided(n, e, l, s, k, m) && old(Shows(t, id))
      ensures Shows(Apply(t, e), id)
    {
      hide Graph, Elsewhere, Resurrected, Borne;
      ShownAsked(t, id, n, e, l, s, k, m);
      forall j ensures j in Apply(t, e) <==> j in routers && j != id {
        ApplyRow(t, e, j);
      }
      forall r | r in members && r.id != id ensures r.id in Apply(t, e) && Apply(t, e)[r.id].Keys == Values(Borne(r)) {
        RowAfter(t, id, r, n, e, l, s, k, m);
      }
      forall r, i | r in members && r.id != id && 0 <= i < SLOTS ensures PeerOk(Apply(t, e), id, r, i) {
        PeerAfter(t, id, r, i, n, e, l, s, k, m);
      }
    }

    ghost function Row(r: Router, id: RouterId): map<int, Option<End>>
      reads `links, r`intf, links`att, links`ifindex
    {
      map x | x in Values(Borne(r)) :: PeerOf(r.intf[PlaceOf(Borne(r), x)].value, id)
    }

    // The interfaces of all routers but `id`.
    ghost function TableOf(id: RouterId): Table
      requires Indexed()
      reads `routers, `members, `links, members`intf, links`att, links`ifindex
    {
      map j | j in routers && j != id :: Row(routers[j], id)
    }

    lemma ShowsTable(id: RouterId)
      requires Graph() && AllUnique()
      ensures Indexed() && Shows(TableOf(id), id)
    {
      hide Graph;
      IsIndexed();
      forall r, i | r in members && r.id != id && 0 <= i < SLOTS ensures PeerOk(TableOf(id), id, r, i) {
        Begin(r);
        BorneDiffers(r);
        BorneAt(r, i);
        if r.intf[i].Some? {
          Plug(r, i);
          At(r.intf[i].value.link);
          assert PlaceOf(Borne(r), IndexAt(r.intf[i]).value) == i;
        }
      }
    }

    twostate lemma PeerStill(t: Table, new r: Router, new id: RouterId, new i: int)
      requires Graph() && r in members && r in old(members) && 0 <= i < SLOTS && |r.intf| == SLOTS
      requires r.intf == old(r.intf) && old(PeerOk(t, id, r, i)) && links <= old(links)
      requires forall x {:trigger Loosened(x, id)} | x in links :: Loosened(x, id)
      ensures PeerOk(t, id, r, i)
    {
      hide Graph;
      if r.intf[i].Some? {
        Plug(r, i);
        assert Loosened(r.intf[i].value.link, id);
      }
    }

    // Deleting the router and making it anew does not change the table.
    twostate lemma ShowsStill(t: Table, new id: RouterId, new n: Router)
      requires old(Graph()) && Valid() && id in routers && routers[id] == n && n in members && old(Shows(t, id))
      requires forall r | r in members && r != n :: r in old(members) && r.intf == old(r.intf)
      requires forall j | j in old(routers) && j != id :: j in routers && routers[j] == old(routers)[j]
      requires routers.Keys == old(routers).Keys + {id}
      requires links <= old(links) && forall x {:trigger Loosened(x, id)} | x in links :: Loosened(x, id)
      ensures Shows(t, id)
    {
      hide Graph;
      WasIndexed();
      Found(id);
      forall x | x in links ensures x.ifindex == old(x.ifindex) {
        assert Loosened(x, id);
      }
      forall r | r in members && r.id != id ensures r.id in t && t[r.id].Keys == Values(Borne(r)) {
        BorneStays(r);
      }
      forall r, i | r in members && r.id != id && 0 <= i < SLOTS ensures PeerOk(t, id, r, i) {
        Begin(r);
        assert old(PeerOk(t, id, r, i));
        PeerStill(t, r, id, i);
      }
    }

    // The router is deleted if it is there, and made anew.
    method Anew(id: RouterId, ghost entries: seq<Entry>, ghost t: Table) returns (n: Router)
      requires Valid() && id.bits != 0
      modifies this, members`intf, links`att, links`slot, links`dirn
      ensures Stage(id, n, entries, 0, [], old(SlackOf(id, entries)), old(Robbed(id, entries))) && fresh(n)
      ensures forall r | r in members :: r.fake == Unheard(r, id)
      ensures members <= old(members) + {n} && links <= old(links)
      ensures (old(AllUnique()) ==> AllUnique()) && (old(Shows(t, id)) ==> Shows(t, id))
      ensures forall x {:trigger old(Unrelated(x, id, entries))} | x in old(links) && old(Unrelated(x, id, entries)) ::
        x in links && Undisturbed(x)
    {
      hide Graph, LinkOk, SlotOk, Attached, AllUnique, Unrelated, Cut, Stage, Robs, Robbed, SlackOf, Shows;
      RobbedSuffices(id, entries);
      Delete(id);
      if old(AllUnique()) { ShrunkUnique(); }
      forall x | x in old(links) && old(Unrelated(x, id, entries)) ensures x in links && Undisturbed(x) {
        ghost var att := x.att;
        assert id in old(routers) ==> Cut(x, old(routers[id]), SLOTS, old(x.att), old(x.slot));
        UndisturbedByDelete(x, id, entries);
      }
      forall x | x in links ensures Loosened(x, id) {
        ghost var att := x.att;
        assert id in old(routers) ==> Cut(x, old(routers[id]), SLOTS, old(x.att), old(x.slot));
        LoosenedByDelete(x, id);
      }
      label deleted:
      var created;
      n, created := Obtain(id, false);
      GrownUnique@deleted();
      forall r | r in members ensures r.fake == Unheard(r, id) {
        SameId(r, n);
      }
      Ready(n, id, entries);
      if old(Shows(t, id)) { ShowsStill(t, id, n); }
    }

    twostate lemma LoosenedByDelete(x: Link, new id: RouterId)
      requires old(Graph()) && x in old(links) && x.ifindex == old(x.ifindex)
      requires id !in old(routers) ==> x.att == old(x.att)
      requires id in old(routers) ==> Cut(x, old(routers[id]), SLOTS, old(x.att), old(x.slot))
      ensures Loosened(x, id)
    {
      hide Graph;
      WasLink(x);
      WasIndexed();
    }

    lemma ShowsRoom(t: Table, id: RouterId, e: Entry)
      requires Graph() && AllUnique() && Shows(t, id) && e.nbr != id && e.nbr.bits != 0
      ensures Indexed() && (Accepts(t, e) <==> InUse(e.nbr, e.remoteIf) || !FullAt(e.nbr))
    {
      hide Graph, Shows, AllUnique;
      ShowsEntry(t, id, e);
    }

    // One turn of the loop of ted_create_or_update_node.
    method Append(id: RouterId, n: Router, entries: seq<Entry>, i: int, ghost at: seq<int>,
      ghost slack: map<RouterId, int>, ghost robbed: set<RouterId>, ghost t: Table)
      returns (ok: bool, ghost k: int)
      requires Stage(id, n, entries, i, at, slack, robbed) && i < |entries| && Proper(id, entries) && id.bits != 0
      modifies this, members, links
      ensures forall r | r in members :: r in old(members) || fresh(r)
      ensures forall r | r in members :: r.fake == Unheard(r, id)
      ensures forall x | x in links :: x in old(links) || fresh(x)
      ensures !ok ==>
        id in routers && (Full(routers[id]) || exists e | e in entries :: e.nbr in routers && Full(routers[e.nbr]))
      ensures Fits(entries, slack) ==> ok
      ensures |entries| <= SLOTS && old(AllUnique()) && old(Shows(t, id)) ==> (ok <==> Accepts(t, entries[i]))
      ensures ok && old(AllUnique()) && old(Shows(t, id)) ==> Shows(Apply(t, entries[i]), id)
      ensures ok ==> Stage(id, n, entries, i + 1, at + [k], slack, robbed) && (old(AllUnique()) ==> AllUnique())
      ensures ok ==> forall x {:trigger old(Unrelated(x, id, entries))} | x in old(links) &&
        old(Unrelated(x, id, entries)) :: x in links && Undisturbed(x)
    {
      hide Graph, LinkOk, SlotOk, Attached, EndOk, AllUnique, Bears, Matches, Resurrected, Unrelated, Full, Joins,
        Between, Clashes, Sits, Room, Tight, Robs, Elsewhere, Fits, Shows, Apply, Accepts;
      var e := entries[i];
      assert e in entries && entries[i..][0] == e && entries[i..][1..] == entries[i + 1..];
      assert entries[..i + 1] == entries[..i] + [e];
      NotYet(n, entries[..i], at, e.localIf);
      if Fits(entries, slack) { Vacancy(id, n, entries, i, at, slack, robbed); }
      HasSlot(n, entries[..i], at);
      if AllUnique() && Shows(t, id) { ShowsRoom(t, id, e); }
      var link;
      ghost var s, m, local, remote;
      link, s, k, m, local, remote := Resurrect(id, e.localIf, e.nbr, e.remoteIf);
      ok := link != null;
      if ok {
        Appended(n, id, entries, i, at, slack, robbed, link, s, k, m);
        if old(AllUnique()) && old(Shows(t, id)) { ShowsAfter(t, id, n, e, link, s, k, m); }
        forall x | x in old(links) && old(Unrelated(x, id, entries)) ensures x in links && Undisturbed(x) {
          StillUndisturbed(n, x, id, entries, e, link, s, k);
        }
      }
    }

    twostate lemma Appended(n: Router, new id: RouterId, new entries: seq<Entry>, new i: int, new at: seq<int>,
      new slack: map<RouterId, int>, new robbed: set<RouterId>, new l: Link, new s: int, new k: int, new m: int)
      requires n in old(members) && old(Stage(id, n, entries, i, at, slack, robbed)) && i < |entries| &&
        Proper(id, entries)
      requires Valid() && Provided(n, entries[i], l, s, k, m)
      ensures Stage(id, n, entries, i + 1, at + [k], slack, robbed)
    {
      hide Graph, Room, Tight, Robs, Elsewhere, Matches, Resurrected;
      assert entries[i..][0] == entries[i] && entries[i..][1..] == entries[i + 1..];
      assert entries[..i + 1] == entries[..i] + [entries[i]];
      Found(id);
      Served(n, entries[..i], at, entries[i], l, s, k);
      RoomAfter(n, id, entries, entries[i..], slack, l, s, k, m);
      TightAfter(n, id, entries, entries[i..], slack, robbed, l, s, k, m);
    }

    // All entries are served: there was a slot for each.
    lemma Spent(id: RouterId, n: Router, entries: seq<Entry>, at: seq<int>, slack: map<RouterId, int>,
      robbed: set<RouterId>)
      requires Stage(id, n, entries, |entries|, at, slack, robbed)
      ensures Valid() && id in routers && routers[id] == n && n in members && Matches(n, entries, at)
      ensures |entries| <= SLOTS && forall j | j in slack && j !in robbed :: slack[j] >= 0
    {
      hide Graph, Matches;
      assert entries[..|entries|] == entries && entries[|entries|..] == [];
      HasSlot(n, entries, at);
      forall j | j in slack && j !in robbed ensures slack[j] >= 0 {
        Found(j);
        assert Slack(Borne(routers[j]), j, []) == slack[j];
      }
    }

    lemma AllServe(n: Router, entries: seq<Entry>, at: seq<int>)
      requires Matches(n, entries, at) && |entries| == SLOTS
      ensures Full(n)
    {
      forall j | 0 <= j < |at| ensures 0 <= at[j] < SLOTS {
        assert Serves(n, at[j], entries[j]);
      }
      forall i | 0 <= i < SLOTS ensures n.intf[i].Some? {
        EveryNumber(at, SLOTS, i);
        var j :| 0 <= j < |at| && at[j] == i;
        assert Serves(n, at[j], entries[j]);
      }
    }

    /** ted_create_or_update_node: the router is built anew and gets exactly one
        interface per entry, whose far end is plugged into the neighbour named, under
        the index given.  It succeeds if every router has the slots asked of it, and only
        then but for routers that lose an interface to an entry.  If indexes are unique, it
        succeeds exactly if the table accepts the entries one after the other. */
    method CreateOrUpdate(id: RouterId, entries: seq<Entry>) returns (ok: bool, ghost at: seq<int>)
      requires Valid() && id.bits != 0 && Proper(id, entries)
      modifies this, members, links
      ensures old(Roomy(id, entries)) ==> ok
      ensures ok ==> |entries| <= SLOTS && forall j | j in old(SlackOf(id, entries)) ::
        old(SlackOf(id, entries))[j] >= 0 || j in old(Robbed(id, entries))
      ensures old(Robbed(id, entries)) == {} ==> (ok <==> old(Roomy(id, entries)))
      ensures old(AllUnique()) ==> (ok <==> |entries| <= SLOTS && Enough(old(TableOf(id)), entries))
      ensures !ok ==>
        id in routers && (Full(routers[id]) || exists e | e in entries :: e.nbr in routers && Full(routers[e.nbr]))
      ensures ok ==>
        Valid() && id in routers && fresh(routers[id]) && routers[id] in members && Matches(routers[id], entries, at)
      ensures forall r | r in members :: r in old(members) || fresh(r)
      ensures forall x | x in links :: x in old(links) || fresh(x)
      ensures forall r | r in members :: r.fake == Unheard(r, id)
      ensures ok && old(AllUnique()) ==> AllUnique()
      ensures ok ==> forall x | x in old(links) && old(Unrelated(x, id, entries)) :: x in links && Undisturbed(x)
    {
      hide Graph, AllUnique, Matches, Unrelated, Full, Robs, Robbed, SlackOf, Room, Tight, Shows, TableOf, Apply,
        Accepts, Stage;
      IsIndexed();
      ghost var slack, robbed, first := SlackOf(id, entries), Robbed(id, entries), TableOf(id);
      ghost var t := first;
      if AllUnique() { ShowsTable(id); }
      var n := Anew(id, entries, t);
      at := [];
      var i := 0;
      while i < |entries|
        invariant 0 <= i <= |entries| && Stage(id, n, entries, i, at, slack, robbed) && fresh(n)
        invariant forall r | r in members :: r in old(members) || fresh(r)
        invariant forall r | r in members :: r.fake == Unheard(r, id)
        invariant forall x | x in links :: x in old(links) || fresh(x)
        invariant old(AllUnique()) ==> AllUnique() && Shows(t, id)
        invariant old(AllUnique()) && |entries| <= SLOTS ==> (Enough(first, entries) <==> Enough(t, entries[i..]))
        invariant forall x {:trigger old(Unrelated(x, id, entries))} | x in old(links) &&
          old(Unrelated(x, id, entries)) :: x in links && Undisturbed(x)
      {
        forall x | x in old(links) && old(Unrelated(x, id, entries)) ensures Unrelated(x, id, entries) {
          StaysUnrelated(x, id, entries);
        }
        ghost var k;
        assert entries[i..][0] == entries[i] && entries[i..][1..] == entries[i + 1..];
        ok, k := Append(id, n, entries, i, at, slack, robbed, t);
        if !ok {
          return false, at;
        }
        at, t := at + [k], Apply(t, entries[i]);
        i := i + 1;
      }
      Spent(id, n, entries, at, slack, robbed);
      ok := true;
    }
  }

  // ---------- a link that does not bear what was asked for ----------

  const ONE := RouterId(1)
  const TWO := RouterId(2)
  const THREE := RouterId(3)

  // The only interface of the router is `f`, in slot `k`.
  ghost predicate Only(n: Router, k: int, f: Intf)
    reads n`intf
  {
    |n.intf| == SLOTS && 0 <= k < SLOTS && forall i | 0 <= i < SLOTS :: n.intf[i] == if i == k then Some(f) else None
  }

  lemma OnlyUnique(db: Database, n: Router, k: int, f: Intf)
    requires Only(n, k, f)
    ensures db.Unique(n)
  {
  }

  lemma PairUnique(db: Database, n: Router, a: int, f: Intf, b: int, g: Intf)
    requires |n.intf| == SLOTS && 0 <= a < SLOTS && 0 <= b < SLOTS && a != b && n.intf[a] == Some(f) &&
      n.intf[b] == Some(g)
    requires forall i | 0 <= i < SLOTS && i != a && i != b :: n.intf[i] == None
    requires f.link in db.links && g.link in db.links && 0 <= f.side < |f.link.ifindex| &&
      0 <= g.side < |g.link.ifindex|
    requires f.link.ifindex[f.side] != g.link.ifindex[g.side]
    ensures db.Unique(n)
  {
  }

  method ThreeRouters() returns (db: Database, one: Router, two: Router, three: Router)
    ensures fresh(db) && db.Valid() && db.members == {one, two, three} && one != two && two != three && one != three
    ensures fresh(one) && fresh(two) && fresh(three) && db.links == {}
    ensures ONE in db.routers && db.routers[ONE] == one && TWO in db.routers && db.routers[TWO] == two
    ensures Database.Bare(one) && Database.Bare(two) && Database.Bare(three)
  {
    hide Database.Graph;
    db := new Database();
    var created;
    one, created := db.Obtain(ONE, false);
    two, created := db.Obtain(TWO, false);
    three, created := db.Obtain(THREE, false);
  }

  // Two links: from index 10 of the first router to 20 of the third, and from 40 of the
  // third to 20 of the second.
  method TwoLinks() returns (db: Database, one: Router, two: Router, near: Link, other: Link, ghost k: int,
    ghost m: int)
    ensures fresh(db) && fresh(db.members) && fresh(db.links) && db.Valid() && db.AllUnique()
    ensures ONE in db.routers && db.routers[ONE] == one && TWO in db.routers && db.routers[TWO] == two
    ensures near in db.links && other in db.links && near != other && one in db.members && two in db.members
    ensures near.ifindex == [10, 20] && other.ifindex == [40, 20]
    ensures Only(one, k, Intf(near, 0)) && Only(two, m, Intf(other, 1))
  {
    hide Database.Graph, Database.Unique;
    var three;
    db, one, two, three := ThreeRouters();
    assert one.intf[0] == None && three.intf[0] == None;
    ghost var a, b;
    near, k, a := db.Join(one, 10, three, 20);
    assert two.intf[0] == None && three.intf[if a == 0 then 1 else 0] == None;
    other, b, m := db.Join(three, 40, two, 20);
    OnlyUnique(db, one, k, Intf(near, 0));
    OnlyUnique(db, two, m, Intf(other, 1));
    PairUnique(db, three, a, Intf(near, 1), b, Intf(other, 0));
  }

  /** Asked to join index 10 of the first router and 30 of the second, ted_resurrect_link
      leaves the far end of the link at 10 with its index 20, of which there are now two
      at the second router. */
  method FarIndexStays() returns (db: Database, one: Router, two: Router, link: Link?)
    ensures link != null && db.Valid() && db.Between(link, one, two) && !db.Joins(link, one, 10, two, 30) &&
      !db.AllUnique()
  {
    hide Database.Graph, Database.AllUnique, Database.Joins, Database.Between;
    var near, other;
    ghost var k, m, s, t, u, local, remote;
    db, one, two, near, other, k, m := TwoLinks();
    assert one.intf[if k == 0 then 1 else 0] == None && two.intf[if m == 0 then 1 else 0] == None;
    assert db.Bears(one, k, 10);
    assert db.Bears(two, m, 20);
    assert db.Clashes(two, 20, Intf(near, 1));
    assert db.Unused(two, 30);
    assert forall f | db.Sits(one, 10, f) :: f == Intf(near, 0);
    link, s, t, u, local, remote := db.Resurrect(ONE, 10, TWO, 30);
  }

  // ---------- a router that cannot be connected ----------

  const ELEVEN := seq(SLOTS, i => Entry(i, THREE, i))

  // Asks for an interface of the third router; and for a new one at the second.
  const TAKE := Entry(1, THREE, 0)
  const PLUG := Entry(2, TWO, 99)

  // The second router is full of links to the third one.
  method Crowded() returns (db: Database, ghost at: seq<int>)
    ensures fresh(db) && fresh(db.members) && fresh(db.links) && db.Valid() && db.AllUnique()
    ensures TWO in db.routers && db.Matches(db.routers[TWO], ELEVEN, at)
  {
    hide Database.Valid, Database.Matches, Database.Robbed, Database.Roomy, Database.AllUnique;
    db := new Database();
    NoRouters(db);
    var ok;
    ok, at := db.CreateOrUpdate(TWO, ELEVEN);
  }

  lemma NoRouters(db: Database)
    requires db.Valid() && db.routers == map[]
    ensures db.Indexed() && db.Roomy(TWO, ELEVEN) && db.AllUnique()
  {
  }

  // What the table shows then.
  predicate CrowdedTable(t: Table) {
    TWO in t && THREE in t && |t[TWO]| == SLOTS && 0 in t[TWO] && 99 !in t[TWO] && 0 in t[THREE] &&
    t[THREE][0] == Some(End(TWO, 0))
  }

  lemma ShowsCrowded(db: Database, at: seq<int>)
    requires db.Valid() && db.AllUnique() && TWO in db.routers && db.Matches(db.routers[TWO], ELEVEN, at)
    ensures db.Indexed() && CrowdedTable(db.TableOf(ONE))
  {
    hide Database.Graph, Database.TableOf;
    db.ShowsTable(ONE);
    var t, two := db.TableOf(ONE), db.routers[TWO];
    db.Found(TWO);
    db.NotYet(two, ELEVEN, at, 99);
    db.AllServe(two, ELEVEN, at);
    db.ShowsEntry(t, ONE, PLUG);
    assert db.Serves(two, at[0], ELEVEN[0]);
    var l, s := two.intf[at[0]].value.link, two.intf[at[0]].value.side;
    db.Plug(two, at[0]);
    db.Found(THREE);
    db.At(l);
    db.Begin(two);
    assert db.PeerOk(t, ONE, two, at[0]);
    assert db.PeerOk(t, ONE, db.routers[THREE], l.slot[1 - s]);
  }

  lemma OrderAt(t: Table)
    requires CrowdedTable(t)
    ensures !Enough(t, [PLUG]) && Enough(t, [TAKE, PLUG]) && !Enough(t, [PLUG, TAKE])
  {
    var u := Apply(t, TAKE);
    ApplyRow(t, TAKE, TWO);
    assert [TAKE, PLUG][1..] == [PLUG] && [PLUG][1..] == [];
    assert u[TWO] == t[TWO] - {0} && |u[TWO]| < SLOTS by {
      assert u[TWO].Keys == t[TWO].Keys - {0};
    }
    assert Accepts(u, PLUG);
  }

  lemma OrderOfTwo()
    ensures forall t | CrowdedTable(t) ::
      !Enough(t, [PLUG]) && Enough(t, [TAKE, PLUG]) && !Enough(t, [PLUG, TAKE])
  {
    forall t | CrowdedTable(t)
      ensures !Enough(t, [PLUG]) && Enough(t, [TAKE, PLUG]) && !Enough(t, [PLUG, TAKE])
    {
      OrderAt(t);
    }
  }

  // The first router is connected to the others, by entries of which the table is known to decide.
  method Connect(entries: seq<Entry>, ghost enough: bool) returns (ok: bool)
    requires Proper(ONE, entries) && |entries| <= SLOTS
    requires forall t | CrowdedTable(t) :: Enough(t, entries) <==> enough
    ensures ok == enough
  {
    hide Database.Valid, Database.Matches, Database.Robbed, Database.Roomy, Database.AllUnique, Database.TableOf;
    var db;
    ghost var at;
    db, at := Crowded();
    ShowsCrowded(db, at);
    ok, at := db.CreateOrUpdate(ONE, entries);
  }

  /** A full router is named under a new index: there is no slot for it. */
  method FullNeighbour() returns (ok: bool)
    ensures !ok
  {
    OrderOfTwo();
    ok := Connect([PLUG], false);
  }

  /** The order of the entries decides: the one that takes a link away from the full
      router makes room for the one that plugs in a new link there. */
  method OrderDecides() returns (takeFirst: bool, plugFirst: bool)
    ensures takeFirst && !plugFirst
  {
    OrderOfTwo();
    takeFirst := Connect([TAKE, PLUG], true);
    plugFirst := Connect([PLUG, TAKE], false);
  }
}
