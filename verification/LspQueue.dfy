/** The LSP transmit queues of Layer5/isis/isis_flood.c: one queue per interface,
    drained by a job that runs later, while a packet may wait in many queues. */
module LspQueue {

  class Lsp {
    var eligible: bool
    var floodCount: int
    var refs: int

    constructor (eligible: bool)
      ensures this.eligible == eligible && floodCount == 0 && refs == 1
    {
      this.eligible, floodCount, refs := eligible, 0, 1;
    }
  }

  class Iface {
    var enabled: bool
    var queue: seq<Lsp>
    var job: bool

    constructor ()
      ensures !enabled && queue == [] && !job
    {
      enabled, queue, job := false, [], false;
    }
  }

  // How often the packet waits in a queue.
  function Times(q: seq<Lsp>, p: Lsp): nat {
    if q == [] then 0 else (if q[0] == p then 1 else 0) + Times(q[1..], p)
  }

  lemma {:induction false} TimesJoin(a: seq<Lsp>, b: seq<Lsp>, p: Lsp)
    ensures Times(a + b, p) == Times(a, p) + Times(b, p)
  {
    if a == [] {
      assert a + b == b;
    } else {
      TimesJoin(a[1..], b, p);
      assert (a + b)[1..] == a[1..] + b;
    }
  }

  lemma {:induction false} TimesPositive(q: seq<Lsp>, p: Lsp)
    ensures Times(q, p) > 0 <==> p in q
  {
    if q != [] {
      TimesPositive(q[1..], p);
    }
  }

  // How often it waits in all the queues together.
  function Total(qs: seq<seq<Lsp>>, p: Lsp): nat {
    if qs == [] then 0 else Times(qs[0], p) + Total(qs[1..], p)
  }

  lemma {:induction false} TotalUpdate(qs: seq<seq<Lsp>>, i: nat, q: seq<Lsp>, p: Lsp)
    requires i < |qs|
    ensures Total(qs[i := q], p) == Total(qs, p) - Times(qs[i], p) + Times(q, p) && Times(qs[i], p) <= Total(qs, p)
  {
    if i > 0 {
      TotalUpdate(qs[1..], i - 1, q, p);
      assert qs[i := q][1..] == qs[1..][i - 1 := q];
    }
  }

  lemma {:induction false} NoneWaiting(qs: seq<seq<Lsp>>, p: Lsp)
    requires forall q | q in qs :: p !in q
    ensures Total(qs, p) == 0
  {
    if qs != [] {
      NoneWaiting(qs[1..], p);
      TimesPositive(qs[0], p);
    }
  }

  // The packets of a queue that are sent out of an interface with an adjacency up.
  function Eligible(q: seq<Lsp>): seq<Lsp>
    reads q`eligible
  {
    if q == [] then [] else Eligible(q[..|q| - 1]) + if q[|q| - 1].eligible then [q[|q| - 1]] else []
  }

  lemma EligibleNone()
    ensures Eligible([]) == []
  {
  }

  lemma EligibleNext(q: seq<Lsp>, k: nat)
    requires k < |q|
    ensures Eligible(q[..k + 1]) == Eligible(q[..k]) + if q[k].eligible then [q[k]] else []
  {
    assert q[..k + 1][..k] == q[..k];
  }

  ghost function QueuesOf(fs: seq<Iface>): (qs: seq<seq<Lsp>>)
    reads fs`queue
    ensures |qs| == |fs| && forall i | 0 <= i < |fs| :: qs[i] == fs[i].queue
  {
    if fs == [] then [] else [fs[0].queue] + QueuesOf(fs[1..])
  }

  class Node {
    const ifs: seq<Iface>
    ghost var packets: set<Lsp>
    // The interfaces for which the dispatcher has a transmit job.
    ghost var jobs: set<Iface>
    // How many other holders a packet has.
    ghost var held: map<Lsp, nat>

    ghost function Held(p: Lsp): nat
      reads `held
    {
      if p in held then held[p] else 0
    }

    ghost function Queues(): (qs: seq<seq<Lsp>>)
      reads ifs`queue
      ensures |qs| == |ifs| && forall i | 0 <= i < |ifs| :: qs[i] == ifs[i].queue
    {
      QueuesOf(ifs)
    }

    /** The flood count is the number of queue entries; each of them holds a reference, as
        every other holder does, and there are no more. */
    ghost predicate Counted(p: Lsp)
      reads `held, ifs`queue, p`floodCount, p`refs
    {
      p.floodCount == Total(Queues(), p) && p.refs == p.floodCount + Held(p) >= 1
    }

    // A queue that is not empty has its job, and only enabled interfaces have either.
    ghost predicate Served(f: Iface)
      reads `jobs, `packets, f
    {
      && (f.job <==> f in jobs) && (f.enabled && f.queue != [] ==> f.job) && (!f.enabled ==> f.queue == [] && !f.job)
      && forall p | p in f.queue :: p in packets
    }

    // The invariant, except that the queue of `but` is being emptied without a job.
    ghost predicate ValidBut(but: Iface?)
      reads this, ifs, packets
    {
      && (forall i, j | 0 <= i < j < |ifs| :: ifs[i] != ifs[j])
      && (forall p {:trigger Counted(p)} | p in packets :: Counted(p))
      && (forall f {:trigger Served(f)} | f in ifs && f != but :: Served(f))
      && (but != null ==> but in ifs && (but.job <==> but in jobs) && forall p | p in but.queue :: p in packets)
    }

    ghost predicate Valid()
      reads this, ifs, packets
    {
      ValidBut(null)
    }

    constructor (ifs: seq<Iface>)
      requires forall i, j | 0 <= i < j < |ifs| :: ifs[i] != ifs[j]
      requires forall f | f in ifs :: !f.enabled && f.queue == [] && !f.job
      ensures Valid() && this.ifs == ifs && packets == {} && jobs == {} && held == map[]
    {
      this.ifs, packets, jobs, held := ifs, {}, {}, map[];
    }

    // The queue of `f` is now `q`: the totals follow.
    twostate lemma Requeued(f: Iface, new p: Lsp)
      requires f in ifs && (forall i, j | 0 <= i < j < |ifs| :: ifs[i] != ifs[j])
      requires forall g | g in ifs && g != f :: g.queue == old(g.queue)
      ensures Total(Queues(), p) == Total(old(Queues()), p) - Times(old(f.queue), p) + Times(f.queue, p)
      ensures Times(old(f.queue), p) <= Total(old(Queues()), p)
    {
      var i :| 0 <= i < |ifs| && ifs[i] == f;
      TotalUpdate(old(Queues()), i, f.queue, p);
      assert Queues() == old(Queues())[i := f.queue];
    }

    /** isis_queue_lsp_pkt_for_transmission. */
    method Queue(f: Iface, p: Lsp)
      requires Valid() && f in ifs && p in packets
      modifies `jobs, f`queue, f`job, p`floodCount, p`refs
      ensures Valid()
      ensures f.queue == if f.enabled && p.eligible then old(f.queue) + [p] else old(f.queue)
    {
      if !f.enabled {
        return;
      }
      if !p.eligible {
        return;
      }
      f.queue := f.queue + [p];
      p.refs := p.refs + 1;
      p.floodCount := p.floodCount + 1;
      if !f.job {
        f.job := true;
        jobs := jobs + {f};
      }
      forall x | x in packets ensures Counted(x) {
        assert old(Counted(x));
        Requeued(f, x);
        TimesJoin(old(f.queue), [p], x);
      }
      forall g | g in ifs ensures Served(g) {
        assert old(Served(g));
      }
    }

    lemma Entry(f: Iface, p: Lsp)
      requires ValidBut(f) && p in f.queue
      ensures p in packets && Counted(p) && p.floodCount > 0
    {
      assert Counted(p);
      var i :| 0 <= i < |ifs| && ifs[i] == f;
      TotalUpdate(Queues(), i, [], p);
      TimesPositive(f.queue, p);
    }

    // The first entry of the queue of `f` has gone, with its count and its reference.
    twostate predicate Dequeued(f: Iface, p: Lsp)
      reads this, ifs, packets, p
    {
      && f in ifs && old(f.queue) != [] && old(f.queue[0]) == p && f.queue == old(f.queue[1..]) && p in old(packets)
      && jobs == old(jobs) && held == old(held) && p.floodCount == old(p.floodCount) - 1 && p.refs == old(p.refs) - 1
      && packets == (if p.refs == 0 then old(packets) - {p} else old(packets))
      && (forall x | x in packets && x != p :: x.floodCount == old(x.floodCount) && x.refs == old(x.refs))
      && (forall g | g in ifs && g != f :: g.queue == old(g.queue))
      && (forall g | g in ifs :: g.job == old(g.job) && g.enabled == old(g.enabled))
    }

    twostate lemma DequeuedCounts(f: Iface, new p: Lsp)
      requires old(ValidBut(f)) && f in ifs && p in old(packets) && Dequeued(f, p)
      ensures (forall x {:trigger Counted(x)} | x in packets :: Counted(x)) && p.floodCount == Total(Queues(), p)
    {
      assert old(Counted(p));
      Requeued(f, p);
      forall x | x in packets ensures Counted(x) {
        assert old(Counted(x));
        Requeued(f, x);
      }
    }

    twostate lemma DequeuedServed(f: Iface, new p: Lsp)
      requires old(ValidBut(f)) && f in ifs && p in old(packets) && Dequeued(f, p) &&
        p.floodCount == Total(Queues(), p) && old(p.floodCount) <= old(p.refs)
      ensures (forall g {:trigger Served(g)} | g in ifs && g != f :: Served(g)) && forall x | x in f.queue ::
        x in packets
    {
      Gone(p);
      forall g | g in ifs && g != f ensures Served(g) {
        assert old(Served(g));
      }
    }

    /** The body of both loops: the first entry leaves the queue with its count and
        its reference.  The assertion that the count is not zero never fails, and a
        packet is given up with its last reference only, so never while it waits. */
    method Dequeue(f: Iface) returns (p: Lsp)
      requires ValidBut(f) && f.queue != []
      modifies `packets, f`queue, f.queue`floodCount, f.queue`refs
      ensures ValidBut(f) && p == old(f.queue[0]) && f.queue == old(f.queue[1..]) && packets <= old(packets)
      ensures p.floodCount == old(p.floodCount) - 1 >= 0 && p.refs == old(p.refs) - 1 && (p in packets <==> p.refs > 0)
      ensures Held(p) > 0 ==> p in packets
      ensures forall x | x in old(packets) && x != p ::
        x in packets && x.floodCount == old(x.floodCount) && x.refs == old(x.refs)
    {
      hide Counted, Served;
      p := f.queue[0];
      Entry(f, p);
      References(p);
      f.queue := f.queue[1..];
      assert p.floodCount != 0;
      p.floodCount := p.floodCount - 1;
      assert p.refs != 0;
      p.refs := p.refs - 1;
      if p.refs == 0 {
        packets := packets - {p};
      }
      DequeuedCounts(f, p);
      DequeuedServed(f, p);
    }

    lemma References(p: Lsp)
      requires Counted(p)
      ensures p.floodCount + Held(p) == p.refs >= 1
    {
    }

    // A packet whose count is zero waits nowhere.
    lemma Gone(p: Lsp)
      requires p.floodCount == Total(Queues(), p)
      ensures p.floodCount == 0 ==> forall f | f in ifs :: p !in f.queue
    {
      forall f | f in ifs ensures p in f.queue ==> p.floodCount > 0 {
        var i :| 0 <= i < |ifs| && ifs[i] == f;
        TotalUpdate(Queues(), i, [], p);
        TimesPositive(f.queue, p);
      }
    }

    lemma Resume(f: Iface)
      requires ValidBut(f) && f.queue == [] && (!f.enabled ==> !f.job)
      ensures Valid()
    {
    }

    lemma Enter(f: Iface)
      requires Valid() && f in ifs
      ensures ValidBut(f) && Served(f)
    {
      assert Served(f);
    }

    // The job of `f` is no longer scheduled.
    method Unschedule(f: Iface)
      requires ValidBut(f)
      modifies `jobs, f`job
      ensures ValidBut(f) && !f.job && jobs == old(jobs) - {f}
    {
      hide Counted;
      f.job := false;
      jobs := jobs - {f};
      forall g | g in ifs && g != f ensures Served(g) {
        assert old(Served(g));
      }
      forall x | x in packets ensures Counted(x) {
        assert old(Counted(x));
      }
    }

    /** isis_lsp_xmit_job, run by the dispatcher: the queue is emptied in order, and
        what is still eligible goes out if an adjacency is up. */
    method Transmit(f: Iface, adjacencyUp: bool) returns (sent: seq<Lsp>)
      requires Valid() && f in ifs && f in jobs
      modifies this, f`queue, f`job, f.queue`floodCount, f.queue`refs
      ensures Valid() && f.queue == [] && !f.job && jobs == old(jobs) - {f} && held == old(held) &&
        packets <= old(packets)
      ensures forall p | p in old(packets) && Held(p) > 0 :: p in packets
      ensures sent == if old(f.enabled) && adjacencyUp then Eligible(old(f.queue)) else []
    {
      hide Valid, ValidBut, Eligible;
      sent := [];
      EligibleNone();
      Enter(f);
      Unschedule(f);
      if !f.enabled {
        Resume(f);
        return;
      }
      ghost var q, k := f.queue, 0;
      while f.queue != []
        invariant k <= |q| && f.queue == q[k..] && ValidBut(f) && !f.job && jobs == old(jobs) - {f}
        invariant held == old(held) && packets <= old(packets)
        invariant forall p | p in old(packets) && Held(p) > 0 :: p in packets
        invariant sent == if adjacencyUp then Eligible(q[..k]) else []
        decreases |f.queue|
      {
        assert f.queue[0] == q[k];
        EligibleNext(q, k);
        var p := Dequeue(f);
        if adjacencyUp && p.eligible {
          sent := sent + [p];
        }
        k := k + 1;
      }
      assert q[..k] == q;
      Resume(f);
    }

    /** isis_intf_purge_lsp_xmit_queue. */
    method Purge(f: Iface)
      requires Valid() && f in ifs
      modifies this, f`queue, f`job, f.queue`floodCount, f.queue`refs
      ensures Valid() && f.queue == [] && !f.job && jobs == old(jobs) - {f} && held == old(held)
    {
      hide Valid, ValidBut;
      Enter(f);
      if !f.enabled {
        assert jobs == jobs - {f};
        return;
      }
      ghost var q, k := f.queue, 0;
      while f.queue != []
        invariant k <= |q| && f.queue == q[k..] && ValidBut(f) && jobs == old(jobs) && f.job == old(f.job)
        invariant held == old(held)
        decreases |f.queue|
      {
        assert f.queue[0] == q[k];
        var p := Dequeue(f);
        k := k + 1;
      }
      if f.job {
        Unschedule(f);
      } else {
        assert jobs == jobs - {f};
      }
      Resume(f);
    }

    /** isis_disable_protocol_on_interface, with the assertion of
        isis_check_and_delete_intf_info that nothing is left. */
    method Disable(f: Iface)
      requires Valid() && f in ifs
      modifies this, f, f.queue`floodCount, f.queue`refs
      ensures Valid() && !f.enabled && f.queue == [] && !f.job && held == old(held)
    {
      Enter(f);
      if !f.enabled {
        return;
      }
      Purge(f);
      assert f.queue == [] && !f.job;
      Enter(f);
      label purged:
      f.enabled := false;
      Idle@purged(f);
    }

    twostate lemma Idle(f: Iface)
      requires old(Valid()) && f in ifs && old(f.queue) == [] && !old(f.job) && f.queue == [] && !f.job
      requires forall g | g in ifs && g != f ::
        g.queue == old(g.queue) && g.job == old(g.job) && g.enabled == old(g.enabled)
      requires jobs == old(jobs) && packets == old(packets) && held == old(held)
      requires forall p | p in packets :: p.floodCount == old(p.floodCount) && p.refs == old(p.refs)
      ensures Valid()
    {
      assert Queues() == old(Queues());
      forall x | x in packets ensures Counted(x) {
        assert old(Counted(x));
      }
      forall g | g in ifs ensures Served(g) {
        assert old(Served(g));
      }
    }

    method Enable(f: Iface)
      requires Valid() && f in ifs
      modifies f`enabled
      ensures Valid() && f.enabled && f.queue == old(f.queue)
    {
      Enter(f);
      assert !f.enabled ==> f.queue == [] && !f.job;
      f.enabled := true;
      forall g | g in ifs ensures Served(g) {
        assert old(Served(g));
      }
    }

    /** A new packet, held by whoever made it. */
    method Create(eligible: bool) returns (p: Lsp)
      requires Valid()
      modifies `packets, `held
      ensures Valid() && fresh(p) && p.eligible == eligible && packets == old(packets) + {p}
      ensures held == old(held)[p := 1]
    {
      p := new Lsp(eligible);
      forall q | q in Queues() ensures p !in q {
        var i :| 0 <= i < |ifs| && q == ifs[i].queue;
        assert Served(ifs[i]);
      }
      NoneWaiting(Queues(), p);
      packets, held := packets + {p}, held[p := 1];
      forall x | x in packets ensures Counted(x) {
        assert x != p ==> old(Counted(x));
      }
      forall g | g in ifs ensures Served(g) {
        assert old(Served(g));
      }
    }

    /** isis_mark_isis_lsp_pkt_flood_ineligible: what waits keeps waiting, and is dropped
        by the transmit job. */
    method MarkIneligible(p: Lsp)
      requires Valid() && p in packets
      modifies p`eligible
      ensures Valid() && !p.eligible && jobs == old(jobs) && Queues() == old(Queues())
    {
      p.eligible := false;
      forall x | x in packets ensures Counted(x) {
        assert old(Counted(x));
      }
      forall g | g in ifs ensures Served(g) {
        assert old(Served(g));
      }
    }

    // isis_ref_isis_pkt and isis_deref_isis_pkt by other holders of the packet.
    method Hold(p: Lsp)
      requires Valid() && p in packets
      modifies `held, p`refs
      ensures Valid() && p.refs == old(p.refs) + 1 && held == old(held)[p := old(Held(p)) + 1]
    {
      p.refs := p.refs + 1;
      held := held[p := Held(p) + 1];
      forall x | x in packets ensures Counted(x) {
        assert old(Counted(x));
      }
    }

    method Release(p: Lsp)
      requires Valid() && p in packets && Held(p) > 0
      modifies `packets, `held, p`refs
      ensures Valid() && p.refs == old(p.refs) - 1 && held == old(held)[p := old(Held(p)) - 1]
      ensures packets == if p.refs == 0 then old(packets) - {p} else old(packets)
    {
      assert Counted(p);
      p.refs := p.refs - 1;
      held := held[p := Held(p) - 1];
      if p.refs == 0 {
        Zero(p);
        packets := packets - {p};
      }
      forall x | x in packets ensures Counted(x) {
        assert old(Counted(x));
      }
      forall g | g in ifs ensures Served(g) {
        assert old(Served(g));
      }
    }

    twostate lemma Zero(p: Lsp)
      requires old(Valid()) && p in old(packets) && p.floodCount == old(p.floodCount) < old(p.refs) && old(p.refs) == 1
      requires Queues() == old(Queues())
      ensures forall f | f in ifs :: p !in f.queue
    {
      assert old(Counted(p));
      Gone(p);
    }

    /** A packet is kept only as long as somebody holds it or it waits somewhere. */
    lemma NoLeak(p: Lsp)
      requires Valid() && p in packets
      ensures Held(p) > 0 || exists f :: f in ifs && p in f.queue
    {
      assert Counted(p);
      if forall f | f in ifs :: p !in f.queue {
        forall q | q in Queues() ensures p !in q {
          var i :| 0 <= i < |ifs| && q == ifs[i].queue;
        }
        NoneWaiting(Queues(), p);
      }
    }

    /** The dispatcher runs all transmit jobs: nothing waits any more, and exactly what
        somebody holds is left. */
    method TransmitAll(adjacencyUp: bool)
      requires Valid()
      modifies this, ifs`queue, ifs`job, packets`floodCount, packets`refs
      ensures Valid() && held == old(held) && forall f | f in ifs :: f.queue == []
      ensures packets <= old(packets) && forall p | p in old(packets) :: p in packets <==> Held(p) > 0
    {
      var i := 0;
      while i < |ifs|
        invariant 0 <= i <= |ifs| && Valid() && held == old(held) && packets <= old(packets)
        invariant forall j | 0 <= j < i :: ifs[j].queue == []
        invariant forall p | p in old(packets) && Held(p) > 0 :: p in packets
      {
        Enter(ifs[i]);
        if ifs[i].job {
          var sent := Transmit(ifs[i], adjacencyUp);
        }
        i := i + 1;
      }
      forall p | p in packets ensures Held(p) > 0 {
        NoLeak(p);
      }
    }

    // ITERATE over the interfaces outside groups in isis_schedule_lsp_flood.
    method Flood(p: Lsp, exempted: Iface?)
      requires Valid() && p in packets
      modifies `jobs, ifs`queue, ifs`job, p`floodCount, p`refs
      ensures Valid()
      ensures forall f | f in ifs ::
        f.queue == if f.enabled && f != exempted && p.eligible then old(f.queue) + [p] else old(f.queue)
    {
      if !p.eligible {
        return;
      }
      var i := 0;
      while i < |ifs|
        invariant 0 <= i <= |ifs| && Valid() && p in packets && p.eligible
        invariant forall j | 0 <= j < i ::
          ifs[j].queue == if ifs[j].enabled && ifs[j] != exempted then old(ifs[j].queue) + [p] else old(ifs[j].queue)
        invariant forall j | i <= j < |ifs| :: ifs[j].queue == old(ifs[j].queue)
      {
        if ifs[i].enabled && ifs[i] != exempted {
          Queue(ifs[i], p);
        }
        i := i + 1;
      }
    }
  }
}
