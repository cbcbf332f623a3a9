/** DDCP query flooding (Layer5/ddcp/ddcp.c) on a fixed network.

    The methods of `Node` are what one router does; the functions they are proved
    against make up the step system over a whole network, in which the packets in
    flight form a multiset: they may be delivered in any order. */
module Ddcp {
  import opened Common

  // An interface slot: is DDCP enabled there, does it work in L3 mode, and which
  // slot of which router is at the other end of the link.
  datatype Intf = Intf(enabled: bool, l3: bool, peer: int, peerPort: nat)

  datatype Query = Query(origin: int, num: nat)

  datatype Packet = Packet(to: int, port: int, query: Query)

  // ---------- one router ----------

  predicate Usable(ports: seq<Option<Intf>>, i: int) {
    0 <= i < |ports| && ports[i].Some? && ports[i].value.enabled && ports[i].value.l3
  }

  // The slots in front of the first empty one: the flood loop returns there.
  function Used(ports: seq<Option<Intf>>): (n: nat)
    ensures n <= |ports| && (forall i | 0 <= i < n :: ports[i].Some?) && (n < |ports| ==> ports[n].None?)
  {
    if ports == [] || ports[0].None? then 0 else 1 + Used(ports[1..])
  }

  // What a flood over the first `n` slots sends.
  function Out(ports: seq<Option<Intf>>, n: nat, exempted: int, q: Query): multiset<Packet>
    requires n <= Used(ports)
  {
    if n == 0 then multiset{} else
      Out(ports, n - 1, exempted, q) +
      if n - 1 != exempted && Usable(ports, n - 1)
        then multiset{Packet(ports[n - 1].value.peer, ports[n - 1].value.peerPort, q)} else multiset{}
  }

  lemma OutNext(ports: seq<Option<Intf>>, i: nat, exempted: int, q: Query)
    requires i <= Used(ports)
    ensures Out(ports, 0, exempted, q) == multiset{}
    ensures i < Used(ports) ==>
              Out(ports, i + 1, exempted, q) == Out(ports, i, exempted, q) +
              if i != exempted && Usable(ports, i)
                then multiset{Packet(ports[i].value.peer, ports[i].value.peerPort, q)} else multiset{}
  {
  }

  datatype Verdict = Abort | Reject | Accept

  // The decision of ddcp_db_should_process_ddcp_query on the stored number, -1 for none.
  function Judge(self: int, stored: int, enabled: bool, q: Query): Verdict {
    if !enabled then Reject
    else if q.origin == self && stored < 0 then Abort
    else if stored < q.num then Accept
    else Reject
  }

  // The number stored for an originator: the first entry counts, -1 for none.
  function Find(queries: seq<Query>, origin: int): int {
    if queries == [] then -1
    else if queries[0].origin == origin then queries[0].num
    else Find(queries[1..], origin)
  }

  lemma {:induction false} Replaced(queries: seq<Query>, i: nat, num: nat, origin: int)
    requires i < |queries| && forall j | 0 <= j < i :: queries[j].origin != queries[i].origin
    ensures Find(queries[i := queries[i].(num := num)], origin) ==
      if origin == queries[i].origin then num else Find(queries, origin)
  {
    if i > 0 {
      Replaced(queries[1..], i - 1, num, origin);
      assert queries[i := queries[i].(num := num)][1..] == queries[1..][i - 1 := queries[i].(num := num)];
    }
  }

  class Node {
    const addr: int
    const ports: seq<Option<Intf>>
    var queries: seq<Query>

    function Stored(origin: int): int
      reads this
    {
      Find(queries, origin)
    }

    constructor (addr: int, ports: seq<Option<Intf>>)
      ensures this.addr == addr && this.ports == ports && forall o :: Stored(o) == -1
    {
      this.addr, this.ports, queries := addr, ports, [];
    }

    // ddcp_get_ddcp_db_query_info: where the entry is.
    method Lookup(origin: int) returns (at: int)
      ensures -1 <= at < |queries| && (at == -1 <==> Stored(origin) == -1)
      ensures at >= 0 ==>
        queries[at].origin == origin && queries[at].num == Stored(origin) && forall j | 0 <= j < at ::
        queries[j].origin != origin
    {
      at := 0;
      while at < |queries|
        invariant 0 <= at <= |queries| && Stored(origin) == Find(queries[at..], origin)
        invariant forall j | 0 <= j < at :: queries[j].origin != origin
      {
        if queries[at].origin == origin {
          return;
        }
        at := at + 1;
      }
      at := -1;
    }

    /** ddcp_update_ddcp_db_self_query_info: 0 the first time, one more afterwards. */
    method NextOwn() returns (num: nat)
      modifies this
      ensures num == old(Stored(addr)) + 1 && Stored(addr) == num
      ensures forall o | o != addr :: Stored(o) == old(Stored(o))
    {
      var at := Lookup(addr);
      if at == -1 {
        queries := [Query(addr, 0)] + queries;
        return 0;
      }
      forall o { Replaced(queries, at, queries[at].num + 1, o); }
      queries := queries[at := queries[at].(num := queries[at].num + 1)];
      num := queries[at].num;
    }

    /** ddcp_db_should_process_ddcp_query. */
    method ShouldProcess(iif: nat, q: Query) returns (v: Verdict)
      requires iif < |ports| && ports[iif].Some?
      modifies this
      ensures v == Judge(addr, old(Stored(q.origin)), ports[iif].value.enabled, q)
      ensures Stored(q.origin) == if v.Accept? then q.num else old(Stored(q.origin))
      ensures forall o | o != q.origin :: Stored(o) == old(Stored(o))
    {
      if !ports[iif].value.enabled {
        return Reject;
      }
      var at := Lookup(q.origin);
      if q.origin == addr && at == -1 {
        return Abort;
      }
      if at == -1 {
        queries := [q] + queries;
        return Accept;
      }
      if queries[at].num < q.num {
        forall o { Replaced(queries, at, q.num, o); }
        queries := queries[at := queries[at].(num := q.num)];
        return Accept;
      }
      return Reject;
    }

    /** ddcp_flood_ddcp_query_out. */
    method Flood(exempted: int, q: Query) returns (sent: multiset<Packet>)
      ensures sent == Out(ports, Used(ports), exempted, q)
    {
      hide Out, Used;
      sent := multiset{};
      var i := 0;
      OutNext(ports, i, exempted, q);
      while i < |ports|
        invariant 0 <= i <= Used(ports) && sent == Out(ports, i, exempted, q)
        decreases |ports| - i
      {
        if ports[i].None? {
          return;
        }
        OutNext(ports, i, exempted, q);
        if i != exempted {
          if ports[i].value.enabled && ports[i].value.l3 {
            sent := sent + multiset{Packet(ports[i].value.peer, ports[i].value.peerPort, q)};
          }
        }
        i := i + 1;
      }
    }

    /** ddcp_process_ddcp_query_msg, behind the layer 2 test that the interface works in L3
        mode.  `prepared` tells whether a reply could be made; as a reply begins with the
        sequence number it is never empty, and only memory can be missing. */
    method Receive(iif: nat, q: Query, prepared: bool) returns (v: Verdict, sent: multiset<Packet>)
      requires iif < |ports| && ports[iif].Some?
      modifies this
      ensures v == if ports[iif].value.l3 then Judge(addr, old(Stored(q.origin)), ports[iif].value.enabled, q)
        else Reject
      ensures Stored(q.origin) == if v.Accept? then q.num else old(Stored(q.origin))
      ensures forall o | o != q.origin :: Stored(o) == old(Stored(o))
      ensures sent == if v.Accept? && prepared then Out(ports, Used(ports), iif, q) else multiset{}
    {
      v, sent := Reject, multiset{};
      if ports[iif].value.l3 {
        v := ShouldProcess(iif, q);
        if v.Accept? && prepared {
          sent := Flood(iif, q);
        }
      }
    }

    /** ddcp_trigger_default_ddcp_query and the periodic job: with `flood` off (an
        interval was given) the own number rises but nothing is sent. */
    method Trigger(flood: bool) returns (sent: multiset<Packet>)
      modifies this
      ensures Stored(addr) == old(Stored(addr)) + 1 >= 0
      ensures forall o | o != addr :: Stored(o) == old(Stored(o))
      ensures sent == if flood then Out(ports, Used(ports), -1, Query(addr, Stored(addr))) else multiset{}
    {
      var num := NextOwn();
      sent := multiset{};
      if flood {
        sent := Flood(-1, Query(addr, num));
      }
    }
  }

  // ---------- the reply database ----------

  // A reply as the database sees it: the loopback address it names, if any, its
  // number and its length.
  datatype Reply = Reply(addr: Option<int>, num: nat, size: nat)

  // The number of the first reply that names the address, -1 for none.
  function Newest(replies: seq<Reply>, addr: int): int {
    if replies == [] then -1
    else if replies[0].addr == Some(addr) then replies[0].num
    else Newest(replies[1..], addr)
  }

  // The newer of what is stored for the address and what the reply brings.
  function Newer(r: Reply, addr: int, stored: int): int {
    if r.addr == Some(addr) && stored < r.num then r.num else stored
  }

  // Each address is named once.
  ghost predicate Unique(replies: seq<Reply>) {
    forall i, j | 0 <= i < j < |replies| :: replies[i].addr != replies[j].addr
  }

  lemma {:induction false} Absent(replies: seq<Reply>, addr: int)
    requires forall r | r in replies :: r.addr != Some(addr)
    ensures Newest(replies, addr) == -1
  {
    if replies != [] {
      Absent(replies[1..], addr);
    }
  }

  lemma {:induction false} Without(replies: seq<Reply>, i: nat, addr: int)
    requires Unique(replies) && i < |replies|
    ensures Newest(replies[..i] + replies[i + 1..], addr) == if replies[i].addr == Some(addr) then -1
      else Newest(replies, addr)
  {
    var rest := replies[..i] + replies[i + 1..];
    if i == 0 {
      assert rest == replies[1..];
      if replies[0].addr == Some(addr) { Absent(rest, addr); }
    } else {
      Without(replies[1..], i - 1, addr);
      assert rest[1..] == replies[1..][..i - 1] + replies[1..][i..];
    }
  }

  lemma {:induction false} Overwritten(replies: seq<Reply>, i: nat, r: Reply, addr: int)
    requires Unique(replies) && i < |replies| && replies[i].addr == r.addr
    ensures Newest(replies[i := r], addr) == if r.addr == Some(addr) then r.num else Newest(replies, addr)
  {
    if i > 0 {
      Overwritten(replies[1..], i - 1, r, addr);
      assert replies[i := r][1..] == replies[1..][i - 1 := r];
    }
  }

  lemma {:induction false} Present(replies: seq<Reply>, i: nat)
    requires Unique(replies) && i < |replies| && replies[i].addr.Some?
    ensures Newest(replies, replies[i].addr.value) == replies[i].num
  {
    if i > 0 {
      Present(replies[1..], i - 1);
    }
  }

  class ReplyDb {
    var replies: seq<Reply>

    ghost predicate Valid()
      reads this
    {
      Unique(replies) && forall r | r in replies :: r.addr.Some?
    }

    constructor ()
      ensures Valid() && replies == []
    {
      replies := [];
    }

    /** ddcp_add_or_update_ddcp_reply_msg: per address the newest reply is kept. */
    method AddOrUpdate(r: Reply)
      requires Valid()
      modifies this
      ensures Valid()
      ensures forall a :: Newest(replies, a) == Newer(r, a, old(Newest(replies, a)))
    {
      if r.addr.None? {
        return;
      }
      var i := 0;
      while i < |replies|
        invariant 0 <= i <= |replies| && forall j | 0 <= j < i :: replies[j].addr != r.addr
      {
        if replies[i].addr == r.addr {
          Present(replies, i);
          if replies[i].num < r.num {
            forall a ensures Newest(replies[i := r], a) == Newer(r, a, Newest(replies, a)) {
              Overwritten(replies, i, r, a);
            }
            forall a
              ensures Newest([r] + (replies[..i] + replies[i + 1..]), a) == Newer(r, a, Newest(replies, a))
            {
              Without(replies, i, a);
            }
            if replies[i].size != r.size {
              replies := [r] + (replies[..i] + replies[i + 1..]);
            } else {
              replies := replies[i := r];
            }
          }
          return;
        }
        i := i + 1;
      }
      Absent(replies, r.addr.value);
      replies := [r] + replies;
    }

    /** Whatever replies arrive in whatever order: for each address the database ends up
        with the highest number of all replies that name it, and with none if none does. */
    method Collect(arrived: seq<Reply>)
      requires Valid() && replies == []
      modifies this
      ensures Valid() && forall a :: IsNewest(arrived, a, Newest(replies, a))
    {
      var i := 0;
      while i < |arrived|
        invariant 0 <= i <= |arrived| && Valid() && forall a :: IsNewest(arrived[..i], a, Newest(replies, a))
      {
        ghost var was := replies;
        AddOrUpdate(arrived[i]);
        assert arrived[..i + 1] == arrived[..i] + [arrived[i]];
        forall a ensures IsNewest(arrived[..i + 1], a, Newest(replies, a)) {
          NewestNext(arrived[..i], arrived[i], a, Newest(was, a));
        }
        i := i + 1;
      }
      assert arrived[..i] == arrived;
    }
  }

  // The number is the highest of the replies that name the address, -1 if there is none.
  ghost predicate IsNewest(arrived: seq<Reply>, addr: int, num: int) {
    && (forall r | r in arrived && r.addr == Some(addr) :: r.num <= num)
    && (num == -1 || exists r :: r in arrived && r.addr == Some(addr) && r.num == num)
  }

  lemma NewestNext(arrived: seq<Reply>, r: Reply, addr: int, num: int)
    requires IsNewest(arrived, addr, num)
    ensures IsNewest(arrived + [r], addr, Newer(r, addr, num))
  {
    if num != -1 {
      var x :| x in arrived && x.addr == Some(addr) && x.num == num;
      assert x in arrived + [r];
    }
    assert r in arrived + [r];
  }

  // ---------- what a flood sends ----------

  lemma {:induction false} Sends(ports: seq<Option<Intf>>, n: nat, exempted: int, q: Query, i: nat)
    requires i < n <= Used(ports) && i != exempted && Usable(ports, i)
    ensures Packet(ports[i].value.peer, ports[i].value.peerPort, q) in Out(ports, n, exempted, q)
  {
    if i < n - 1 {
      Sends(ports, n - 1, exempted, q, i);
    }
  }

  lemma {:induction false} SendsOnly(ports: seq<Option<Intf>>, n: nat, exempted: int, q: Query, p: Packet)
    returns (i: nat)
    requires n <= Used(ports) && p in Out(ports, n, exempted, q)
    ensures i < n && i != exempted && Usable(ports, i) && p == Packet(ports[i].value.peer, ports[i].value.peerPort, q)
  {
    hide Used, Out;
    i := if n == 0 then 0 else n - 1;
    OutNext(ports, i, exempted, q);
    if n > 0 && p in Out(ports, n - 1, exempted, q) {
      i := SendsOnly(ports, n - 1, exempted, q, p);
    }
  }

  lemma {:induction false} SendsAtMost(ports: seq<Option<Intf>>, n: nat, exempted: int, q: Query)
    requires n <= Used(ports)
    ensures |Out(ports, n, exempted, q)| <= n
  {
    if n > 0 {
      SendsAtMost(ports, n - 1, exempted, q);
    }
  }

  // ---------- the network ----------

  type Net = map<int, seq<Option<Intf>>>

  // Every link has two ends that name each other.
  ghost predicate Wired(net: Net) {
    forall n, i {:trigger net[n][i]} | n in net && 0 <= i < Used(net[n]) ::
      var f := net[n][i].value;
      f.peer in net && f.peerPort < Used(net[f.peer]) && net[f.peer][f.peerPort].value.peer == n &&
        net[f.peer][f.peerPort].value.peerPort == i
  }

  // Queries pass from slot `i` of `n` to the other end.
  predicate Carries(net: Net, n: int, i: int) {
    n in net && 0 <= i < Used(net[n]) && Usable(net[n], i) &&
    var f := net[n][i].value; f.peer in net && Usable(net[f.peer], f.peerPort)
  }

  /** `db` holds the number router n stores for originator o at (n, o);
      `flooded` the last number each originator has really sent out. */
  datatype State = State(db: map<(int, int), nat>, inflight: multiset<Packet>, flooded: map<int, nat>)

  function Stored(s: State, n: int, o: int): int {
    if (n, o) in s.db then s.db[(n, o)] else -1
  }

  function Flooded(s: State, o: int): int {
    if o in s.flooded then s.flooded[o] else -1
  }

  // The number that the flooding has to spread from `n`.
  function Level(s: State, n: int, o: int): int {
    if n == o then Flooded(s, o) else Stored(s, n, o)
  }

  datatype Event = Deliver(p: Packet) | Trigger(origin: int, flood: bool)

  predicate Enabled(net: Net, s: State, e: Event) {
    match e
    case Deliver(p) => p in s.inflight
    case Trigger(o, flood) => o in net
  }

  function Ruling(net: Net, s: State, p: Packet): Verdict
    requires p.to in net && 0 <= p.port < Used(net[p.to])
  {
    var f := net[p.to][p.port].value;
    if f.l3 then Judge(p.to, Stored(s, p.to, p.query.origin), f.enabled, p.query) else Reject
  }

  function Step(net: Net, s: State, e: Event): State
    requires Enabled(net, s, e)
  {
    match e
    case Deliver(p) =>
      var rest := s.inflight - multiset{p};
      if p.to !in net || !(0 <= p.port < Used(net[p.to])) then s.(inflight := rest)
      else if Ruling(net, s, p).Accept? then
        s.(db := s.db[(p.to, p.query.origin) := p.query.num],
           inflight := rest + Out(net[p.to], Used(net[p.to]), p.port, p.query))
      else s.(inflight := rest)
    case Trigger(o, flood) =>
      var num := Stored(s, o, o) + 1;
      var t := s.(db := s.db[(o, o) := num]);
      if flood then t.(flooded := s.flooded[o := num],
        inflight := s.inflight + Out(net[o], Used(net[o]), -1, Query(o, num)))
      else t
  }

  // ---------- the invariant ----------

  // A packet came out of a usable slot of a router that itself has the number, or a newer one.
  ghost predicate Honest(net: Net, s: State, p: Packet) {
    p.to in net && 0 <= p.port < Used(net[p.to]) && Sender(net, p) in net &&
    Usable(net[Sender(net, p)], net[p.to][p.port].value.peerPort) &&
    p.query.num <= Level(s, Sender(net, p), p.query.origin) && p.query.num <= Flooded(s, p.query.origin)
  }

  function Sender(net: Net, p: Packet): int
    requires p.to in net && 0 <= p.port < Used(net[p.to])
  {
    net[p.to][p.port].value.peer
  }

  // The other end of slot `i` of `n` is as new as `n`, or about to hear of it.
  ghost predicate Covered(net: Net, s: State, n: int, i: int, o: int)
    requires n in net && 0 <= i < Used(net[n])
  {
    var f := net[n][i].value;
    var l := Level(s, n, o);
    l <= Level(s, f.peer, o) || (l >= 0 && Packet(f.peer, f.peerPort, Query(o, l)) in s.inflight)
  }

  ghost predicate Bounded(s: State, n: int, o: int) {
    Level(s, n, o) <= Flooded(s, o) <= Stored(s, o, o)
  }

  ghost predicate Inv(net: Net, s: State) {
    && Wired(net)
    && (forall p {:trigger Honest(net, s, p)} | p in s.inflight :: Honest(net, s, p))
    && (forall n, o {:trigger Bounded(s, n, o)} :: Bounded(s, n, o))
    && (forall n, i, o {:trigger Covered(net, s, n, i, o)} | Carries(net, n, i) :: Covered(net, s, n, i, o))
  }

  // ---------- steps keep it ----------

  lemma RulingFacts(net: Net, s: State, p: Packet)
    requires Inv(net, s) && p in s.inflight
    ensures p.to in net && 0 <= p.port < Used(net[p.to]) && Honest(net, s, p)
    ensures !Ruling(net, s, p).Abort?
    ensures Ruling(net, s, p).Accept? ==> p.to != p.query.origin && Level(s, p.to, p.query.origin) < p.query.num
    ensures Ruling(net, s, p).Reject? && Usable(net[p.to], p.port) ==> p.query.num <= Level(s, p.to, p.query.origin)
  {
    assert Honest(net, s, p);
    assert Bounded(s, p.to, p.query.origin);
  }

  // Levels and packets after a delivery.
  lemma Delivered(net: Net, s: State, p: Packet, n: int, o: int)
    requires Inv(net, s) && p in s.inflight
    ensures p.to in net && 0 <= p.port < Used(net[p.to])
    ensures var t := Step(net, s, Deliver(p));
      && Level(t, n, o) == (if Ruling(net, s, p).Accept? && n == p.to &&
        o == p.query.origin then p.query.num else Level(s, n, o))
      && Flooded(t, o) == Flooded(s, o) && Level(s, n, o) <= Level(t, n, o) && Stored(s, o, o) == Stored(t, o, o)
      && t.inflight == s.inflight - multiset{p} + (if Ruling(net, s, p).Accept?
        then Out(net[p.to], Used(net[p.to]), p.port, p.query) else multiset{})
  {
    hide Inv, Out, Usable;
    RulingFacts(net, s, p);
  }

  lemma IsCovered(net: Net, s: State, n: int, i: int, o: int)
    requires Inv(net, s) && Carries(net, n, i)
    ensures Covered(net, s, n, i, o) && Bounded(s, n, o)
    ensures var f := net[n][i].value;
      f.peer in net && f.peerPort < Used(net[f.peer]) &&
      net[f.peer][f.peerPort].value.peer == n && net[f.peer][f.peerPort].value.peerPort == i
  {
    var f := net[n][i].value;
    assert Covered(net, s, n, i, o) && Bounded(s, n, o);
  }

  lemma DeliverCovered(net: Net, s: State, p: Packet, n: int, i: int, o: int)
    requires Inv(net, s) && p in s.inflight && Carries(net, n, i)
    ensures Covered(net, Step(net, s, Deliver(p)), n, i, o)
  {
    hide Inv, Step, Ruling, Out, Level;
    var f := net[n][i].value;
    RulingFacts(net, s, p);
    IsCovered(net, s, n, i, o);
    Delivered(net, s, p, n, o);
    Delivered(net, s, p, f.peer, o);
    if Ruling(net, s, p).Accept? && p.to == n && p.query.origin == o && i != p.port {
      Sends(net[n], Used(net[n]), p.port, p.query, i);
    }
  }

  lemma DeliverHonest(net: Net, s: State, p: Packet, r: Packet)
    requires Inv(net, s) && p in s.inflight && r in Step(net, s, Deliver(p)).inflight
    ensures Honest(net, Step(net, s, Deliver(p)), r)
  {
    hide Inv, Step, Out, Level, Flooded, Stored, Used, Ruling;
    RulingFacts(net, s, p);
    if r in s.inflight {
      IsHonest(net, s, r);
      Delivered(net, s, p, net[r.to][r.port].value.peer, r.query.origin);
    } else {
      Delivered(net, s, p, p.to, p.query.origin);
      var i := SendsOnly(net[p.to], Used(net[p.to]), p.port, p.query, r);
      OtherEnd(net, s, p.to, i);
    }
  }

  lemma Triggered(net: Net, s: State, o: int, flood: bool, n: int, other: int)
    requires Inv(net, s) && o in net
    ensures var t := Step(net, s, Event.Trigger(o, flood)); var num := Stored(s, o, o) + 1;
      && Level(t, n, other) == (if flood && n == o && other == o then num else Level(s, n, other))
      && Flooded(t, other) == (if flood && other == o then num else Flooded(s, other))
      && Level(s, n, other) <= Level(t, n, other) &&
        Stored(t, other, other) == Stored(s, other, other) + (if other == o then 1 else 0)
      && t.inflight == s.inflight + (if flood then Out(net[o], Used(net[o]), -1, Query(o, num)) else multiset{})
  {
    hide Inv, Out, Used;
    AllBounded(net, s, n, other);
  }

  lemma TriggerCovered(net: Net, s: State, o: int, flood: bool, n: int, i: int, other: int)
    requires Inv(net, s) && o in net && Carries(net, n, i)
    ensures Covered(net, Step(net, s, Event.Trigger(o, flood)), n, i, other)
  {
    hide Inv, Step, Out, Level;
    IsCovered(net, s, n, i, other);
    Triggered(net, s, o, flood, n, other);
    Triggered(net, s, o, flood, net[n][i].value.peer, other);
    if flood && n == o && other == o {
      Sends(net[o], Used(net[o]), -1, Query(o, Stored(s, o, o) + 1), i);
    }
  }

  lemma TriggerHonest(net: Net, s: State, o: int, flood: bool, r: Packet)
    requires Inv(net, s) && o in net && r in Step(net, s, Event.Trigger(o, flood)).inflight
    ensures Honest(net, Step(net, s, Event.Trigger(o, flood)), r)
  {
    hide Inv, Step, Out, Level, Flooded, Stored, Used;
    NumbersRise(net, s, o);
    var num := Stored(s, o, o) + 1;
    AllBounded(net, s, o, o);
    if r in s.inflight {
      IsHonest(net, s, r);
      Triggered(net, s, o, flood, net[r.to][r.port].value.peer, r.query.origin);
    } else {
      Triggered(net, s, o, flood, o, o);
      var i := SendsOnly(net[o], Used(net[o]), -1, Query(o, num), r);
      OtherEnd(net, s, o, i);
    }
  }

  lemma IsHonest(net: Net, s: State, p: Packet)
    requires Inv(net, s) && p in s.inflight
    ensures Honest(net, s, p)
  {
  }

  lemma NumbersRise(net: Net, s: State, o: int)
    requires Inv(net, s)
    ensures -1 <= Flooded(s, o) < Stored(s, o, o) + 1
  {
    assert Bounded(s, o, o);
  }

  lemma OtherEnd(net: Net, s: State, n: int, i: int)
    requires Inv(net, s) && n in net && 0 <= i < Used(net[n])
    ensures var f := net[n][i].value;
      f.peer in net && f.peerPort < Used(net[f.peer]) && net[f.peer][f.peerPort].value.peer == n &&
        net[f.peer][f.peerPort].value.peerPort == i
  {
  }

  lemma StepBounded(net: Net, s: State, e: Event, n: int, o: int)
    requires Inv(net, s) && Enabled(net, s, e)
    ensures Bounded(Step(net, s, e), n, o)
  {
    hide Inv, Step;
    AllBounded(net, s, n, o);
    match e
    case Deliver(p) => Delivered(net, s, p, n, o); RulingFacts(net, s, p);
    case Trigger(origin, flood) => Triggered(net, s, origin, flood, n, o); AllBounded(net, s, origin, origin);
  }

  lemma AllBounded(net: Net, s: State, n: int, o: int)
    requires Inv(net, s)
    ensures Bounded(s, n, o)
  {
  }

  /** Every step keeps the invariant. */
  lemma StepInv(net: Net, s: State, e: Event)
    requires Inv(net, s) && Enabled(net, s, e)
    ensures Inv(net, Step(net, s, e))
  {
    hide Step, Covered, Honest, Bounded, Carries, Wired;
    var t := Step(net, s, e);
    forall p | p in t.inflight ensures Honest(net, t, p) {
      match e
      case Deliver(q) => DeliverHonest(net, s, q, p);
      case Trigger(o, flood) => TriggerHonest(net, s, o, flood, p);
    }
    forall n, o ensures Bounded(t, n, o) {
      StepBounded(net, s, e, n, o);
    }
    forall n, i, o | Carries(net, n, i) ensures n in net && 0 <= i < Used(net[n]) && Covered(net, t, n, i, o) {
      InRange(net, n, i);
      match e
      case Deliver(q) => DeliverCovered(net, s, q, n, i, o);
      case Trigger(o', flood) => TriggerCovered(net, s, o', flood, n, i, o);
    }
  }

  lemma InRange(net: Net, n: int, i: int)
    requires Carries(net, n, i)
    ensures n in net && 0 <= i < Used(net[n])
  {
  }

  // ---------- whole runs ----------

  const START := State(map[], multiset{}, map[])

  ghost predicate Runs(net: Net, s: State, es: seq<Event>)
    decreases |es|, 0
  {
    es == [] || (Runs(net, s, es[..|es| - 1]) && Enabled(net, Run(net, s, es[..|es| - 1]), es[|es| - 1]))
  }

  // The state after the events, in order.
  ghost function Run(net: Net, s: State, es: seq<Event>): State
    requires Runs(net, s, es)
    decreases |es|, 1
  {
    if es == [] then s else Step(net, Run(net, s, es[..|es| - 1]), es[|es| - 1])
  }

  lemma {:induction false} RunInv(net: Net, s: State, es: seq<Event>)
    requires Inv(net, s) && Runs(net, s, es)
    ensures Inv(net, Run(net, s, es))
    decreases |es|
  {
    if es != [] {
      RunInv(net, s, es[..|es| - 1]);
      StepInv(net, Run(net, s, es[..|es| - 1]), es[|es| - 1]);
    }
  }

  lemma StartInv(net: Net)
    requires Wired(net)
    ensures Inv(net, START)
  {
    forall n, o ensures Bounded(START, n, o) {
    }
    forall n, i, o | Carries(net, n, i) ensures Covered(net, START, n, i, o) {
    }
  }

  /** On no run does a router meet a query of its own that it does not know. */
  lemma NeverAborts(net: Net, es: seq<Event>, p: Packet)
    requires Wired(net) && Runs(net, START, es) && p in Run(net, START, es).inflight
    ensures p.to in net && 0 <= p.port < Used(net[p.to]) && !Ruling(net, Run(net, START, es), p).Abort?
  {
    StartInv(net);
    RunInv(net, START, es);
    RulingFacts(net, Run(net, START, es), p);
  }

  // A route over links that carry queries.
  ghost predicate Route(net: Net, path: seq<int>) {
    path != [] && forall k | 0 <= k < |path| - 1 :: Hop(net, path[k], path[k + 1])
  }

  ghost predicate Hop(net: Net, a: int, b: int) {
    exists i :: Carries(net, a, i) && net[a][i].value.peer == b
  }

  lemma HopLevels(net: Net, s: State, a: int, b: int, o: int)
    requires Inv(net, s) && s.inflight == multiset{} && Hop(net, a, b)
    ensures Level(s, a, o) == Level(s, b, o)
  {
    var i :| Carries(net, a, i) && net[a][i].value.peer == b;
    IsCovered(net, s, a, i, o);
    var j := net[a][i].value.peerPort;
    IsCovered(net, s, b, j, o);
  }

  lemma {:induction false} RouteLevels(net: Net, s: State, path: seq<int>)
    requires Inv(net, s) && s.inflight == multiset{} && Route(net, path)
    ensures Level(s, path[|path| - 1], path[0]) == Flooded(s, path[0])
  {
    if |path| > 1 {
      var init := path[..|path| - 1];
      RouteLevels(net, s, init);
      HopLevels(net, s, path[|path| - 2], path[|path| - 1], path[0]);
    }
  }

  /** When nothing is in flight, every router with a route from the originator
      stores the last number that was flooded. */
  lemma Coverage(net: Net, es: seq<Event>, path: seq<int>)
    requires Wired(net) && Runs(net, START, es) && Run(net, START, es).inflight == multiset{}
    requires Route(net, path) && path[|path| - 1] != path[0]
    ensures var s := Run(net, START, es); Stored(s, path[|path| - 1], path[0]) == Flooded(s, path[0])
  {
    StartInv(net);
    RunInv(net, START, es);
    RouteLevels(net, Run(net, START, es), path);
  }

  // ---------- no further than the routes go ----------

  ghost predicate Reachable(net: Net, o: int, n: int) {
    exists path :: Route(net, path) && path[0] == o && path[|path| - 1] == n
  }

  // A router stores numbers of originators that it can be reached from, and of itself.
  ghost predicate Traced(net: Net, s: State, n: int, o: int) {
    Stored(s, n, o) >= 0 ==> Reachable(net, o, n)
  }

  ghost predicate AllTraced(net: Net, s: State) {
    forall n, o {:trigger Traced(net, s, n, o)} :: Traced(net, s, n, o)
  }

  lemma ReachesItself(net: Net, o: int)
    ensures Reachable(net, o, o)
  {
    assert Route(net, [o]);
  }

  lemma OneFurther(net: Net, o: int, a: int, b: int)
    requires Reachable(net, o, a) && Hop(net, a, b)
    ensures Reachable(net, o, b)
  {
    var path :| Route(net, path) && path[0] == o && path[|path| - 1] == a;
    var longer := path + [b];
    forall k | 0 <= k < |longer| - 1 ensures Hop(net, longer[k], longer[k + 1]) {
      assert k < |path| - 1 ==> Hop(net, path[k], path[k + 1]);
    }
    assert Route(net, longer);
  }

  // A query that is accepted has come over a link that carries queries.
  lemma CameOver(net: Net, s: State, p: Packet)
    requires Inv(net, s) && p in s.inflight
    ensures p.to in net && 0 <= p.port < Used(net[p.to])
    ensures Ruling(net, s, p).Accept? ==>
      Hop(net, Sender(net, p), p.to) && Level(s, Sender(net, p), p.query.origin) >= 0
  {
    IsHonest(net, s, p);
    OtherEnd(net, s, p.to, p.port);
    if Ruling(net, s, p).Accept? {
      assert Carries(net, Sender(net, p), net[p.to][p.port].value.peerPort);
    }
  }

  lemma StepTraced(net: Net, s: State, e: Event, n: int, o: int)
    requires Inv(net, s) && Enabled(net, s, e) && AllTraced(net, s)
    ensures Traced(net, Step(net, s, e), n, o)
  {
    hide Inv, Out, Route, Hop, Reachable, Honest;
    assert Traced(net, s, n, o);
    match e
    case Deliver(p) =>
      CameOver(net, s, p);
      if Ruling(net, s, p).Accept? && n == p.to && o == p.query.origin {
        var a := Sender(net, p);
        if a == o { ReachesItself(net, o); } else { assert Traced(net, s, a, o); }
        OneFurther(net, o, a, n);
      }
    case Trigger(_, _) => ReachesItself(net, o);
  }

  lemma {:induction false} RunTraced(net: Net, es: seq<Event>)
    requires Wired(net) && Runs(net, START, es)
    ensures AllTraced(net, Run(net, START, es)) && Inv(net, Run(net, START, es))
    decreases |es|
  {
    hide Inv, Step, Traced;
    StartInv(net);
    RunInv(net, START, es);
    if es == [] {
      NothingTraced(net);
    } else {
      var init := es[..|es| - 1];
      RunTraced(net, init);
      forall n, o ensures Traced(net, Run(net, START, es), n, o) {
        StepTraced(net, Run(net, START, init), es[|es| - 1], n, o);
      }
    }
  }

  lemma NothingTraced(net: Net)
    ensures AllTraced(net, START)
  {
  }

  /** At any time a router stores a number only of an originator that has a route to it. */
  lemma OnlyOverRoutes(net: Net, es: seq<Event>, n: int, o: int)
    requires Wired(net) && Runs(net, START, es) && Stored(Run(net, START, es), n, o) >= 0
    ensures Reachable(net, o, n)
  {
    hide Inv, Reachable;
    RunTraced(net, es);
    assert Traced(net, Run(net, START, es), n, o);
  }

  /** So when nothing is in flight, the routers that know an originator which has flooded
      are exactly those that have a route from it. */
  lemma KnownExactly(net: Net, es: seq<Event>, n: int, o: int)
    requires Wired(net) && Runs(net, START, es) && Run(net, START, es).inflight == multiset{} && n != o
    ensures var s := Run(net, START, es); Stored(s, n, o) >= 0 <==> Flooded(s, o) >= 0 && Reachable(net, o, n)
  {
    var s := Run(net, START, es);
    if Reachable(net, o, n) {
      var path :| Route(net, path) && path[0] == o && path[|path| - 1] == n;
      Coverage(net, es, path);
    } else if Stored(s, n, o) >= 0 {
      OnlyOverRoutes(net, es, n, o);
    }
  }

  // The last query the originator triggered, if any, was sent at once.
  predicate LastFlooded(es: seq<Event>, o: int)
    decreases |es|
  {
    if es == [] then true
    else
      var e := es[|es| - 1];
      if e.Trigger? && e.origin == o then e.flood else LastFlooded(es[..|es| - 1], o)
  }

  lemma {:induction false} UpToDate(net: Net, es: seq<Event>, o: int)
    requires Wired(net) && Runs(net, START, es)
    ensures var s := Run(net, START, es); Flooded(s, o) == Stored(s, o, o) <==> LastFlooded(es, o)
    decreases |es|
  {
    if es != [] {
      var init, e := es[..|es| - 1], es[|es| - 1];
      UpToDate(net, init, o);
      StartInv(net);
      RunInv(net, START, init);
      var s := Run(net, START, init);
      match e
      case Deliver(p) => Delivered(net, s, p, o, o);
      case Trigger(origin, flood) => Triggered(net, s, origin, flood, o, o); AllBounded(net, s, o, o);
    }
  }

  /** What a router with a route stores is the originator's own latest number
      exactly when the last trigger at the originator had no interval. */
  lemma CoverageOfLatest(net: Net, es: seq<Event>, path: seq<int>)
    requires Wired(net) && Runs(net, START, es) && Run(net, START, es).inflight == multiset{}
    requires Route(net, path) && path[|path| - 1] != path[0]
    ensures var s := Run(net, START, es);
      Stored(s, path[|path| - 1], path[0]) == Stored(s, path[0], path[0]) <==> LastFlooded(es, path[0])
  {
    Coverage(net, es, path);
    UpToDate(net, es, path[0]);
  }

  // ---------- termination ----------

  function Gap(s: State, k: (int, int)): int {
    Flooded(s, k.1) - Level(s, k.0, k.1)
  }

  function Gaps(s: State, keys: seq<(int, int)>): int {
    if keys == [] then 0 else Gap(s, keys[0]) + Gaps(s, keys[1..])
  }

  // What is still to learn, weighted by the most packets one acceptance sends, plus the packets under way.
  function Work(s: State, keys: seq<(int, int)>, degree: nat): int {
    Gaps(s, keys) * degree + |s.inflight|
  }

  lemma {:induction false} GapsDrop(net: Net, s: State, p: Packet, keys: seq<(int, int)>)
    requires Inv(net, s) && p in s.inflight && forall i, j | 0 <= i < j < |keys| :: keys[i] != keys[j]
    ensures var t := Step(net, s, Deliver(p)); var k := (p.to, p.query.origin);
      && p.to in net && 0 <= p.port < Used(net[p.to]) && Gaps(t, keys) <= Gaps(s, keys)
      && (Ruling(net, s, p).Accept? && k in keys ==> Gaps(t, keys) <= Gaps(s, keys) - 1)
  {
    hide Inv, Step;
    RulingFacts(net, s, p);
    if keys != [] {
      GapsDrop(net, s, p, keys[1..]);
      Delivered(net, s, p, keys[0].0, keys[0].1);
    }
  }

  lemma {:induction false} GapsNat(net: Net, s: State, keys: seq<(int, int)>)
    requires Inv(net, s)
    ensures Gaps(s, keys) >= 0
  {
    if keys != [] {
      GapsNat(net, s, keys[1..]);
      assert Bounded(s, keys[0].0, keys[0].1);
    }
  }

  // `keys` lists every router with every originator, and no router uses more than `degree` slots.
  ghost predicate Census(net: Net, s: State, keys: seq<(int, int)>, degree: nat) {
    && (forall i, j | 0 <= i < j < |keys| :: keys[i] != keys[j])
    && (forall n, o | n in net && o in s.flooded :: (n, o) in keys)
    && (forall n | n in net :: Used(net[n]) <= degree)
  }

  // A delivery does not change who is counted, and what is accepted is counted.
  lemma CensusStays(net: Net, s: State, p: Packet, keys: seq<(int, int)>, degree: nat)
    requires Inv(net, s) && p in s.inflight && Census(net, s, keys, degree)
    ensures Census(net, Step(net, s, Deliver(p)), keys, degree)
    ensures p.to in net && 0 <= p.port < Used(net[p.to]) <= degree
    ensures (p.to, p.query.origin) in keys
  {
    hide Inv, Used, Out, Level, Stored;
    IsHonest(net, s, p);
    assert p.query.origin in s.flooded;
  }

  // Work in numbers: one gap less pays for the packets sent.
  lemma Falls(a: int, b: int, degree: nat, size: int, sent: int)
    requires 0 <= b <= a && 0 <= sent <= degree && (sent == 0 || b <= a - 1)
    ensures 0 <= b * degree && b * degree + (size - 1 + sent) < a * degree + size
  {
    Scaled(0, b, degree);
    if sent == 0 {
      Scaled(b, a, degree);
    } else {
      Scaled(b, a - 1, degree);
      assert (a - 1) * degree == a * degree - degree;
    }
  }

  lemma WorkDrops(net: Net, s: State, p: Packet, keys: seq<(int, int)>, degree: nat)
    requires Inv(net, s) && p in s.inflight && Census(net, s, keys, degree)
    ensures var t := Step(net, s, Deliver(p));
      0 <= Work(t, keys, degree) < Work(s, keys, degree) && Census(net, t, keys, degree)
  {
    CensusStays(net, s, p, keys, degree);
    hide Inv, Gaps, Step, Out, Census, Ruling, Used, Level, Stored, Flooded;
    var t := Step(net, s, Deliver(p));
    StepInv(net, s, Deliver(p));
    GapsNat(net, t, keys);
    GapsDrop(net, s, p, keys) by { Distinct(net, s, keys, degree); }
    Delivered(net, s, p, p.to, p.query.origin);
    var sent := if Ruling(net, s, p).Accept? then Out(net[p.to], Used(net[p.to]), p.port, p.query) else multiset{};
    SendsAtMost(net[p.to], Used(net[p.to]), p.port, p.query);
    assert |t.inflight| == |s.inflight| - 1 + |sent|;
    Falls(Gaps(s, keys), Gaps(t, keys), degree, |s.inflight|, |sent|);
  }

  lemma Distinct(net: Net, s: State, keys: seq<(int, int)>, degree: nat)
    requires Census(net, s, keys, degree)
    ensures forall i, j | 0 <= i < j < |keys| :: keys[i] != keys[j]
  {
  }

  lemma Scaled(a: int, b: int, k: nat)
    requires a <= b
    ensures a * k <= b * k
  {
    assert (b - a) * k >= 0;
  }

  /** Flooding ends: once nothing more is triggered, at most `Work` packets are
      ever delivered, in whatever order. */
  lemma {:induction false} FloodingEnds(net: Net, s: State, es: seq<Event>, keys: seq<(int, int)>, degree: nat)
    requires Inv(net, s) && Runs(net, s, es) && Census(net, s, keys, degree) && forall e | e in es :: e.Deliver?
    ensures |es| + Work(Run(net, s, es), keys, degree) <= Work(s, keys, degree)
    ensures Census(net, Run(net, s, es), keys, degree) && 0 <= Work(Run(net, s, es), keys, degree)
    decreases |es|
  {
    if es == [] {
      GapsNat(net, s, keys);
      Scaled(0, Gaps(s, keys), degree);
    } else {
      var init, e := es[..|es| - 1], es[|es| - 1];
      FloodingEnds(net, s, init, keys, degree);
      RunInv(net, s, init);
      assert e in es;
      WorkDrops(net, Run(net, s, init), e.p, keys, degree);
    }
  }

  // Every set of pairs can be listed.
  lemma {:induction false} Listed(pairs: set<(int, int)>) returns (keys: seq<(int, int)>)
    ensures forall k :: k in keys <==> k in pairs
    ensures forall i, j | 0 <= i < j < |keys| :: keys[i] != keys[j]
    decreases |pairs|
  {
    keys := [];
    if pairs != {} {
      var k :| k in pairs;
      var others := Listed(pairs - {k});
      keys := [k] + others;
      assert forall x :: x in keys <==> x == k || x in others;
    }
  }

  lemma {:induction false} Widest(net: Net, ns: set<int>) returns (degree: nat)
    ensures forall n | n in ns && n in net :: Used(net[n]) <= degree
    decreases |ns|
  {
    degree := 0;
    if n :| n in ns {
      degree := Widest(net, ns - {n});
      degree := if n in net && degree < Used(net[n]) then Used(net[n]) else degree;
    }
  }

  // Every state of every network can be counted.
  lemma Counted(net: Net, s: State) returns (keys: seq<(int, int)>, degree: nat)
    ensures Census(net, s, keys, degree)
  {
    keys := Listed(set n, o | n in net && o in s.flooded :: (n, o));
    degree := Widest(net, net.Keys);
  }

  // No more than `bound` deliveries can follow before the next trigger.
  ghost predicate EndsWithin(net: Net, s: State, bound: nat) {
    forall es: seq<Event> | Runs(net, s, es) && (forall e | e in es :: e.Deliver?) :: |es| <= bound
  }

  /** From whatever has been triggered and delivered, in whatever order, flooding ends. */
  lemma AlwaysEnds(net: Net, es: seq<Event>)
    requires Wired(net) && Runs(net, START, es)
    ensures exists bound :: EndsWithin(net, Run(net, START, es), bound)
  {
    hide Inv, Census, Runs, Run;
    var s := Run(net, START, es);
    RunInv(net, START, es) by { StartInv(net); }
    var keys, degree := Counted(net, s);
    NoEvents(net, s);
    FloodingEnds(net, s, [], keys, degree);
    forall more: seq<Event> | Runs(net, s, more) && (forall e | e in more :: e.Deliver?)
      ensures |more| <= Work(s, keys, degree)
    {
      FloodingEnds(net, s, more, keys, degree);
    }
    assert EndsWithin(net, s, Work(s, keys, degree));
  }

  // ---------- an example ----------

  const LEFT := [Some(Intf(true, true, 2, 0))]
  const RIGHT := [Some(Intf(true, true, 1, 0))]
  // Two routers with one link.
  const PAIR: Net := map[1 := LEFT, 2 := RIGHT]

  const SILENT := [Event.Trigger(1, true), Deliver(Packet(2, 0, Query(1, 0))), Event.Trigger(1, false)]

  lemma PairRoute()
    ensures Wired(PAIR) && Route(PAIR, [1, 2])
    ensures Used(LEFT) == 1 && Used(RIGHT) == 1
    ensures Out(LEFT, 1, -1, Query(1, 0)) == multiset{Packet(2, 0, Query(1, 0))} &&
      Out(RIGHT, 1, 0, Query(1, 0)) == multiset{}
  {
    assert Used(LEFT) == 1 && Used(RIGHT) == 1;
    assert Carries(PAIR, 1, 0);
    assert Hop(PAIR, 1, 2);
    assert Out(LEFT, 0, -1, Query(1, 0)) == multiset{} && Out(RIGHT, 0, 0, Query(1, 0)) == multiset{};
  }

  /** The naive claim fails: the second trigger gives an interval, so it raises
      the own number of the originator at once, but no packet carries it. */
  lemma PeriodicTriggerIsSilent()
    ensures Wired(PAIR) && Route(PAIR, [1, 2]) && Runs(PAIR, START, SILENT)
    ensures Run(PAIR, START, SILENT) == State(map[(1, 1) := 1, (2, 1) := 0], multiset{}, map[1 := 0])
  {
    hide Wired, Route, Run, Runs, Used, Out;
    PairRoute();
    var p := Packet(2, 0, Query(1, 0));
    NoEvents(PAIR, START);
    OneMore(PAIR, START, [], SILENT[0]);
    assert [] + [SILENT[0]] == [SILENT[0]];
    var s1 := Step(PAIR, START, SILENT[0]);
    assert s1 == State(map[(1, 1) := 0], multiset{p}, map[1 := 0]);
    OneMore(PAIR, START, [SILENT[0]], SILENT[1]);
    var s2 := Step(PAIR, s1, SILENT[1]);
    assert s2 == State(map[(1, 1) := 0, (2, 1) := 0], multiset{}, map[1 := 0]);
    assert [SILENT[0]] + [SILENT[1]] + [SILENT[2]] == SILENT;
    OneMore(PAIR, START, [SILENT[0]] + [SILENT[1]], SILENT[2]);
  }

  lemma NoEvents(net: Net, s: State)
    ensures Runs(net, s, []) && Run(net, s, []) == s
  {
  }

  lemma OneMore(net: Net, s: State, es: seq<Event>, e: Event)
    requires Runs(net, s, es) && Enabled(net, Run(net, s, es), e)
    ensures Runs(net, s, es + [e]) && Run(net, s, es + [e]) == Step(net, Run(net, s, es), e)
  {
    assert (es + [e])[..|es|] == es;
  }
}
