/** Which frames an interface lets in and out (Layer2/layer2.h, Layer2/l2switch.c). */
module Interfaces {
  import opened Common
  import opened Frames

  datatype Mode = Unknown | Access | Trunk

  type Mac = seq<byte>

  const BROADCAST: Mac := [0xFF, 0xFF, 0xFF, 0xFF, 0xFF, 0xFF]
  const MAX_VLANS := 10     // MAX_VLAN_MEMBERSHIP
  const MAX_PACKET := 2048  // MAX_PACKET_BUFFER_SIZE
  const RIGHT_ROOM := 128   // PKT_BUFFER_RIGHT_ROOM
  const IF_NAME := 16       // IF_NAME_SIZE

  type Vlans = s: seq<int> | |s| == MAX_VLANS witness [0, 0, 0, 0, 0, 0, 0, 0, 0, 0]

  datatype Port = Port(l3: bool, mode: Mode, vlans: Vlans, mac: Mac)

  datatype Verdict = Reject | Accept(vlanToTag: int)

  /** Configured as the VLAN field can express it. */
  predicate Sound(p: Port) {
    (p.l3 ==> p.mode.Unknown?) && forall i | 0 <= i < MAX_VLANS :: 0 <= p.vlans[i] < 2048
  }

  // get_access_intf_operating_vlan_id.
  function Operating(p: Port): int
  {
    p.vlans[0]
  }

  function Dst(f: Frame): Mac
    requires |f| >= 12
  {
    f[..6]
  }

  function Src(f: Frame): Mac
    requires |f| >= 12
  {
    f[6..12]
  }

  /** l2_frame_recv_qualify_on_interface, with its out-parameter. */
  function Qualify(p: Port, f: Frame): Verdict
    requires WellFormed(f)
  {
    if !p.l3 && p.mode.Unknown? then Reject
    else if p.mode.Access? && Operating(p) == 0 then (if !IsTagged(f) then Accept(0) else Reject)
    else if p.mode.Access? then
      if !IsTagged(f) then Accept(Operating(p))
      else if Vid(f) == Operating(p) then Accept(0) else Reject
    else if p.mode.Trunk? && !IsTagged(f) then Reject
    else if p.mode.Trunk? then (if Vid(f) in p.vlans then Accept(0) else Reject)
    else if p.l3 && IsTagged(f) then Reject
    else if p.l3 && p.mac == Dst(f) then Accept(0)
    else if p.l3 && Dst(f) == BROADCAST then Accept(0)
    else Reject
  }

  // The frame as the switch sees it after layer2_frame_recv has tagged it.
  function Inside(f: Frame, v: Verdict): (g: Frame)
    requires WellFormed(f) && v.Accept? && 0 <= v.vlanToTag < UINT32
    ensures WellFormed(g)
  {
    if v.vlanToTag == 0 then f else
      TagReads(f, v.vlanToTag);
      Tagged(f, v.vlanToTag)
  }

  /** l2_switch_send_pkt_out: the frame that leaves, if any. */
  function Send(p: Port, f: Frame): Option<Frame>
    requires WellFormed(f)
  {
    match p.mode
    case Unknown => None
    case Access =>
      if Operating(p) == 0 && !IsTagged(f) then Some(f)
      else if Operating(p) != 0 && !IsTagged(f) then None
      else if IsTagged(f) && Operating(p) == Vid(f) then Some(Untagged(f))
      else None
    case Trunk =>
      var vid := if IsTagged(f) then Vid(f) else 0;
      if vid != 0 && vid in p.vlans then Some(f) else None
  }

  /** Inside a switch, VLAN 0 is the traffic without a tag. */
  predicate Belongs(f: Frame, vlan: int) {
    WellFormed(f) && if vlan == 0 then !IsTagged(f) else IsTagged(f) && Vid(f) == vlan
  }

  /** What comes in on an access port belongs to the VLAN of the port, and what
      comes in on a trunk to a VLAN the trunk is enabled for.  Tagging happens to
      untagged frames only, so the frame does grow. */
  lemma Ingress(p: Port, f: Frame)
    requires Sound(p) && !p.l3 && WellFormed(f) && Qualify(p, f).Accept?
    ensures 0 <= Qualify(p, f).vlanToTag < UINT32
    ensures var g := Inside(f, Qualify(p, f));
      && (p.mode.Access? ==> Belongs(g, Operating(p)))
      && (p.mode.Trunk? ==> g == f && IsTagged(f) && Vid(f) in p.vlans)
      && (Qualify(p, f).vlanToTag != 0 ==> |g| != |f|)
      && g[..12] == f[..12]
  {
    if p.mode.Access? && !IsTagged(f) && Operating(p) != 0 {
      TagReads(f, Operating(p));
    }
  }

  /** A frame of a VLAN leaves only without its tag on access ports of the VLAN,
      or tagged on trunks enabled for it; and it does leave on all of those. */
  lemma Egress(p: Port, f: Frame, vlan: int)
    requires Sound(p) && Belongs(f, vlan)
    ensures p.mode.Access? ==>
      Send(p, f) == if Operating(p) == vlan then Some(if vlan == 0 then f else Untagged(f)) else None
    ensures p.mode.Trunk? ==> Send(p, f) == if vlan != 0 && vlan in p.vlans then Some(f) else None
    ensures p.mode.Unknown? ==> Send(p, f) == None
  {
  }

  // The frames that a port is there for: of its own VLAN on an access port, of the VLANs
  // it is enabled for on a trunk, for itself or for all on one with an address.
  predicate LetsIn(p: Port, f: Frame)
    requires WellFormed(f)
  {
    match p.mode
    case Access => !IsTagged(f) || (Operating(p) != 0 && Vid(f) == Operating(p))
    case Trunk => IsTagged(f) && Vid(f) in p.vlans
    case Unknown => p.l3 && !IsTagged(f) && (Dst(f) == p.mac || Dst(f) == BROADCAST)
  }

  // The VLAN in which a frame comes in on an L2 port, and the frame with the tag of it.
  function VlanOf(p: Port, f: Frame): int
    requires WellFormed(f) && LetsIn(p, f)
  {
    if p.mode.Trunk? then Vid(f) else Operating(p)
  }

  function Carried(p: Port, f: Frame): Frame
    requires WellFormed(f)
  {
    if p.mode.Access? && Operating(p) != 0 && !IsTagged(f) then Tagged(f, Operating(p)) else f
  }

  /** Those are the frames let in, and all of them are. */
  lemma Admission(p: Port, f: Frame)
    requires Sound(p) && WellFormed(f)
    ensures Qualify(p, f).Accept? <==> LetsIn(p, f)
    ensures LetsIn(p, f) && !p.l3 ==>
      0 <= Qualify(p, f).vlanToTag < UINT32 && Inside(f, Qualify(p, f)) == Carried(p, f) && WellFormed(Carried(p, f))
    ensures LetsIn(p, f) && !p.l3 && VlanOf(p, f) != 0 ==> Belongs(Carried(p, f), VlanOf(p, f))
    ensures LetsIn(p, f) && p.mode.Access? && Operating(p) == 0 ==> Belongs(Carried(p, f), 0)
    ensures WellFormed(Carried(p, f)) && Carried(p, f)[..12] == f[..12]
  {
    if p.mode.Access? && !IsTagged(f) && Operating(p) != 0 {
      TagReads(f, Operating(p));
    }
  }

  // The ports that a frame inside the switch is for, and what it is when it leaves there.
  predicate Takes(p: Port, g: Frame)
    requires WellFormed(g)
  {
    match p.mode
    case Access => Operating(p) == if IsTagged(g) then Vid(g) else 0
    case Trunk => IsTagged(g) && Vid(g) != 0 && Vid(g) in p.vlans
    case Unknown => false
  }

  function Released(p: Port, g: Frame): Frame
    requires WellFormed(g)
  {
    if p.mode.Access? then Untagged(g) else g
  }

  lemma Release(p: Port, g: Frame)
    requires WellFormed(g)
    ensures Send(p, g) == if Takes(p, g) then Some(Released(p, g)) else None
  {
  }

  lemma NothingSent(p: Port, f: Frame)
    requires WellFormed(f)
    ensures p.mode.Unknown? ==> Send(p, f) == None && !Unwraps(p, f)
  {
  }

  // The port takes a tag off the frame and leaves a second one on it.
  predicate Unwraps(p: Port, f: Frame)
    requires WellFormed(f)
  {
    p.mode.Access? && Twice(f) && Operating(p) == Vid(f)
  }

  /** l2_switch_send_pkt_out on the buffer.  Taking off the tag stays inside it exactly
      if one tag is all there is, or four bytes follow the frame. */
  method SendOut(p: Port, buf: array<byte>, start: nat, size: nat) returns (out: Option<Frame>, inside: bool)
    requires start + size <= buf.Length && WellFormed(buf[..][start..start + size])
    modifies buf
    ensures out == Send(p, old(buf[..])[start..start + size])
    ensures inside <==> (Unwraps(p, old(buf[..])[start..start + size]) ==> start + size + 4 <= buf.Length)
  {
    hide Untagged;
    var f := buf[..][start..start + size];
    inside := true;
    if p.mode.Unknown? {
      return None, inside;
    }
    if p.mode.Access? {
      if Operating(p) == 0 && !IsTagged(f) {
        return Some(f), inside;
      }
      if Operating(p) != 0 && !IsTagged(f) {
        return None, inside;
      }
      if IsTagged(f) && Operating(p) == Vid(f) {
        var newStart, newSize;
        newStart, newSize, inside := Untag(buf, start, size);
        return Some(buf[..][newStart..newStart + newSize]), inside;
      }
      return None, inside;
    }
    var vlan := 0;
    if IsTagged(f) {
      vlan := Vid(f);
    }
    out := if vlan != 0 && vlan in p.vlans then Some(f) else None;
  }
}

/** The learning switch of Layer2/l2switch.c. */
module L2Switch {
  import opened Common
  import opened Frames
  import opened Interfaces

  datatype Entry = Entry(mac: Mac, port: nat)

  datatype Outgoing = Outgoing(port: nat, frame: Frame)

  // mac_table_lookup on the table as a list: the first entry counts.
  function Find(table: seq<Entry>, mac: Mac): Option<nat> {
    if table == [] then None else if table[0].mac == mac then Some(table[0].port) else Find(table[1..], mac)
  }

  // What port `i` adds to a flood.
  function FloodPart(ports: seq<Port>, i: nat, exempted: nat, f: Frame): seq<Outgoing>
    requires i < |ports| && WellFormed(f)
  {
    if i != exempted && Send(ports[i], f).Some? then [Outgoing(i, Send(ports[i], f).value)] else []
  }

  // What a flood over the first `n` ports sends, in order.
  function FloodOut(ports: seq<Port>, n: nat, exempted: nat, f: Frame): seq<Outgoing>
    requires n <= |ports| && WellFormed(f)
  {
    if n == 0 then [] else FloodOut(ports, n - 1, exempted, f) + FloodPart(ports, n - 1, exempted, f)
  }

  lemma {:induction false} FloodSends(ports: seq<Port>, n: nat, exempted: nat, f: Frame, i: nat)
    requires i < n <= |ports| && i != exempted && WellFormed(f) && Send(ports[i], f).Some?
    ensures Outgoing(i, Send(ports[i], f).value) in FloodOut(ports, n, exempted, f)
  {
    hide Send, WellFormed;
    if i < n - 1 {
      FloodSends(ports, n - 1, exempted, f, i);
    }
  }

  lemma {:induction false} FloodSendsOnly(ports: seq<Port>, n: nat, exempted: nat, f: Frame)
    requires n <= |ports| && WellFormed(f)
    ensures forall o | o in FloodOut(ports, n, exempted, f) ::
      o.port < n && o.port != exempted && Send(ports[o.port], f) == Some(o.frame)
  {
    hide Send, WellFormed;
    if n > 0 {
      FloodSendsOnly(ports, n - 1, exempted, f);
    }
  }

  predicate InOrder(out: seq<Outgoing>) {
    forall j, k | 0 <= j < k < |out| :: out[j].port < out[k].port
  }

  lemma OrderedNext(before: seq<Outgoing>, part: seq<Outgoing>)
    requires InOrder(before) && |part| <= 1 && forall o, x | o in before && x in part :: o.port < x.port
    ensures InOrder(before + part)
  {
    var out := before + part;
    forall j, k | 0 <= j < k < |out| ensures out[j].port < out[k].port {
      assert out[j] == before[j] && out[j] in before;
      assert k >= |before| ==> out[k] == part[0] && part[0] in part;
    }
  }

  lemma {:induction false} FloodInOrder(ports: seq<Port>, n: nat, exempted: nat, f: Frame)
    requires n <= |ports| && WellFormed(f)
    ensures InOrder(FloodOut(ports, n, exempted, f))
  {
    hide Send, WellFormed, InOrder, FloodOut, FloodPart;
    FloodNext(ports, n, exempted, f);
    if n > 0 {
      FloodInOrder(ports, n - 1, exempted, f);
      FloodSendsOnly(ports, n - 1, exempted, f);
      PartPort(ports, n - 1, exempted, f);
      OrderedNext(FloodOut(ports, n - 1, exempted, f), FloodPart(ports, n - 1, exempted, f));
    } else {
      OrderedNone();
    }
  }

  lemma FloodNext(ports: seq<Port>, n: nat, exempted: nat, f: Frame)
    requires n <= |ports| && WellFormed(f)
    ensures FloodOut(ports, n, exempted, f) ==
      if n == 0 then [] else FloodOut(ports, n - 1, exempted, f) + FloodPart(ports, n - 1, exempted, f)
  {
  }

  lemma PartPort(ports: seq<Port>, i: nat, exempted: nat, f: Frame)
    requires i < |ports| && WellFormed(f)
    ensures |FloodPart(ports, i, exempted, f)| <= 1
    ensures forall o | o in FloodPart(ports, i, exempted, f) :: o.port == i
  {
    hide Send, WellFormed;
  }

  lemma OrderedNone()
    ensures InOrder([])
  {
  }

  /** A flood sends what each port but the exempted one lets out, and that is all: port
      by port, each once. */
  lemma FloodExact(ports: seq<Port>, n: nat, exempted: nat, f: Frame)
    requires n <= |ports| && WellFormed(f)
    ensures var out := FloodOut(ports, n, exempted, f);
      && (forall i: nat, g :: Outgoing(i, g) in out <==> i < n && i != exempted && Send(ports[i], f) == Some(g))
      && InOrder(out)
  {
    hide Send, WellFormed, FloodOut;
    FloodSendsOnly(ports, n, exempted, f);
    FloodInOrder(ports, n, exempted, f);
    forall i: nat, g | i < n && i != exempted && Send(ports[i], f) == Some(g)
      ensures Outgoing(i, g) in FloodOut(ports, n, exempted, f)
    {
      FloodSends(ports, n, exempted, f, i);
    }
  }

  // Where a frame goes that is not for one known port.
  predicate Floods(table: seq<Entry>, f: Frame)
    requires WellFormed(f)
  {
    Dst(f) == BROADCAST || Find(table, Dst(f)).None?
  }

  // No port that sends the frame takes off one of two tags.
  ghost predicate Unwrapped(ports: seq<Port>, exempted: nat, f: Frame)
    requires WellFormed(f)
  {
    forall i | 0 <= i < |ports| && i != exempted :: !Unwraps(ports[i], f)
  }

  /** When forwarding stays inside its buffers: a flood works on a copy that ends where
      its buffer ends; a single port gets the frame from the buffer it came in. */
  ghost predicate Contained(ports: seq<Port>, table: seq<Entry>, inPort: nat, f: Frame, room: bool)
    requires WellFormed(f)
  {
    if Floods(table, f) then Unwrapped(ports, inPort, f)
    else Find(table, Dst(f)).value < |ports| && Unwraps(ports[Find(table, Dst(f)).value], f) ==> room
  }

  // l2_switch_forward_frame.
  function ForwardOut(ports: seq<Port>, table: seq<Entry>, inPort: nat, f: Frame): seq<Outgoing>
    requires WellFormed(f)
  {
    if Floods(table, f) then FloodOut(ports, |ports|, inPort, f)
    else
      var port := Find(table, Dst(f)).value;
      if port < |ports| && Send(ports[port], f).Some? then [Outgoing(port, Send(ports[port], f).value)] else []
  }

  // The entries that name no other port for `mac`, and one that names `port`.
  ghost predicate Learnt(was: seq<Entry>, now: seq<Entry>, mac: Mac, port: nat) {
    forall m :: Find(now, m) == if m == mac then Some(port) else Find(was, m)
  }

  lemma {:induction false} Absent(table: seq<Entry>, mac: Mac)
    requires forall e | e in table :: e.mac != mac
    ensures Find(table, mac) == None
  {
    if table != [] {
      Absent(table[1..], mac);
    }
  }

  lemma {:induction false} Without(table: seq<Entry>, i: nat, m: Mac)
    requires i < |table| && m != table[i].mac
    ensures Find(table[..i] + table[i + 1..], m) == Find(table, m)
  {
    var rest := table[..i] + table[i + 1..];
    if i == 0 {
      assert rest == table[1..];
    } else {
      Without(table[1..], i - 1, m);
      assert rest[1..] == table[1..][..i - 1] + table[1..][i..];
    }
  }

  lemma Forgotten(table: seq<Entry>, i: nat)
    requires i < |table|
    ensures forall m | m != table[i].mac :: Find(table[..i] + table[i + 1..], m) == Find(table, m)
  {
    hide Find;
    forall m | m != table[i].mac ensures Find(table[..i] + table[i + 1..], m) == Find(table, m) {
      Without(table, i, m);
    }
  }

  lemma OneEach(table: seq<Entry>, i: nat)
    requires i < |table| && forall j, k | 0 <= j < k < |table| :: table[j].mac != table[k].mac
    ensures var rest := table[..i] + table[i + 1..];
      && (forall e | e in rest :: e in table && e.mac != table[i].mac)
      && (forall j, k | 0 <= j < k < |rest| :: rest[j].mac != rest[k].mac)
  {
    var rest := table[..i] + table[i + 1..];
    assert forall j | 0 <= j < |rest| :: rest[j] == table[if j < i then j else j + 1];
  }

  lemma FoundFirst(table: seq<Entry>, e: Entry)
    ensures forall m :: Find([e] + table, m) == if m == e.mac then Some(e.port) else Find(table, m)
  {
    assert ([e] + table)[1..] == table;
  }

  class Switch {
    const ports: seq<Port>
    var table: seq<Entry>

    ghost predicate Valid()
      reads this
    {
      && (forall p | p in ports :: Sound(p))
      && (forall i, j | 0 <= i < j < |table| :: table[i].mac != table[j].mac)
      && (forall e | e in table :: e.port < |ports| && !ports[e.port].l3)
    }

    constructor (ports: seq<Port>)
      requires forall p | p in ports :: Sound(p)
      ensures Valid() && this.ports == ports && table == []
    {
      this.ports, table := ports, [];
    }

    // mac_table_lookup.
    method Lookup(mac: Mac) returns (at: int)
      ensures -1 <= at < |table| && (at == -1 <==> Find(table, mac).None?)
      ensures at >= 0 ==> table[at].mac == mac && Find(table, mac) == Some(table[at].port)
      ensures at == -1 ==> forall e | e in table :: e.mac != mac
    {
      at := 0;
      while at < |table|
        invariant 0 <= at <= |table| && Find(table, mac) == Find(table[at..], mac)
        invariant forall i | 0 <= i < at :: table[i].mac != mac
      {
        if table[at].mac == mac {
          return;
        }
        at := at + 1;
      }
      at := -1;
    }

    /** l2_switch_perform_mac_learning: a station that moved is known at its new port only. */
    method Learn(mac: Mac, port: nat)
      requires Valid() && port < |ports| && !ports[port].l3
      modifies this
      ensures Valid() && Learnt(old(table), table, mac, port)
    {
      var at := Lookup(mac);
      if at >= 0 && table[at].port == port {
        return;
      }
      hide Find;
      if at >= 0 {
        Forgotten(table, at);
        OneEach(table, at);
        table := table[..at] + table[at + 1..];
      }
      FoundFirst(table, Entry(mac, port));
      table := [Entry(mac, port)] + table;
    }

    // One turn of the flood loop.
    method FloodOne(i: nat, exempted: nat, buf: array<byte>, start: nat, f: Frame)
      returns (part: seq<Outgoing>, ok: bool)
      requires i < |ports| && i != exempted && WellFormed(f) && start + |f| == buf.Length
      modifies buf
      ensures part == FloodPart(ports, i, exempted, f) && ok == !Unwraps(ports[i], f)
    {
      hide Send, Unwraps, WellFormed;
      Write(buf, start, f);
      assert buf[..][start..start + |f|] == f;
      var sent;
      sent, ok := SendOut(ports[i], buf, start, |f|);
      part := if sent.Some? then [Outgoing(i, sent.value)] else [];
    }

    /** l2_switch_flood_pkt_out: every port works on a fresh copy of the frame, at the
        end of a packet buffer. */
    method Flood(exempted: nat, f: Frame) returns (out: seq<Outgoing>, inside: bool)
      requires Valid() && WellFormed(f) && |f| <= MAX_PACKET
      ensures out == FloodOut(ports, |ports|, exempted, f)
      ensures inside <==> Unwrapped(ports, exempted, f)
    {
      hide Send, WellFormed, Unwraps, Unwrapped;
      out, inside := [], true;
      var buf := new byte[MAX_PACKET](_ => 0);
      var start := MAX_PACKET - |f|;
      var i := 0;
      while i < |ports|
        invariant 0 <= i <= |ports| && out == FloodOut(ports, i, exempted, f)
        invariant inside <==> forall j | 0 <= j < i && j != exempted :: !Unwraps(ports[j], f)
      {
        if i != exempted && (ports[i].mode.Access? || ports[i].mode.Trunk?) {
          var part, ok := FloodOne(i, exempted, buf, start, f);
          out := out + part;
          inside := inside && ok;
        } else {
          NothingSent(ports[i], f);
        }
        i := i + 1;
      }
      assert inside <==> Unwrapped(ports, exempted, f) by { AllPorts(exempted, f); }
    }

    lemma AllPorts(exempted: nat, f: Frame)
      requires WellFormed(f)
      ensures Unwrapped(ports, exempted, f) <==> forall j | 0 <= j < |ports| && j != exempted :: !Unwraps(ports[j], f)
    {
    }

    /** l2_switch_recv_frame behind layer2_frame_recv, on the buffer the frame came in.
        The port a unicast goes to never works in L3 mode. */
    method Receive(port: nat, buf: array<byte>, start: nat, size: nat) returns (out: seq<Outgoing>, inside: bool)
      requires Valid() && port < |ports| && !ports[port].l3
      requires 4 <= start && start + size <= buf.Length && size + 4 <= MAX_PACKET &&
        WellFormed(buf[..][start..start + size])
      modifies this, buf
      ensures Valid()
      ensures var f := old(buf[..])[start..start + size];
        var v := Qualify(ports[port], f);
        && (v.Reject? ==> out == [] && table == old(table) && inside)
        && (v.Accept? ==>
          && 0 <= v.vlanToTag < UINT32 && Learnt(old(table), table, Src(f), port)
          && out == ForwardOut(ports, table, port, Inside(f, v))
          && (inside <==> Contained(ports, table, port, Inside(f, v), start + size + 4 <= buf.Length)))
    {
      hide Tagged, Untagged;
      ghost var f := buf[..][start..start + size];
      var verdict := Qualify(ports[port], buf[..][start..start + size]);
      if verdict.Reject? {
        return [], true;
      }
      Ingress(ports[port], f);
      var newStart, newSize := start, size;
      if verdict.vlanToTag != 0 {
        ghost var was := buf[..];
        newStart, newSize := Tag(buf, start, size, verdict.vlanToTag);
        Exactly(was[..newStart], Tagged(f, verdict.vlanToTag), was[start + size..]);
        assert newSize != size;
      }
      var g := buf[..][newStart..newStart + newSize];
      assert g == Inside(f, verdict);
      assert Src(g) == Src(f) by { assert g[..12][6..] == f[..12][6..]; }
      Learn(Src(g), port);
      if Dst(g) == BROADCAST {
        out, inside := Flood(port, g);
        return;
      }
      var at := Lookup(Dst(g));
      if at < 0 {
        out, inside := Flood(port, g);
        return;
      }
      var oif := table[at].port;
      assert !ports[oif].l3 by { assert table[at] in table; }
      var sent;
      sent, inside := SendOut(ports[oif], buf, newStart, newSize);
      out := if sent.Some? then [Outgoing(oif, sent.value)] else [];
    }

    // A frame in the buffer that reception puts it in.
    method TakeIn(a: Arrival) returns (out: seq<Outgoing>)
      requires Valid() && Fit(ports, a)
      modifies this
      ensures Valid() && Handled(ports, a, old(table), table, out)
    {
      hide Qualify, ForwardOut, Inside, Sound, WellFormed, Contained;
      var size := |a.frame|;
      var start := MAX_PACKET - IF_NAME - RIGHT_ROOM - size;
      var buf := new byte[MAX_PACKET](_ => 0);
      Write(buf, start, a.frame);
      assert buf[..][start..start + size] == a.frame;
      var inside;
      out, inside := Receive(a.port, buf, start, size);
    }

    /** Any frames in any order, from a switch that has heard nobody: every one of them
        goes exactly where it must. */
    method Run(arrivals: seq<Arrival>) returns (outs: seq<seq<Outgoing>>)
      requires Valid() && table == [] && AllFit(ports, arrivals)
      modifies this
      ensures Valid() && Knows(ports, arrivals, table) && |outs| == |arrivals|
      ensures forall i {:trigger outs[i]} | 0 <= i < |outs| :: Switched(ports, arrivals[..i + 1], outs[i])
    {
      hide Switched, Handled, Knows, WellFormed;
      outs := [];
      var n := 0;
      KnowsNobody(ports);
      while n < |arrivals|
        invariant 0 <= n <= |arrivals| && Valid() && |outs| == n
        invariant Knows(ports, arrivals[..n], table)
        invariant forall i {:trigger outs[i]} | 0 <= i < n :: Switched(ports, arrivals[..i + 1], outs[i])
      {
        ghost var was := table;
        var a := arrivals[n];
        var out := TakeIn(a);
        assert arrivals[..n + 1] == arrivals[..n] + [a];
        KnowsNow(ports, arrivals[..n], a, was, table, out);
        SwitchedNow(ports, arrivals[..n], a, was, table, out);
        outs := outs + [out];
        n := n + 1;
      }
      assert arrivals[..n] == arrivals;
    }
  }

  // ---------- whom a frame reaches ----------

  datatype Arrival = Arrival(port: nat, frame: Frame)

  // A frame on an L2 port, of a size for which reception leaves four bytes in front.
  predicate Fit(ports: seq<Port>, a: Arrival) {
    a.port < |ports| && !ports[a.port].l3 && WellFormed(a.frame) &&
    |a.frame| + 4 <= MAX_PACKET - IF_NAME - RIGHT_ROOM
  }

  predicate AllFit(ports: seq<Port>, arrivals: seq<Arrival>) {
    forall a | a in arrivals :: Fit(ports, a)
  }

  // A frame from the station has been let in.
  predicate Heard(ports: seq<Port>, a: Arrival, m: Mac)
    requires Fit(ports, a)
  {
    LetsIn(ports[a.port], a.frame) && Src(a.frame) == m
  }

  function Latest(arrivals: seq<Arrival>): (a: Arrival)
    requires arrivals != []
    ensures a in arrivals
  {
    arrivals[|arrivals| - 1]
  }

  // The port where the station was heard last.
  function Home(ports: seq<Port>, arrivals: seq<Arrival>, m: Mac): Option<nat>
    requires AllFit(ports, arrivals)
    decreases |arrivals|
  {
    if arrivals == [] then None
    else
      var init, a := arrivals[..|arrivals| - 1], Latest(arrivals);
      if Heard(ports, a, m) then Some(a.port) else Home(ports, init, m)
  }

  /** What must leave for the last of the arrivals: one copy on every port that the frame
      is for, but only on the one where its addressee was heard last, if it was, and
      otherwise not on the one it came in on. */
  ghost predicate Switched(ports: seq<Port>, arrivals: seq<Arrival>, out: seq<Outgoing>)
    requires arrivals != [] && AllFit(ports, arrivals) && forall p | p in ports :: Sound(p)
  {
    var a := Latest(arrivals);
    if !LetsIn(ports[a.port], a.frame) then out == [] else
      var g := Carried(ports[a.port], a.frame);
      var home := if Dst(a.frame) == BROADCAST then None else Home(ports, arrivals, Dst(a.frame));
      WellFormed(g) && InOrder(out) && forall i: nat, x :: Outgoing(i, x) in out <==>
        i < |ports| && Takes(ports[i], g) && x == Released(ports[i], g) &&
        if home.Some? then i == home.value else i != a.port
  }

  // The table knows of every station where it was heard last.
  ghost predicate Knows(ports: seq<Port>, arrivals: seq<Arrival>, table: seq<Entry>)
    requires AllFit(ports, arrivals)
  {
    forall m :: Find(table, m) == Home(ports, arrivals, m)
  }

  // One unicast is enough to be ordered.
  lemma ForwardExact(ports: seq<Port>, table: seq<Entry>, inPort: nat, g: Frame)
    requires WellFormed(g)
    ensures var out := ForwardOut(ports, table, inPort, g);
      var home := if Dst(g) == BROADCAST then None else Find(table, Dst(g));
      InOrder(out) && forall i: nat, x :: Outgoing(i, x) in out <==>
        i < |ports| && Takes(ports[i], g) && x == Released(ports[i], g) &&
        if home.Some? then i == home.value else i != inPort
  {
    hide WellFormed, Send, Takes, Released, FloodOut;
    forall i | 0 <= i < |ports| ensures Send(ports[i], g) == if Takes(ports[i], g) then Some(Released(ports[i], g))
      else None
    {
      Release(ports[i], g);
    }
    FloodExact(ports, |ports|, inPort, g);
  }

  // What Receive does with a frame.
  ghost predicate Handled(ports: seq<Port>, a: Arrival, was: seq<Entry>, table: seq<Entry>, out: seq<Outgoing>)
    requires Fit(ports, a)
  {
    var v := Qualify(ports[a.port], a.frame);
    && (v.Reject? ==> out == [] && table == was)
    && (v.Accept? ==>
      && 0 <= v.vlanToTag < UINT32 && Learnt(was, table, Src(a.frame), a.port)
      && out == ForwardOut(ports, table, a.port, Inside(a.frame, v)))
  }

  lemma KnowsNow(ports: seq<Port>, arrivals: seq<Arrival>, a: Arrival, was: seq<Entry>, table: seq<Entry>,
    out: seq<Outgoing>)
    requires AllFit(ports, arrivals) && Fit(ports, a) && Knows(ports, arrivals, was) && Sound(ports[a.port])
    requires Handled(ports, a, was, table, out)
    ensures AllFit(ports, arrivals + [a]) && Knows(ports, arrivals + [a], table)
  {
    hide Qualify, ForwardOut, Carried, LetsIn, Find, Inside, Sound;
    var all := arrivals + [a];
    assert all[..|all| - 1] == arrivals;
    Admission(ports[a.port], a.frame);
  }

  /** The frame goes where it must. */
  lemma SwitchedNow(ports: seq<Port>, arrivals: seq<Arrival>, a: Arrival, was: seq<Entry>, table: seq<Entry>,
    out: seq<Outgoing>)
    requires AllFit(ports, arrivals + [a]) && Knows(ports, arrivals + [a], table) && forall p | p in ports :: Sound(p)
    requires Fit(ports, a) && Handled(ports, a, was, table, out)
    ensures Switched(ports, arrivals + [a], out)
  {
    hide Qualify, ForwardOut, Carried, LetsIn, Find, Takes, Released, Inside, Home, Sound, InOrder;
    Admission(ports[a.port], a.frame);
    assert Latest(arrivals + [a]) == a;
    if LetsIn(ports[a.port], a.frame) {
      var g := Carried(ports[a.port], a.frame);
      assert g[..12][..6] == a.frame[..12][..6];
      ForwardExact(ports, table, a.port, g);
      assert Dst(g) == Dst(a.frame);
      assert Find(table, Dst(g)) == Home(ports, arrivals + [a], Dst(g));
    }
  }

  lemma KnowsNobody(ports: seq<Port>)
    ensures Knows(ports, [], [])
  {
  }

  // The station was heard on the `j`-th arrival, and on no other port since.
  ghost predicate Settled(ports: seq<Port>, arrivals: seq<Arrival>, j: nat, m: Mac)
    requires AllFit(ports, arrivals) && j < |arrivals|
  {
    && Heard(ports, At(arrivals, j), m)
    && forall k | j < k < |arrivals| && Heard(ports, At(arrivals, k), m) :: arrivals[k].port == arrivals[j].port
  }

  function At(arrivals: seq<Arrival>, i: nat): (a: Arrival)
    requires i < |arrivals|
    ensures a in arrivals
  {
    arrivals[i]
  }

  lemma {:induction false} HomeOf(ports: seq<Port>, arrivals: seq<Arrival>, j: nat, m: Mac)
    requires AllFit(ports, arrivals) && j < |arrivals| && Settled(ports, arrivals, j, m)
    ensures Home(ports, arrivals, m) == Some(arrivals[j].port)
    decreases |arrivals|
  {
    var n := |arrivals| - 1;
    if !Heard(ports, At(arrivals, n), m) {
      forall k | 0 <= k < n ensures At(arrivals[..n], k) == At(arrivals, k) {
      }
      HomeOf(ports, arrivals[..n], j, m);
    }
  }

  /** Unicast: once a station has been heard, a frame for it from elsewhere in its VLAN
      leaves on its port and on no other, once; without a tag if that is an access port
      and the frame did not come in with two. */
  lemma Unicast(ports: seq<Port>, arrivals: seq<Arrival>, j: nat, out: seq<Outgoing>)
    requires arrivals != [] && AllFit(ports, arrivals) && forall p | p in ports :: Sound(p)
    requires Switched(ports, arrivals, out) && j < |arrivals|
    requires Settled(ports, arrivals, j, Dst(Latest(arrivals).frame)) && Dst(Latest(arrivals).frame) != BROADCAST
    requires LetsIn(ports[Latest(arrivals).port], Latest(arrivals).frame)
    requires VlanOf(ports[Latest(arrivals).port], Latest(arrivals).frame) ==
      VlanOf(ports[At(arrivals, j).port], At(arrivals, j).frame)
    requires VlanOf(ports[At(arrivals, j).port], At(arrivals, j).frame) != 0 || ports[At(arrivals, j).port].mode.Access?
    ensures var a, i := Latest(arrivals), arrivals[j].port;
      var g := Carried(ports[a.port], a.frame);
      && WellFormed(g) && out == [Outgoing(i, Released(ports[i], g))]
      && (ports[i].mode.Access? && !Twice(g) ==> !IsTagged(Released(ports[i], g)))
      && (ports[i].mode.Trunk? ==> Belongs(Released(ports[i], g), VlanOf(ports[i], arrivals[j].frame)))
  {
    hide Released, Home, Tagged, Untagged;
    var a, i := Latest(arrivals), At(arrivals, j).port;
    var g := Carried(ports[a.port], a.frame);
    HomeOf(ports, arrivals, j, Dst(a.frame));
    Admission(ports[a.port], a.frame);
    assert Sound(ports[i]);
    assert Takes(ports[i], g);
    OneOnly(out, i, Released(ports[i], g));
    ReleasedTag(ports[i], g);
  }

  lemma OneOnly(out: seq<Outgoing>, i: nat, x: Frame)
    requires InOrder(out) && forall k: nat, y :: Outgoing(k, y) in out <==> k == i && y == x
    ensures out == [Outgoing(i, x)]
  {
    assert Outgoing(i, x) in out;
    var first, last := out[0], out[|out| - 1];
    assert |out| > 1 ==> first.port < last.port;
    forall o | o in out ensures o == Outgoing(i, x) {
      assert Outgoing(o.port, o.frame) in out;
    }
  }

  lemma ReleasedTag(p: Port, g: Frame)
    requires WellFormed(g)
    ensures p.mode.Access? ==> (IsTagged(Released(p, g)) <==> Twice(g))
    ensures !p.mode.Access? ==> Released(p, g) == g
  {
    if IsTagged(g) { UntagsOnce(g); }
  }

  // What pkt_receive leaves to the right of a frame is room enough for one port.
  lemma RoomBehind(ports: seq<Port>, table: seq<Entry>, inPort: nat, f: Frame, start: nat, size: nat)
    requires WellFormed(f) && start + size == MAX_PACKET - IF_NAME - RIGHT_ROOM
    ensures Contained(ports, table, inPort, f, start + size + 4 <= MAX_PACKET) <==>
      (Floods(table, f) ==> Unwrapped(ports, inPort, f))
  {
  }
}

/** A network of switches: access ports lead to hosts, trunks to trunks. */
module SwitchedNetwork {
  import opened Common
  import opened Frames
  import opened Interfaces
  import opened L2Switch

  datatype Peer = Host | Wire(node: int, port: nat)

  datatype Socket = Socket(port: Port, peer: Peer)

  type Net = map<int, seq<Socket>>

  predicate At(net: Net, node: int, port: nat) {
    node in net && port < |net[node]|
  }

  ghost predicate Built(net: Net, node: int, i: nat)
    requires At(net, node, i)
  {
    var s := net[node][i];
    && Sound(s.port)
    && (s.port.mode.Access? ==> s.peer.Host?)
    && (s.port.mode.Trunk? ==>
      s.peer.Wire? && At(net, s.peer.node, s.peer.port) && net[s.peer.node][s.peer.port].port.mode.Trunk?)
  }

  ghost predicate WellBuilt(net: Net) {
    forall node, i {:trigger Built(net, node, i)} | At(net, node, i) :: Built(net, node, i)
  }

  function Ports(net: Net, node: int): (ps: seq<Port>)
    requires node in net
    ensures |ps| == |net[node]| && forall i | 0 <= i < |ps| :: ps[i] == net[node][i].port
  {
    seq(|net[node]|, i requires 0 <= i < |net[node]| => net[node][i].port)
  }

  // Where a frame came from: the VLAN of the access port, and whether it had two tags.
  datatype Origin = Origin(vlan: int, twice: bool)

  /** A frame about to arrive at a port, or one that has left it.  The switches do not
      see the origin noted here. */
  datatype Copy = Copy(node: int, port: nat, frame: Frame, origin: Origin)

  // `sent` are all the frames that have left a switch.
  datatype State = State(tables: map<int, seq<Entry>>, inflight: multiset<Copy>, sent: multiset<Copy>)

  datatype Event = Inject(node: int, port: nat, frame: Frame) | Process(c: Copy, table: seq<Entry>)

  function Table(s: State, node: int): seq<Entry> {
    if node in s.tables then s.tables[node] else []
  }

  ghost predicate Enabled(net: Net, s: State, e: Event) {
    match e
    case Inject(node, port, f) => At(net, node, port) && net[node][port].peer.Host? &&
      net[node][port].port.mode.Access? && WellFormed(f)
    case Process(c, table) =>
      && c in s.inflight && At(net, c.node, c.port) && WellFormed(c.frame)
      && (if Switches(net[c.node][c.port].port, c.frame) then Learnt(Table(s, c.node), table, Src(c.frame), c.port)
          else table == Table(s, c.node))
  }

  // layer2_frame_recv hands the frame to the switch; otherwise nothing is learnt or sent.
  predicate Switches(p: Port, f: Frame)
    requires WellFormed(f)
  {
    !p.l3 && Qualify(p, f).Accept? && 0 <= Qualify(p, f).vlanToTag < UINT32
  }

  // What the switch sends on, if it lets the frame in.
  function Reaction(net: Net, c: Copy, table: seq<Entry>): seq<Outgoing>
    requires At(net, c.node, c.port) && WellFormed(c.frame)
  {
    var p := net[c.node][c.port].port;
    var v := Qualify(p, c.frame);
    if Switches(p, c.frame) then ForwardOut(Ports(net, c.node), table, c.port, Inside(c.frame, v)) else []
  }

  function Leaving(node: int, out: seq<Outgoing>, origin: Origin): multiset<Copy> {
    if out == [] then multiset{} else multiset{Copy(node, out[0].port, out[0].frame, origin)} + Leaving(node,
      out[1..], origin)
  }

  function Arriving(net: Net, node: int, out: seq<Outgoing>, origin: Origin): multiset<Copy> {
    if out == [] then multiset{} else
      Arriving(net, node, out[1..], origin) +
      if At(net, node, out[0].port) && net[node][out[0].port].peer.Wire?
      then multiset{Passed(net[node][out[0].port].peer, out[0].frame, origin)}
      else multiset{}
  }

  // The frame at the other end of the wire.
  function Passed(peer: Peer, f: Frame, origin: Origin): Copy
    requires peer.Wire?
  {
    Copy(peer.node, peer.port, f, origin)
  }

  ghost function Step(net: Net, s: State, e: Event): State
    requires Enabled(net, s, e)
  {
    match e
    case Inject(node, port, f) => s.(inflight := s.inflight + multiset{Injected(net, node, port, f)})
    case Process(c, table) =>
      var out := Reaction(net, c, table);
      State(
        s.tables[c.node := table],
        s.inflight - multiset{c} + Arriving(net, c.node, out, c.origin),
        s.sent + Leaving(c.node, out, c.origin))
  }

  function Injected(net: Net, node: int, port: nat, f: Frame): Copy
    requires At(net, node, port)
  {
    Copy(node, port, f, Origin(Operating(net[node][port].port), Twice(f)))
  }

  // ---------- isolation ----------

  /** A frame that entered in a VLAN is under way to an access port of the VLAN, or
      tagged to a trunk; it has two tags exactly if it came with two. */
  ghost predicate Confined(net: Net, c: Copy) {
    At(net, c.node, c.port) && WellFormed(c.frame) &&
    var p := net[c.node][c.port].port;
    && (p.mode.Access? ==> c.origin.vlan == Operating(p))
    && (p.mode.Trunk? ==> c.origin.vlan != 0 && Belongs(c.frame, c.origin.vlan))
    && !p.mode.Unknown? && Twice(c.frame) == c.origin.twice
  }

  /** A frame has left tagged on a trunk that is enabled for its VLAN, or on an access
      port of its VLAN, without the tag it had inside the switch: it is free of tags
      then, exactly if it did not enter with two. */
  ghost predicate Isolated(net: Net, c: Copy) {
    At(net, c.node, c.port) &&
    var p := net[c.node][c.port].port;
    && (p.mode.Access? ==> c.origin.vlan == Operating(p) && LeavesUntagged(c))
    && (p.mode.Trunk? ==> c.origin.vlan != 0 && c.origin.vlan in p.vlans && Belongs(c.frame, c.origin.vlan))
    && !p.mode.Unknown?
  }

  ghost predicate LeavesUntagged(c: Copy) {
    && (IsTagged(c.frame) <==> c.origin.twice)
    && exists g :: Stripped(c, g)
  }

  ghost predicate Stripped(c: Copy, inside: Frame) {
    && Belongs(inside, c.origin.vlan) && Twice(inside) == c.origin.twice
    && c.frame == if c.origin.vlan == 0 then inside else Untagged(inside)
  }

  ghost predicate Inv(net: Net, s: State) {
    && (forall c {:trigger Confined(net, c)} | c in s.inflight :: Confined(net, c))
    && (forall c {:trigger Isolated(net, c)} | c in s.sent :: Isolated(net, c))
  }

  // Everything a switch sends was let out by the port it leaves on.
  ghost predicate LetOut(ports: seq<Port>, f: Frame, out: seq<Outgoing>)
    requires WellFormed(f)
  {
    forall o | o in out :: o.port < |ports| && Send(ports[o.port], f) == Some(o.frame)
  }

  lemma FloodLetsOut(ports: seq<Port>, n: nat, exempted: nat, f: Frame)
    requires n <= |ports| && WellFormed(f)
    ensures LetOut(ports, f, FloodOut(ports, n, exempted, f))
  {
    hide Send;
    FloodExact(ports, n, exempted, f);
    forall o | o in FloodOut(ports, n, exempted, f) ensures o.port < |ports| &&
      Send(ports[o.port], f) == Some(o.frame) {
      assert o == Outgoing(o.port, o.frame);
    }
  }

  lemma ForwardLetsOut(ports: seq<Port>, table: seq<Entry>, inPort: nat, f: Frame)
    requires WellFormed(f)
    ensures LetOut(ports, f, ForwardOut(ports, table, inPort, f))
  {
    FloodLetsOut(ports, |ports|, inPort, f);
  }

  // A frame let out of a switch is isolated, and confined where it arrives.
  lemma OneIsolated(net: Net, node: int, f: Frame, o: Outgoing, origin: Origin)
    requires WellBuilt(net) && At(net, node, o.port) && Belongs(f, origin.vlan) && Twice(f) == origin.twice
    requires Send(net[node][o.port].port, f) == Some(o.frame)
    ensures Isolated(net, Copy(node, o.port, o.frame, origin))
    ensures net[node][o.port].peer.Wire? ==> Confined(net, Passed(net[node][o.port].peer, o.frame, origin))
  {
    hide Untagged, Send;
    assert Built(net, node, o.port);
    Egress(net[node][o.port].port, f, origin.vlan);
    var c := Copy(node, o.port, o.frame, origin);
    if net[node][o.port].port.mode.Access? {
      assert Stripped(c, f);
      if origin.vlan != 0 { UntagsOnce(f); }
    }
  }

  lemma {:induction false} AllIsolated(net: Net, node: int, f: Frame, out: seq<Outgoing>, origin: Origin)
    requires WellBuilt(net) && node in net && Belongs(f, origin.vlan) && Twice(f) == origin.twice
    requires LetOut(Ports(net, node), f, out)
    ensures forall c {:trigger Isolated(net, c)} | c in Leaving(node, out, origin) :: Isolated(net, c)
    ensures forall c {:trigger Confined(net, c)} | c in Arriving(net, node, out, origin) :: Confined(net, c)
  {
    hide Isolated, Confined, Send, Twice;
    if out != [] {
      assert out[0] in out;
      OneIsolated(net, node, f, out[0], origin);
      AllIsolated(net, node, f, out[1..], origin);
    }
  }

  // What a confined frame has become inside the switch belongs to its VLAN.
  lemma LetIn(net: Net, c: Copy)
    requires WellBuilt(net) && Confined(net, c)
    requires Qualify(net[c.node][c.port].port, c.frame).Accept? && !net[c.node][c.port].port.l3
    ensures Switches(net[c.node][c.port].port, c.frame)
    ensures var g := Inside(c.frame, Qualify(net[c.node][c.port].port, c.frame));
      Belongs(g, c.origin.vlan) && Twice(g) == c.origin.twice
  {
    hide Twice, Tagged;
    var p := net[c.node][c.port].port;
    assert Built(net, c.node, c.port);
    Ingress(p, c.frame);
    if Qualify(p, c.frame).vlanToTag != 0 {
      TagsOnce(c.frame, Qualify(p, c.frame).vlanToTag);
    }
  }

  /** Every step keeps the VLANs apart. */
  lemma StepIsolates(net: Net, s: State, e: Event)
    requires WellBuilt(net) && Inv(net, s) && Enabled(net, s, e)
    ensures Inv(net, Step(net, s, e))
  {
    hide Isolated, Twice, Qualify;
    match e
    case Inject(node, port, f) =>
      assert Confined(net, Injected(net, node, port, f)) by { InjectedConfined(net, node, port, f); }
    case Process(c, table) =>
      assert Confined(net, c);
      var p := net[c.node][c.port].port;
      if Switches(p, c.frame) {
        LetIn(net, c);
        var g := Inside(c.frame, Qualify(p, c.frame));
        ForwardLetsOut(Ports(net, c.node), table, c.port, g);
        AllIsolated(net, c.node, g, Reaction(net, c, table), c.origin);
      }
  }

  lemma InjectedConfined(net: Net, node: int, port: nat, f: Frame)
    requires At(net, node, port) && net[node][port].port.mode.Access? && WellFormed(f)
    ensures Confined(net, Injected(net, node, port, f))
  {
  }

  ghost predicate Runs(net: Net, s: State, es: seq<Event>)
    decreases |es|, 0
  {
    es == [] || (Runs(net, s, es[..|es| - 1]) && Enabled(net, Run(net, s, es[..|es| - 1]), es[|es| - 1]))
  }

  ghost function Run(net: Net, s: State, es: seq<Event>): State
    requires Runs(net, s, es)
    decreases |es|, 1
  {
    if es == [] then s else Step(net, Run(net, s, es[..|es| - 1]), es[|es| - 1])
  }

  const START := State(map[], multiset{}, multiset{})

  /** VLAN isolation over whole runs, through learning, flooding and unicast: every
      frame that ever leaves a switch is isolated. */
  lemma {:induction false} Isolation(net: Net, es: seq<Event>)
    requires WellBuilt(net) && Runs(net, START, es)
    ensures Inv(net, Run(net, START, es))
    ensures forall c | c in Run(net, START, es).sent :: Isolated(net, c)
    decreases |es|
  {
    if es != [] {
      Isolation(net, es[..|es| - 1]);
      StepIsolates(net, Run(net, START, es[..|es| - 1]), es[|es| - 1]);
    }
  }

  // ---------- which frames leave untagged ----------

  // The origin noted with a copy is that of an injected frame.
  ghost predicate Stems(net: Net, es: seq<Event>, origin: Origin) {
    exists e ::
      e in es && e.Inject? && At(net, e.node, e.port) && origin == Injected(net, e.node, e.port, e.frame).origin
  }

  lemma {:induction false} SameOrigin(net: Net, node: int, out: seq<Outgoing>, origin: Origin)
    ensures forall c | c in Leaving(node, out, origin) || c in Arriving(net, node, out, origin) :: c.origin == origin
  {
    if out != [] {
      SameOrigin(net, node, out[1..], origin);
    }
  }

  lemma StemsLater(net: Net, es: seq<Event>, e: Event, origin: Origin)
    requires Stems(net, es, origin)
    ensures Stems(net, es + [e], origin)
  {
    var i :| i in es && i.Inject? && At(net, i.node, i.port) && origin == Injected(net, i.node, i.port, i.frame).origin;
    assert i in es + [e];
  }

  ghost predicate AllStem(net: Net, es: seq<Event>, s: State) {
    forall c {:trigger Stems(net, es, c.origin)} | c in s.inflight || c in s.sent :: Stems(net, es, c.origin)
  }

  lemma StepStems(net: Net, es: seq<Event>, s: State, e: Event)
    requires Enabled(net, s, e) && AllStem(net, es, s)
    ensures AllStem(net, es + [e], Step(net, s, e))
  {
    hide Stems, Reaction, Injected;
    var t := Step(net, s, e);
    if e.Process? {
      SameOrigin(net, e.c.node, Reaction(net, e.c, e.table), e.c.origin);
    }
    forall c | c in t.inflight || c in t.sent ensures Stems(net, es + [e], c.origin) {
      if c in s.inflight || c in s.sent {
        StemsLater(net, es, e, c.origin);
      } else if e.Process? {
        assert Stems(net, es, e.c.origin);
        StemsLater(net, es, e, e.c.origin);
      } else {
        Starts(net, es, e);
      }
    }
  }

  lemma Starts(net: Net, es: seq<Event>, e: Event)
    requires e.Inject? && At(net, e.node, e.port)
    ensures Stems(net, es + [e], Injected(net, e.node, e.port, e.frame).origin)
  {
    assert e in es + [e];
  }

  lemma {:induction false} Traced(net: Net, es: seq<Event>)
    requires Runs(net, START, es)
    ensures AllStem(net, es, Run(net, START, es))
    decreases |es|
  {
    hide AllStem, Enabled;
    if es != [] {
      var before, e := es[..|es| - 1], es[|es| - 1];
      Traced(net, before);
      assert es == before + [e];
      StepStems(net, before, Run(net, START, before), e);
    } else {
      NoneStem(net);
    }
  }

  lemma NoneStem(net: Net)
    ensures AllStem(net, [], START)
  {
  }

  /** A frame that leaves on an access port is one that a host put in, on a port of the
      same VLAN; it carries no tag exactly if it entered without a second one. */
  lemma UntaggedExactly(net: Net, es: seq<Event>, c: Copy)
    requires WellBuilt(net) && Runs(net, START, es) && c in Run(net, START, es).sent
    requires At(net, c.node, c.port) && net[c.node][c.port].port.mode.Access?
    ensures exists e ::
      e in es && Entered(net, e, Operating(net[c.node][c.port].port)) &&
      c.origin == Injected(net, e.node, e.port, e.frame).origin && (IsTagged(c.frame) <==> Twice(e.frame))
  {
    Isolation(net, es);
    Traced(net, es);
    assert Isolated(net, c) && Stems(net, es, c.origin);
    var e :| e in es && e.Inject? && At(net, e.node, e.port) &&
      c.origin == Injected(net, e.node, e.port, e.frame).origin;
    assert Entered(net, e, c.origin.vlan);
  }

  // A frame enters on a port of the VLAN.
  ghost predicate Entered(net: Net, e: Event, vlan: int) {
    e.Inject? && At(net, e.node, e.port) && Operating(net[e.node][e.port].port) == vlan
  }

  /** So if hosts send no frame with two tags, access ports let out untagged frames only. */
  lemma SingleTagged(net: Net, es: seq<Event>)
    requires WellBuilt(net) && Runs(net, START, es)
    requires forall e | e in es && e.Inject? :: !Twice(e.frame)
    ensures forall c | c in Run(net, START, es).sent && At(net, c.node, c.port) &&
      net[c.node][c.port].port.mode.Access? ::
      !IsTagged(c.frame)
  {
    var sent := Run(net, START, es).sent;
    forall c | c in sent && At(net, c.node, c.port) &&
      net[c.node][c.port].port.mode.Access? ensures !IsTagged(c.frame) {
      UntaggedExactly(net, es, c);
    }
  }

  // ---------- along a path of switches ----------

  // A switch lets a frame from the station in.
  predicate Hears(net: Net, e: Event, node: int, m: Mac) {
    e.Process? && e.c.node == node && At(net, node, e.c.port) && WellFormed(e.c.frame) &&
    !net[node][e.c.port].port.l3 && LetsIn(net[node][e.c.port].port, e.c.frame) && Src(e.c.frame) == m
  }

  // The port of the switch where the station was heard last.
  function LastHeard(net: Net, es: seq<Event>, node: int, m: Mac): Option<nat>
    decreases |es|
  {
    if es == [] then None
    else if Hears(net, es[|es| - 1], node, m) then Some(es[|es| - 1].c.port)
    else LastHeard(net, es[..|es| - 1], node, m)
  }

  // A switch lets in what its port is there for.
  lemma SwitchesAll(net: Net, node: int, port: nat, f: Frame)
    requires WellBuilt(net) && At(net, node, port) && WellFormed(f)
    ensures var p := net[node][port].port;
      Switches(p, f) <==> !p.l3 && LetsIn(p, f)
  {
    assert Built(net, node, port);
    Admission(net[node][port].port, f);
  }

  /** On every run the tables know of each station where the switch heard it last. */
  lemma {:induction false} Tables(net: Net, es: seq<Event>, node: int, m: Mac)
    requires WellBuilt(net) && Runs(net, START, es)
    ensures Find(Table(Run(net, START, es), node), m) == LastHeard(net, es, node, m)
    decreases |es|
  {
    hide LetsIn, Switches, Reaction, WellFormed;
    if es != [] {
      var init, e := es[..|es| - 1], es[|es| - 1];
      Tables(net, init, node, m);
      if e.Process? { SwitchesAll(net, e.c.node, e.c.port, e.c.frame); }
    }
  }

  datatype Hop = Hop(node: int, port: nat)

  // The ports lead from switch to switch over trunks of the VLAN to an access port of it.
  ghost predicate Leads(net: Net, path: seq<Hop>, vlan: int)
    decreases |path|
  {
    path != [] && At(net, path[0].node, path[0].port) &&
    var s := net[path[0].node][path[0].port];
    if |path| == 1 then s.port.mode.Access? && Operating(s.port) == vlan
    else
      && s.port.mode.Trunk? && vlan in s.port.vlans && s.peer.Wire? && s.peer.node == path[1].node
      && At(net, s.peer.node, s.peer.port) && net[s.peer.node][s.peer.port].port.mode.Trunk? &&
        vlan in net[s.peer.node][s.peer.port].port.vlans
      && Leads(net, path[1..], vlan)
  }

  ghost predicate Points(s: State, path: seq<Hop>, m: Mac) {
    forall h | h in path :: Find(Table(s, h.node), m) == Some(h.port)
  }

  // A frame for the station, from another one, is under way in the VLAN.
  ghost predicate Bound(net: Net, c: Copy, m: Mac, vlan: int) {
    At(net, c.node, c.port) && WellFormed(c.frame) && Dst(c.frame) == m != BROADCAST && Src(c.frame) != m &&
      vlan != 0 &&
    var p := net[c.node][c.port].port;
    !p.l3 && LetsIn(p, c.frame) && VlanOf(p, c.frame) == vlan
  }

  // A switch that knows the station passes the frame on to its port, and nowhere else.
  lemma OneHop(net: Net, c: Copy, table: seq<Entry>, h: Hop, m: Mac, vlan: int)
    requires WellBuilt(net) && Bound(net, c, m, vlan) && c.node == h.node && At(net, h.node, h.port)
    requires Find(table, m) == Some(h.port)
    ensures var p, q := net[c.node][c.port].port, net[h.node][h.port].port;
      var g := Carried(p, c.frame);
      && Switches(p, c.frame) && Belongs(g, vlan) && g[..12] == c.frame[..12]
      && (Takes(q, g) ==> Reaction(net, c, table) == [Outgoing(h.port, Released(q, g))])
  {
    hide LetsIn, Carried, Switches, Takes, Released, ForwardOut, Tagged, Untagged, Built;
    var p, q := net[c.node][c.port].port, net[h.node][h.port].port;
    var g := Carried(p, c.frame);
    SoundPort(net, c.node, c.port);
    SwitchesAll(net, c.node, c.port, c.frame);
    Admission(p, c.frame);
    assert g[..12][..6] == c.frame[..12][..6];
    ForwardExact(Ports(net, c.node), table, c.port, g);
    assert Dst(g) == m && Ports(net, c.node)[h.port] == q;
    if Takes(q, g) { OneOnly(ForwardOut(Ports(net, c.node), table, c.port, g), h.port, Released(q, g)); }
  }

  lemma SoundPort(net: Net, node: int, port: nat)
    requires WellBuilt(net) && At(net, node, port)
    ensures Sound(net[node][port].port)
  {
    assert Built(net, node, port);
  }

  // One copy for every hop.
  ghost predicate Along(path: seq<Hop>, hops: seq<Copy>, origin: Origin) {
    |hops| == |path| && forall j | 0 <= j < |path| ::
      hops[j].node == path[j].node && hops[j].port == path[j].port && hops[j].origin == origin
  }

  lemma AlongNext(path: seq<Hop>, o: Copy, rest: seq<Copy>, origin: Origin)
    requires path != [] && Along(path[1..], rest, origin)
    requires o.node == path[0].node && o.port == path[0].port && o.origin == origin
    ensures Along(path, [o] + rest, origin)
  {
  }

  // What the frame leaves behind on its way: one copy for every hop, the last one
  // without the tag of the VLAN, and nothing else.
  ghost predicate Travelled(net: Net, s: State, t: State, c: Copy, path: seq<Hop>, hops: seq<Copy>)
    requires At(net, c.node, c.port) && WellFormed(c.frame)
  {
    && hops != [] && t.inflight == s.inflight - multiset{c} && t.sent == s.sent + multiset(hops)
    && Along(path, hops, c.origin)
    && WellFormed(Carried(net[c.node][c.port].port, c.frame))
    && hops[|hops| - 1].frame == Untagged(Carried(net[c.node][c.port].port, c.frame))
  }

  // The event of a switch that handles a copy, learning its source.
  function Handling(s: State, c: Copy): Event
    requires |c.frame| >= 12
  {
    Process(c, [Entry(Src(c.frame), c.port)] + Table(s, c.node))
  }

  lemma Handles(net: Net, s: State, c: Copy, m: Mac, vlan: int)
    requires WellBuilt(net) && Bound(net, c, m, vlan) && c in s.inflight
    ensures var e := Handling(s, c);
      && Enabled(net, s, e) && Find(e.table, m) == Find(Table(s, c.node), m)
      && forall node :: Find(Table(Step(net, s, e), node), m) == Find(Table(s, node), m)
  {
    hide LetsIn, Find, Reaction;
    SwitchesAll(net, c.node, c.port, c.frame);
    FoundFirst(Table(s, c.node), Entry(Src(c.frame), c.port));
  }

  // One step of the way, on an access port or on a trunk.
  lemma Leaves(net: Net, s: State, c: Copy, h: Hop, m: Mac, vlan: int)
    requires WellBuilt(net) && Bound(net, c, m, vlan) && c in s.inflight && c.node == h.node && At(net, h.node, h.port)
    requires Find(Table(s, h.node), m) == Some(h.port)
    ensures var e, q, g := Handling(s, c), net[h.node][h.port], Carried(net[c.node][c.port].port, c.frame);
      && Enabled(net, s, e) && Belongs(g, vlan) && g[..12] == c.frame[..12]
      && (Takes(q.port, g) ==>
        var t, o := Step(net, s, e), Copy(h.node, h.port, Released(q.port, g), c.origin);
        && t.sent == s.sent + multiset{o}
        && t.inflight == s.inflight - multiset{c} + (if q.peer.Wire? then multiset{Passed(q.peer, o.frame, c.origin)}
          else multiset{}))
  {
    hide LetsIn, Carried, Takes, Released, ForwardOut, Tagged, Untagged, Built, Reaction, Find, Switches;
    Handles(net, s, c, m, vlan);
    OneHop(net, c, Handling(s, c).table, h, m, vlan);
    var q, g := net[h.node][h.port], Carried(net[c.node][c.port].port, c.frame);
    OneLeaving(net, h.node, Outgoing(h.port, Released(q.port, g)), c.origin);
  }

  lemma OneLeaving(net: Net, node: int, o: Outgoing, origin: Origin)
    requires At(net, node, o.port)
    ensures Leaving(node, [o], origin) == multiset{Copy(node, o.port, o.frame, origin)}
    ensures Arriving(net, node, [o], origin) == if net[node][o.port].peer.Wire?
      then multiset{Passed(net[node][o.port].peer, o.frame, origin)} else multiset{}
  {
    assert [o][1..] == [];
  }

  lemma {:induction false} RunsFront(net: Net, s: State, e: Event, es: seq<Event>)
    requires Enabled(net, s, e) && Runs(net, Step(net, s, e), es)
    ensures Runs(net, s, [e] + es) && Run(net, s, [e] + es) == Run(net, Step(net, s, e), es)
    decreases |es|
  {
    hide Enabled, Step;
    var all := [e] + es;
    if es == [] {
      assert all[..0] == [] && Runs(net, s, []) && Run(net, s, []) == s;
    } else {
      assert all[..|all| - 1] == [e] + es[..|es| - 1];
      RunsFront(net, s, e, es[..|es| - 1]);
    }
  }

  lemma Swapped(all: multiset<Copy>, c: Copy, d: Copy)
    ensures all - multiset{c} + multiset{d} - multiset{d} == all - multiset{c}
  {
  }

  lemma OneMoreSent(all: multiset<Copy>, o: Copy, rest: seq<Copy>)
    ensures all + multiset{o} + multiset(rest) == all + multiset([o] + rest)
  {
    assert multiset([o] + rest) == multiset{o} + multiset(rest);
  }

  // One hop, and the rest of the way.
  lemma Longer(net: Net, s: State, t: State, u: State, c: Copy, d: Copy, path: seq<Hop>, o: Copy, rest: seq<Copy>)
    requires At(net, c.node, c.port) && WellFormed(c.frame) && At(net, d.node, d.port) && WellFormed(d.frame)
    requires c in s.inflight && t.inflight == s.inflight - multiset{c} + multiset{d} && t.sent == s.sent + multiset{o}
    requires |path| > 1 && Travelled(net, t, u, d, path[1..], rest) && d.origin == c.origin
    requires Carried(net[d.node][d.port].port, d.frame) == Carried(net[c.node][c.port].port, c.frame)
    requires o.node == path[0].node && o.port == path[0].port && o.origin == c.origin
    ensures Travelled(net, s, u, c, path, [o] + rest)
  {
    hide Carried, WellFormed, Untagged, Along;
    Swapped(s.inflight, c, d);
    OneMoreSent(s.sent, o, rest);
    AlongNext(path, o, rest, c.origin);
    assert ([o] + rest)[|rest|] == rest[|rest| - 1];
  }

  /** A unicast frame travels along the ports where its addressee was heard, one copy from
      switch to switch, and leaves on the last one without its tag; no other port sees it. */
  lemma {:induction false} Travels(net: Net, s: State, c: Copy, path: seq<Hop>, m: Mac, vlan: int)
    returns (es: seq<Event>, hops: seq<Copy>)
    requires WellBuilt(net) && Bound(net, c, m, vlan) && c in s.inflight
    requires Leads(net, path, vlan) && path[0].node == c.node && Points(s, path, m)
    ensures At(net, c.node, c.port) && WellFormed(c.frame)
    ensures Runs(net, s, es) && |es| == |path| && Travelled(net, s, Run(net, s, es), c, path, hops)
    decreases |path|
  {
    hide LetsIn, Carried, Released, Reaction, Find, Enabled, Step, Built, Untagged, Tagged, WellFormed, Runs, Run,
      Travelled, Takes, VlanOf, WellBuilt;
    BoundPlace(net, c, m, vlan);
    var h, g := path[0], Carried(net[c.node][c.port].port, c.frame);
    var e, q := Handling(s, c), net[h.node][h.port];
    assert h in path;
    Leaves(net, s, c, h, m, vlan);
    Handles(net, s, c, m, vlan);
    var o := Copy(h.node, h.port, Released(q.port, g), c.origin);
    var t := Step(net, s, e);
    NoEvents(net, t);
    if |path| == 1 {
      LastHop(net, h, g, vlan);
      es, hops := [e], [o];
      RunsFront(net, s, e, []);
      assert [e] + [] == [e];
      OneHopOnly(net, s, t, c, path, o);
    } else {
      var d := Passed(q.peer, o.frame, c.origin);
      NextHop(net, c, path, m, vlan, g);
      assert forall x | x in path[1..] :: x in path;
      var more, rest := Travels(net, t, d, path[1..], m, vlan);
      es, hops := [e] + more, [o] + rest;
      RunsFront(net, s, e, more);
      Longer(net, s, t, Run(net, t, more), c, d, path, o, rest);
    }
  }

  lemma BoundPlace(net: Net, c: Copy, m: Mac, vlan: int)
    requires Bound(net, c, m, vlan)
    ensures At(net, c.node, c.port) && WellFormed(c.frame) && |c.frame| >= 12
  {
  }

  lemma OneHopOnly(net: Net, s: State, t: State, c: Copy, path: seq<Hop>, o: Copy)
    requires At(net, c.node, c.port) && WellFormed(c.frame) && |path| == 1
    requires t.inflight == s.inflight - multiset{c} && t.sent == s.sent + multiset{o}
    requires o.node == path[0].node && o.port == path[0].port && o.origin == c.origin
    requires WellFormed(Carried(net[c.node][c.port].port, c.frame))
    requires o.frame == Untagged(Carried(net[c.node][c.port].port, c.frame))
    ensures Travelled(net, s, t, c, path, [o])
  {
    assert multiset([o]) == multiset{o};
  }

  lemma NoEvents(net: Net, s: State)
    ensures Runs(net, s, []) && Run(net, s, []) == s
  {
  }

  lemma LastHop(net: Net, h: Hop, g: Frame, vlan: int)
    requires At(net, h.node, h.port) && WellBuilt(net) && Belongs(g, vlan)
    requires net[h.node][h.port].port.mode.Access? && Operating(net[h.node][h.port].port) == vlan
    ensures Takes(net[h.node][h.port].port, g) && Released(net[h.node][h.port].port, g) == Untagged(g)
    ensures !net[h.node][h.port].peer.Wire?
  {
    assert Built(net, h.node, h.port);
  }

  // The frame is under way to the next switch, unchanged.
  lemma NextHop(net: Net, c: Copy, path: seq<Hop>, m: Mac, vlan: int, g: Frame)
    requires WellBuilt(net) && Bound(net, c, m, vlan) && Leads(net, path, vlan) && |path| > 1
    requires Belongs(g, vlan) && g[..12] == c.frame[..12]
    ensures var q := net[path[0].node][path[0].port];
      && Takes(q.port, g) && Released(q.port, g) == g && q.peer.Wire?
      && Bound(net, Passed(q.peer, g, c.origin), m, vlan)
      && Carried(net[q.peer.node][q.peer.port].port, g) == g
  {
    var q := net[path[0].node][path[0].port];
    SoundPort(net, q.peer.node, q.peer.port);
    assert g[..12][..6] == c.frame[..12][..6] && g[..12][6..] == c.frame[..12][6..];
  }

  lemma {:induction false} RunsJoin(net: Net, s: State, es: seq<Event>, more: seq<Event>)
    requires Runs(net, s, es) && Runs(net, Run(net, s, es), more)
    ensures Runs(net, s, es + more) && Run(net, s, es + more) == Run(net, Run(net, s, es), more)
    decreases |more|
  {
    hide Enabled, Step;
    if more == [] {
      assert es + more == es;
    } else {
      assert (es + more)[..|es + more| - 1] == es + more[..|more| - 1];
      RunsJoin(net, s, es, more[..|more| - 1]);
    }
  }

  lemma InjectedBound(net: Net, node: int, port: nat, f: Frame, m: Mac, vlan: int)
    requires WellBuilt(net) && At(net, node, port) && WellFormed(f) && Dst(f) == m != BROADCAST && Src(f) != m
    requires net[node][port].port.mode.Access? && Operating(net[node][port].port) == vlan != 0
    requires LetsIn(net[node][port].port, f)
    ensures Bound(net, Injected(net, node, port, f), m, vlan)
    ensures WellFormed(Carried(net[node][port].port, f))
    ensures !Twice(f) ==> !IsTagged(Untagged(Carried(net[node][port].port, f)))
    ensures !IsTagged(f) ==> Untagged(Carried(net[node][port].port, f)) == f[..|f| - 4] + NO_FCS
  {
    hide Tagged, Untagged;
    SoundPort(net, node, port);
    Admission(net[node][port].port, f);
    var g := Carried(net[node][port].port, f);
    UntagsOnce(g);
    if !IsTagged(f) {
      TagsOnce(f, vlan);
      RoundTrip(f, vlan);
    }
  }

  /** On any run: a host sends a frame for a station that every switch on the path has
      heard on the port that the path takes.  Left alone, the frame gets there in as many
      steps as the path has switches; it is sent once on each port of the path and nowhere
      else, and what arrives is what was sent, but for the cleared checksum. */
  lemma Delivery(net: Net, es: seq<Event>, node: int, port: nat, f: Frame, path: seq<Hop>, m: Mac)
    returns (more: seq<Event>, hops: seq<Copy>)
    requires WellBuilt(net) && Runs(net, START, es) && At(net, node, port) && net[node][port].peer.Host?
    requires net[node][port].port.mode.Access? && Operating(net[node][port].port) != 0
    requires WellFormed(f) && LetsIn(net[node][port].port, f) && Dst(f) == m != BROADCAST && Src(f) != m
    requires Leads(net, path, Operating(net[node][port].port)) && path[0].node == node
    requires forall h | h in path :: LastHeard(net, es, h.node, m) == Some(h.port)
    ensures |more| == |path| == |hops| && Runs(net, START, es + ([Inject(node, port, f)] + more))
    ensures var s, t := Run(net, START, es), Run(net, START, es + ([Inject(node, port, f)] + more));
      t.inflight == s.inflight && t.sent == s.sent + multiset(hops)
    ensures forall j | 0 <= j < |path| :: hops[j].node == path[j].node && hops[j].port == path[j].port
    ensures !Twice(f) ==> !IsTagged(hops[|path| - 1].frame)
    ensures !IsTagged(f) ==> hops[|path| - 1].frame == f[..|f| - 4] + NO_FCS
  {
    hide LetsIn, Carried, Untagged, WellBuilt, Leads, Find, LastHeard, Bound, Runs, Run, IsTagged, Twice;
    var s, e, c := Run(net, START, es), Inject(node, port, f), Injected(net, node, port, f);
    var vlan := Operating(net[node][port].port);
    forall h | h in path ensures Find(Table(s, h.node), m) == Some(h.port) {
      Tables(net, es, h.node, m);
    }
    InjectedBound(net, node, port, f, m, vlan);
    var t := Step(net, s, e);
    more, hops := Travels(net, t, c, path, m, vlan);
    RunsFront(net, s, e, more);
    RunsJoin(net, START, es, [e] + more);
  }

  // ---------- a run that lets a tagged frame out of an access port ----------

  const VLAN5: Vlans := [5, 0, 0, 0, 0, 0, 0, 0, 0, 0]
  const ACCESS5 := Port(false, Access, VLAN5, [0, 0, 0, 0, 0, 9])

  // One switch with two hosts in VLAN 5.
  const HOSTS := [Socket(ACCESS5, Host), Socket(ACCESS5, Host)]
  const LAN: Net := map[1 := HOSTS]

  const SENDER: Mac := [0, 0, 0, 0, 0, 1]
  const TAG5: seq<byte> := [0x00, 0x81, 80, 0]

  // A broadcast with the tag of VLAN 5 twice.
  const DOUBLE: Frame := BROADCAST + SENDER + TAG5 + TAG5 + [0, 8] + [1, 2, 3, 4]

  const ENTERED := Copy(1, 0, DOUBLE, Origin(5, true))
  const LEFT := Copy(1, 1, BROADCAST + SENDER + TAG5 + [0, 8] + [1, 2, 3, 4], Origin(5, true))
  const DOUBLE_RUN := [Inject(1, 0, DOUBLE), Process(ENTERED, [Entry(SENDER, 0)])]

  lemma DoubleFrame()
    ensures WellFormed(DOUBLE) && Twice(DOUBLE) && Vid(DOUBLE) == 5 && Dst(DOUBLE) == BROADCAST && Src(DOUBLE) == SENDER
    ensures Untagged(DOUBLE) == LEFT.frame && |DOUBLE| == 26
  {
    var f := DOUBLE;
    assert f[12] == 0x00 && f[13] == 0x81 && f[14] == 80 && f[15] == 0 && f[16] == 0x00 && f[17] == 0x81;
    assert f[..6] == BROADCAST && f[6..12] == SENDER;
    var g := f[..12] + f[16..];
    assert g[12] == 0x00 && g[13] == 0x81;
    assert g == LEFT.frame;
  }

  lemma LanBuilt()
    ensures WellBuilt(LAN) && |Ports(LAN, 1)| == 2 && Ports(LAN, 1)[0] == Ports(LAN, 1)[1] == ACCESS5
  {
    forall node, i: nat | At(LAN, node, i) ensures Built(LAN, node, i) {
      assert node == 1 && LAN[node][i].port == ACCESS5;
    }
  }

  lemma DoubleFloods()
    ensures WellFormed(DOUBLE) && FloodOut(Ports(LAN, 1), 2, 0, DOUBLE) == [Outgoing(1, LEFT.frame)]
    ensures Qualify(ACCESS5, DOUBLE) == Accept(0) && Unwraps(ACCESS5, DOUBLE)
  {
    hide Untagged, Twice, IsTagged, WellFormed;
    DoubleFrame();
    LanBuilt();
    Tags(DOUBLE);
    var ports := Ports(LAN, 1);
    assert Send(ACCESS5, DOUBLE) == Some(LEFT.frame);
    assert FloodOut(ports, 0, 0, DOUBLE) == [] && FloodPart(ports, 0, 0, DOUBLE) == [];
    assert FloodOut(ports, 1, 0, DOUBLE) == [] && FloodPart(ports, 1, 0, DOUBLE) == [Outgoing(1, LEFT.frame)];
  }

  lemma Tags(f: Frame)
    requires Twice(f)
    ensures IsTagged(f)
  {
  }

  lemma DoubleReaction()
    ensures WellFormed(DOUBLE) && Reaction(LAN, ENTERED, [Entry(SENDER, 0)]) == [Outgoing(1, LEFT.frame)]
    ensures !Contained(Ports(LAN, 1), [Entry(SENDER, 0)], 0, DOUBLE, true)
  {
    hide Untagged, Twice, IsTagged, WellFormed, Qualify, Unwraps, FloodOut;
    DoubleFrame();
    LanBuilt();
    DoubleFloods();
    assert Floods([Entry(SENDER, 0)], DOUBLE) && Unwraps(Ports(LAN, 1)[1], DOUBLE);
  }

  lemma DoubleSteps(s: State)
    requires s == State(map[], multiset{ENTERED}, multiset{})
    ensures Enabled(LAN, START, DOUBLE_RUN[0]) && Step(LAN, START, DOUBLE_RUN[0]) == s
    ensures Enabled(LAN, s, DOUBLE_RUN[1]) && Step(LAN, s, DOUBLE_RUN[1]).sent == multiset{LEFT}
  {
    hide Untagged, Twice, IsTagged, WellFormed, Qualify, Unwraps, FloodOut, Reaction;
    DoubleFrame();
    DoubleFloods();
    DoubleReaction();
    var table := [Entry(SENDER, 0)];
    forall m ensures Find(table, m) == if m == SENDER then Some(0) else Find([], m) {
      assert table[1..] == [];
    }
    assert Learnt([], table, SENDER, 0) && Switches(LAN[1][0].port, DOUBLE);
    var out := [Outgoing(1, LEFT.frame)];
    assert out[1..] == [] && Leaving(1, out, ENTERED.origin) == multiset{LEFT};
  }

  /** The frame comes out of the other port with one tag left; and in the buffer, taking
      off the other one does not stay inside. */
  lemma TaggedFrameLeaves()
    ensures WellBuilt(LAN) && Runs(LAN, START, DOUBLE_RUN)
    ensures Run(LAN, START, DOUBLE_RUN).sent == multiset{LEFT} && IsTagged(LEFT.frame) && LAN[1][1].port.mode.Access?
    ensures WellFormed(DOUBLE) && !Contained(Ports(LAN, 1), [Entry(SENDER, 0)], 0, DOUBLE, true)
  {
    hide Untagged, Twice, Enabled, Step, Contained, WellBuilt;
    DoubleFrame();
    assert IsTagged(LEFT.frame) by {
      Tags(DOUBLE);
      UntagsOnce(DOUBLE);
    }
    LanBuilt();
    DoubleReaction();
    DoubleSteps(State(map[], multiset{ENTERED}, multiset{}));
    var first := DOUBLE_RUN[..1];
    assert first[..0] == [] && first[0] == DOUBLE_RUN[0];
    assert Runs(LAN, START, first[..0]) && Run(LAN, START, first[..0]) == START;
    assert Runs(LAN, START, first) && Run(LAN, START, first) == State(map[], multiset{ENTERED}, multiset{});
    assert DOUBLE_RUN[..|DOUBLE_RUN| - 1] == first;
  }
}
