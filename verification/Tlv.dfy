/** Type-length-value buffers: the encoder and the scanning loop of utils.c and
    utils.h. */
module Tlv {
  import opened Common

  const OVERHEAD := 2  // TLV_OVERHEAD_SIZE

  datatype Record = Record(kind: byte, value: seq<byte>)

  // A value fits into its length byte.
  predicate Fits(rs: seq<Record>) {
    forall r | r in rs :: |r.value| < 256
  }

  function Bytes(r: Record): (s: seq<byte>)
    requires |r.value| < 256
    ensures |s| == OVERHEAD + |r.value|
  {
    [r.kind, |r.value|] + r.value
  }

  function Encode(rs: seq<Record>): seq<byte>
    requires Fits(rs)
  {
    if rs == [] then [] else Bytes(rs[0]) + Encode(rs[1..])
  }

  // Where the record that starts at `at` ends.
  function Next(s: seq<byte>, at: nat): nat
    requires at + 1 < |s|
  {
    at + OVERHEAD + s[at + 1]
  }

  /** From `at` on the buffer is made of whole records: the scan stays inside it. */
  predicate Whole(s: seq<byte>, at: nat)
    decreases |s| - at
  {
    at == |s| || (at + 1 < |s| && Next(s, at) <= |s| && Whole(s, Next(s, at)))
  }

  // The records that ITERATE_TLV meets from `at` on.
  function Scan(s: seq<byte>, at: nat): (rs: seq<Record>)
    requires Whole(s, at)
    ensures Fits(rs)
    decreases |s| - at
  {
    if at == |s| then [] else [Record(s[at], s[at + OVERHEAD..Next(s, at)])] + Scan(s, Next(s, at))
  }

  lemma ScanStep(s: seq<byte>, at: nat)
    requires Whole(s, at) && at < |s|
    ensures at + 1 < |s| && Next(s, at) <= |s| && Whole(s, Next(s, at))
    ensures Scan(s, at) == [Record(s[at], s[at + OVERHEAD..Next(s, at)])] + Scan(s, Next(s, at))
  {
  }

  lemma ScanDone(s: seq<byte>)
    ensures Whole(s, |s|) && Scan(s, |s|) == []
  {
  }

  /** Whole buffers are exactly the encodings of records: scanning is the inverse
      of encoding, whatever stands in front. */
  lemma {:induction false} ScanEncode(prefix: seq<byte>, rs: seq<Record>)
    requires Fits(rs)
    ensures Whole(prefix + Encode(rs), |prefix|) && Scan(prefix + Encode(rs), |prefix|) == rs
    decreases |rs|
  {
    var s := prefix + Encode(rs);
    if rs != [] {
      var b := Bytes(rs[0]);
      ScanEncode(prefix + b, rs[1..]);
      assert s == (prefix + b) + Encode(rs[1..]);
      assert s[|prefix|] == b[0] && s[|prefix| + 1] == b[1];
      assert s[|prefix| + OVERHEAD..|prefix| + |b|] == b[OVERHEAD..] == rs[0].value;
    }
  }

  lemma {:induction false} EncodeScan(s: seq<byte>, at: nat)
    requires Whole(s, at) && at <= |s|
    ensures Encode(Scan(s, at)) == s[at..]
    decreases |s| - at
  {
    if at < |s| {
      EncodeScan(s, Next(s, at));
      assert s[at..] == [s[at], s[at + 1]] + s[at + OVERHEAD..Next(s, at)] + s[Next(s, at)..];
      assert |s[at + OVERHEAD..Next(s, at)]| == s[at + 1];
    }
  }

  lemma {:induction false} EncodeJoin(a: seq<Record>, b: seq<Record>)
    requires Fits(a) && Fits(b)
    ensures Fits(a + b) && Encode(a + b) == Encode(a) + Encode(b)
  {
    if a == [] {
      assert a + b == b;
    } else {
      hide Bytes;
      EncodeJoin(a[1..], b);
      assert (a + b)[1..] == a[1..] + b && (a + b)[0] == a[0];
      Assoc(Bytes(a[0]), Encode(a[1..]), Encode(b));
    }
  }

  lemma Assoc(a: seq<byte>, b: seq<byte>, c: seq<byte>)
    ensures a + (b + c) == (a + b) + c
  {
  }

  // The value of the first record of a kind.
  function First(rs: seq<Record>, kind: byte): Option<seq<byte>> {
    if rs == [] then None else if rs[0].kind == kind then Some(rs[0].value) else First(rs[1..], kind)
  }

  lemma {:induction false} FirstExact(rs: seq<Record>, kind: byte) returns (i: nat)
    ensures i <= |rs| && (forall j | 0 <= j < i :: rs[j].kind != kind) && (i < |rs| ==> rs[i].kind == kind)
    ensures First(rs, kind) == if i < |rs| then Some(rs[i].value) else None
  {
    i := 0;
    if rs != [] && rs[0].kind != kind {
      i := FirstExact(rs[1..], kind);
      i := i + 1;
    }
  }

  /** tlv_buffer_get_particular_tlv: the value of the first record of the kind, by
      position and length.  Every index the loop uses lies inside the buffer. */
  method Lookup(s: seq<byte>, kind: byte) returns (found: bool, at: nat, len: nat)
    requires Whole(s, 0)
    ensures found ==> at + len <= |s| && First(Scan(s, 0), kind) == Some(s[at..at + len])
    ensures !found ==> First(Scan(s, 0), kind) == None && len == 0
  {
    at, len := OVERHEAD, 0;
    var used := 0;
    while used < |s|
      invariant used <= |s| && at == used + OVERHEAD && Whole(s, used)
      invariant First(Scan(s, 0), kind) == First(Scan(s, used), kind)
      decreases |s| - used
    {
      var tlvType, size := s[at - OVERHEAD], s[at - 1];
      if tlvType == kind {
        return true, at, size;
      }
      used := used + size + OVERHEAD;
      at := at + OVERHEAD + size;
    }
    return false, at, 0;
  }

  /** tlv_buffer_insert_tlv. */
  method Insert(buf: array<byte>, at: nat, kind: byte, data: seq<byte>) returns (end: nat)
    requires |data| < 256 && at + OVERHEAD + |data| <= buf.Length
    modifies buf
    ensures end == at + OVERHEAD + |data|
    ensures buf[..] == old(buf[..at]) + Bytes(Record(kind, data)) + old(buf[end..])
  {
    buf[at] := kind;
    buf[at + 1] := |data|;
    forall i | 0 <= i < |data| { buf[at + OVERHEAD + i] := data[i]; }
    end := at + OVERHEAD + |data|;
  }
}

/** Adjacencies as TLV 22 records with sub-TLVs 4, 6 and 8
    (Layer5/isis/isis_adjacency.c), and their reader (Layer5/isis/isis_ted.c).
    The layout follows section 3 of RFC 5305, but metric and router id take four
    bytes each. */
module NbrTlv {
  import Arith
  import opened Common
  import opened Tlv

  const IS_REACH: byte := 22  // ISIS_IS_REACH_TLV
  const IF_INDEX: byte := 4   // ISIS_TLV_IF_INDEX
  const LOCAL_IP: byte := 6   // ISIS_TLV_LOCAL_IP
  const REMOTE_IP: byte := 8  // ISIS_TLV_REMOTE_IP
  const NBR_SIZE := 33

  type uint32 = x: int | 0 <= x < UINT32

  function Put32(x: uint32): (s: seq<byte>)
    ensures |s| == 4 && Get32(s) == x
  {
    var a := x / 256;
    var b := a / 256;
    [x % 256, a % 256, b % 256, b / 256]
  }

  function Get32(s: seq<byte>): uint32
    requires |s| >= 4
  {
    s[0] as int + 0x100 * s[1] as int + 0x1_0000 * s[2] as int + 0x100_0000 * s[3] as int
  }

  datatype Nbr = Nbr(id: uint32, metric: uint32, localIf: uint32, remoteIf: uint32, localIp: uint32, remoteIp: uint32)

  function Subs(n: Nbr): (rs: seq<Record>)
    ensures Fits(rs)
  {
    [Record(IF_INDEX, Put32(n.localIf) + Put32(n.remoteIf)), Record(LOCAL_IP, Put32(n.localIp)),
      Record(REMOTE_IP, Put32(n.remoteIp))]
  }

  lemma SubsLength(n: Nbr)
    ensures Encode(Subs(n)) == Bytes(Subs(n)[0]) + Bytes(Subs(n)[1]) + Bytes(Subs(n)[2]) && |Encode(Subs(n))| == 22
  {
    var rs := Subs(n);
    assert rs[1..][1..] == rs[2..];
    assert Encode(rs[3..]) == [];
    assert Encode(rs[2..]) == Bytes(rs[2]);
    assert Encode(rs[1..]) == Bytes(rs[1]) + Bytes(rs[2]);
  }

  // The value of a TLV 22 record.
  function Value(n: Nbr): (s: seq<byte>)
    ensures |s| == NBR_SIZE - OVERHEAD
  {
    SubsLength(n);
    Put32(n.id) + Put32(n.metric) + [|Encode(Subs(n))|] + Encode(Subs(n))
  }

  function Reach(ns: seq<Nbr>): (rs: seq<Record>)
    ensures Fits(rs) && |rs| == |ns|
  {
    if ns == [] then [] else [Record(IS_REACH, Value(ns[0]))] + Reach(ns[1..])
  }

  // ---------- reading ----------

  predicate ReadableSub(r: Record) {
    (r.kind == IF_INDEX ==> |r.value| >= 8) && (r.kind == LOCAL_IP || r.kind == REMOTE_IP ==> |r.value| >= 4)
  }

  // The fields a sub-TLV sets.
  function Note(n: Nbr, r: Record): Nbr
    requires ReadableSub(r)
  {
    if r.kind == IF_INDEX then n.(localIf := Get32(r.value), remoteIf := Get32(r.value[4..]))
    else if r.kind == LOCAL_IP then n.(localIp := Get32(r.value))
    else if r.kind == REMOTE_IP then n.(remoteIp := Get32(r.value))
    else n
  }

  function NoteAll(n: Nbr, rs: seq<Record>): Nbr
    requires AllSubs(rs)
    decreases |rs|
  {
    if rs == [] then n else NoteAll(Note(n, rs[0]), rs[1..])
  }

  predicate Readable(v: seq<byte>) {
    |v| >= 9 && 9 + v[8] <= |v| && Whole(v[9..9 + v[8]], 0) && AllSubs(Scan(v[9..9 + v[8]], 0))
  }

  function Read(v: seq<byte>): Nbr
    requires Readable(v)
  {
    NoteAll(Nbr(Get32(v), Get32(v[4..]), 0, 0, 0, 0), Scan(v[9..9 + v[8]], 0))
  }

  predicate AllReadable(rs: seq<Record>) {
    forall r | r in rs && r.kind == IS_REACH :: Readable(r.value)
  }

  // The neighbours in the TLV 22 records among the records.
  function ReadAll(rs: seq<Record>): seq<Nbr>
    requires AllReadable(rs)
  {
    if rs == [] then []
    else (if rs[0].kind == IS_REACH then [Read(rs[0].value)] else []) + ReadAll(rs[1..])
  }

  // A number is read from the first four bytes.
  lemma Prefix(s: seq<byte>, t: seq<byte>)
    requires |s| == 4
    ensures Get32(s + t) == Get32(s)
  {
  }

  lemma ReadSubs(n: Nbr)
    ensures AllSubs(Subs(n)) && NoteAll(Nbr(n.id, n.metric, 0, 0, 0, 0), Subs(n)) == n
  {
    hide Get32, Put32, NoteAll, Note;
    var rs := Subs(n);
    Prefix(Put32(n.localIf), Put32(n.remoteIf));
    assert rs[0].value[4..] == Put32(n.remoteIf);
    var n0 := Nbr(n.id, n.metric, 0, 0, 0, 0);
    var n1 := n0.(localIf := n.localIf, remoteIf := n.remoteIf);
    var n2 := n1.(localIp := n.localIp);
    Noted(n0, rs[0]);
    Noted(n1, rs[1]);
    Noted(n2, rs[2]);
    assert rs == [rs[0]] + ([rs[1]] + ([rs[2]] + []));
    SubStep(n0, rs[0], [rs[1]] + ([rs[2]] + []));
    SubStep(n1, rs[1], [rs[2]] + []);
    SubStep(n2, rs[2], []);
    NotedAll(n);
  }

  // Where the parts of a TLV 22 record are.
  lemma Layout(n: Nbr)
    ensures var v := Value(n);
      v[8] == 22 && v[9..9 + v[8]] == Encode(Subs(n)) && Get32(v) == n.id && Get32(v[4..]) == n.metric
  {
    hide Get32, Put32, Encode, Subs;
    SubsLength(n);
    var v, sub := Value(n), Encode(Subs(n));
    assert v == Put32(n.id) + (Put32(n.metric) + [22] + sub);
    Prefix(Put32(n.id), Put32(n.metric) + [22] + sub);
    assert v[4..] == Put32(n.metric) + ([22] + sub);
    Prefix(Put32(n.metric), [22] + sub);
  }

  /** What the encoder writes for a neighbour reads back as that neighbour. */
  lemma ReadValue(n: Nbr)
    ensures Readable(Value(n)) && Read(Value(n)) == n
  {
    hide Get32, Put32, Encode, Subs, NoteAll, AllSubs, Scan, Whole, Value;
    Layout(n);
    ScanEncode([], Subs(n));
    assert [] + Encode(Subs(n)) == Encode(Subs(n));
    ReadSubs(n);
  }

  lemma {:induction false} ReadReach(ns: seq<Nbr>)
    ensures AllReadable(Reach(ns)) && ReadAll(Reach(ns)) == ns
    ensures |Encode(Reach(ns))| == NBR_SIZE * |ns|
  {
    if ns != [] {
      ReadValue(ns[0]);
      ReadReach(ns[1..]);
      assert Reach(ns)[1..] == Reach(ns[1..]);
    }
  }

  /** Scanning a buffer into which a list of neighbours was encoded gives back
      exactly that list, whatever records stand before and after it. */
  lemma ReachRoundTrip(before: seq<Record>, ns: seq<Nbr>, after: seq<Record>)
    requires Fits(before) && Fits(after) && forall r | r in before || r in after :: r.kind != IS_REACH
    ensures var s := Encode(before) + Encode(Reach(ns)) + Encode(after);
      && Whole(s, 0) && AllReadable(Scan(s, 0))
      && ReadAll(Scan(s, 0)) == ns
  {
    hide Encode, Readable, ReadAll, Whole, Scan;
    Framed(before, Reach(ns), after);
    ReadFramed(before, ns, after);
  }

  lemma Framed(a: seq<Record>, b: seq<Record>, c: seq<Record>)
    requires Fits(a) && Fits(b) && Fits(c)
    ensures var s := Encode(a) + Encode(b) + Encode(c); Whole(s, 0) && Scan(s, 0) == a + b + c
  {
    hide Encode, Whole, Scan;
    EncodeJoin(a, b);
    EncodeJoin(a + b, c);
    ScanEncode([], a + b + c);
    assert [] + Encode(a + b + c) == Encode(a + b + c);
  }

  lemma ReadFramed(before: seq<Record>, ns: seq<Nbr>, after: seq<Record>)
    requires forall r | r in before || r in after :: r.kind != IS_REACH
    ensures AllReadable(before + Reach(ns) + after) && ReadAll(before + Reach(ns) + after) == ns
  {
    hide Readable, ReadAll, Reach;
    ReadReach(ns);
    ReadNothing();
    ReadSkips(after, []);
    assert after + [] == after;
    ReadJoin(Reach(ns), after);
    ReadSkips(before, Reach(ns) + after);
    assert before + Reach(ns) + after == before + (Reach(ns) + after);
    assert ns + [] == ns;
  }

  lemma ReadNothing()
    ensures AllReadable([]) && ReadAll([]) == []
  {
  }

  lemma {:induction false} ReadSkips(a: seq<Record>, b: seq<Record>)
    requires (forall r | r in a :: r.kind != IS_REACH) && AllReadable(b)
    ensures AllReadable(a + b) && ReadAll(a + b) == ReadAll(b)
  {
    hide Readable, Read;
    if a == [] {
      assert a + b == b;
    } else {
      ReadSkips(a[1..], b);
      assert (a + b)[1..] == a[1..] + b;
    }
  }

  lemma {:induction false} ReadJoin(a: seq<Record>, b: seq<Record>)
    requires AllReadable(a) && AllReadable(b)
    ensures AllReadable(a + b) && ReadAll(a + b) == ReadAll(a) + ReadAll(b)
  {
    hide Readable, Read, ReadAll, AllReadable;
    if a == [] {
      assert a + b == b;
      ReadNothing();
    } else {
      assert a == [a[0]] + a[1..] && a + b == [a[0]] + (a[1..] + b);
      ReachStep(a[0], a[1..]);
      ReadJoin(a[1..], b);
      ReachMoreReadable(a[0], a[1..], a[1..] + b);
      ReachStep(a[0], a[1..] + b);
    }
  }

  lemma ReachMoreReadable(r: Record, rest: seq<Record>, more: seq<Record>)
    requires AllReadable([r] + rest) && AllReadable(more)
    ensures AllReadable([r] + more)
  {
    assert r in [r] + rest;
  }

  predicate AllSubs(rs: seq<Record>) {
    forall r | r in rs :: ReadableSub(r)
  }

  lemma SubStep(n: Nbr, r: Record, rest: seq<Record>)
    requires AllSubs([r] + rest)
    ensures ReadableSub(r) && AllSubs(rest) && NoteAll(n, [r] + rest) == NoteAll(Note(n, r), rest)
  {
    assert ([r] + rest)[0] == r && ([r] + rest)[1..] == rest;
    assert r in [r] + rest && forall x | x in rest :: x in [r] + rest;
  }

  lemma ReachStep(r: Record, rest: seq<Record>)
    requires AllReadable([r] + rest)
    ensures AllReadable(rest) && (r.kind == IS_REACH ==> Readable(r.value))
    ensures ReadAll([r] + rest) == (if r.kind == IS_REACH then [Read(r.value)] else []) + ReadAll(rest)
  {
    assert ([r] + rest)[0] == r && ([r] + rest)[1..] == rest;
    assert r in [r] + rest && forall x | x in rest :: x in [r] + rest;
  }

  /** The inner scan of the reader. */
  method ReadRecord(v: seq<byte>) returns (n: Nbr)
    requires Readable(v)
    ensures n == Read(v)
  {
    hide Scan, Whole, Note, NoteAll, AllSubs;
    var s := v[9..9 + v[8]];
    n := Nbr(Get32(v), Get32(v[4..]), 0, 0, 0, 0);
    var used := 0;
    while used < |s|
      invariant used <= |s| && Whole(s, used) && AllSubs(Scan(s, used))
      invariant Read(v) == NoteAll(n, Scan(s, used))
      decreases |s| - used
    {
      ScanStep(s, used);
      var r := Record(s[used], s[used + OVERHEAD..used + OVERHEAD + s[used + 1]]);
      SubStep(n, r, Scan(s, Next(s, used)));
      Noted(n, r);
      if r.kind == IF_INDEX {
        n := n.(localIf := Get32(r.value), remoteIf := Get32(r.value[4..]));
      } else if r.kind == LOCAL_IP {
        n := n.(localIp := Get32(r.value));
      } else if r.kind == REMOTE_IP {
        n := n.(remoteIp := Get32(r.value));
      }
      used := used + OVERHEAD + |r.value|;
    }
    ScanDone(s);
    NotedAll(n);
  }

  lemma Noted(n: Nbr, r: Record)
    requires ReadableSub(r)
    ensures Note(n, r) ==
      if r.kind == IF_INDEX then n.(localIf := Get32(r.value), remoteIf := Get32(r.value[4..]))
      else if r.kind == LOCAL_IP then n.(localIp := Get32(r.value))
      else if r.kind == REMOTE_IP then n.(remoteIp := Get32(r.value)) else n
  {
  }

  lemma NotedAll(n: Nbr)
    ensures AllSubs([]) && NoteAll(n, []) == n
  {
  }

  /** The outer scan: the neighbours of the TLV 22 records, in order. */
  method ReadBuffer(s: seq<byte>) returns (ns: seq<Nbr>)
    requires Whole(s, 0) && AllReadable(Scan(s, 0))
    ensures ns == ReadAll(Scan(s, 0))
  {
    hide Scan, Whole, Readable, AllReadable, ReadAll, Read;
    ns := [];
    var used := 0;
    while used < |s|
      invariant used <= |s| && Whole(s, used) && AllReadable(Scan(s, used))
      invariant ReadAll(Scan(s, 0)) == ns + ReadAll(Scan(s, used))
      decreases |s| - used
    {
      ScanStep(s, used);
      var r := Record(s[used], s[used + OVERHEAD..used + OVERHEAD + s[used + 1]]);
      ReachStep(r, Scan(s, Next(s, used)));
      if r.kind == IS_REACH {
        var n := ReadRecord(r.value);
        ns := ns + [n];
      }
      used := used + OVERHEAD + |r.value|;
    }
    ScanDone(s);
    ReadNothing();
  }

  // ---------- writing ----------

  datatype Adjacency = Adjacency(up: bool, nbr: Nbr)

  datatype Iface = Iface(enabled: bool, adjacencies: seq<Adjacency>)

  // The neighbours whose adjacency is up, in the order of the list.
  function UpOf(adjs: seq<Adjacency>): seq<Nbr> {
    if adjs == [] then [] else UpOf(adjs[..|adjs| - 1]) + if adjs[|adjs| - 1].up then [adjs[|adjs| - 1].nbr] else []
  }

  function Up(ifs: seq<Iface>): seq<Nbr> {
    if ifs == [] then [] else Up(ifs[..|ifs| - 1]) + if ifs[|ifs| - 1].enabled then UpOf(ifs[|ifs| - 1].adjacencies)
      else []
  }

  // Where the neighbours of a list come from: the adjacencies that are up, all of them, in order.
  ghost predicate ComeFrom(ns: seq<Nbr>, adjs: seq<Adjacency>, js: seq<int>) {
    && |js| == |ns| && (forall k, l | 0 <= k < l < |js| :: js[k] < js[l])
    && (forall k | 0 <= k < |js| :: 0 <= js[k] < |adjs| && adjs[js[k]].up && ns[k] == adjs[js[k]].nbr)
    && forall j | 0 <= j < |adjs| && adjs[j].up :: j in js
  }

  lemma ComeNext(ns: seq<Nbr>, adjs: seq<Adjacency>, js: seq<int>)
    requires adjs != [] && ComeFrom(ns, adjs[..|adjs| - 1], js)
    ensures var n := |adjs| - 1;
      if adjs[n].up then ComeFrom(ns + [adjs[n].nbr], adjs, js + [n]) else ComeFrom(ns, adjs, js)
  {
    var n := |adjs| - 1;
    assert forall j | 0 <= j < n :: adjs[..n][j] == adjs[j];
    if adjs[n].up {
      forall j | 0 <= j < |adjs| && adjs[j].up ensures j in js + [n] {
        assert j < n ==> j in js;
      }
    }
  }

  lemma {:induction false} UpOfExact(adjs: seq<Adjacency>) returns (js: seq<int>)
    ensures ComeFrom(UpOf(adjs), adjs, js)
  {
    js := [];
    if adjs != [] {
      hide ComeFrom;
      var n := |adjs| - 1;
      js := UpOfExact(adjs[..n]);
      ComeNext(UpOf(adjs[..n]), adjs, js);
      assert UpOf(adjs[..n]) + [] == UpOf(adjs[..n]);
      js := js + if adjs[n].up then [n] else [];
    }
  }

  // A place: the interface, and the adjacency on it.
  predicate Earlier(p: (int, int), q: (int, int)) {
    p.0 < q.0 || (p.0 == q.0 && p.1 < q.1)
  }

  predicate IsUp(ifs: seq<Iface>, p: (int, int)) {
    0 <= p.0 < |ifs| && ifs[p.0].enabled && 0 <= p.1 < |ifs[p.0].adjacencies| && ifs[p.0].adjacencies[p.1].up
  }

  ghost predicate Sorted(ps: seq<(int, int)>) {
    forall k, l | 0 <= k < l < |ps| :: Earlier(ps[k], ps[l])
  }

  ghost predicate AtPlaces(ns: seq<Nbr>, ifs: seq<Iface>, ps: seq<(int, int)>) {
    |ps| == |ns| && forall k | 0 <= k < |ps| ::
      IsUp(ifs, ps[k]) && ns[k] == ifs[ps[k].0].adjacencies[ps[k].1].nbr
  }

  // The adjacencies `js` of the interface `n`.
  function On(n: int, js: seq<int>): (ps: seq<(int, int)>)
    ensures |ps| == |js| && forall k | 0 <= k < |ps| :: ps[k] == (n, js[k])
  {
    seq(|js|, k requires 0 <= k < |js| => (n, js[k]))
  }

  lemma SortedNext(before: seq<(int, int)>, n: int, js: seq<int>)
    requires Sorted(before) && (forall k | 0 <= k < |before| :: before[k].0 < n)
    requires forall k, l | 0 <= k < l < |js| :: js[k] < js[l]
    ensures Sorted(before + On(n, js))
  {
  }

  lemma StillUp(ifs: seq<Iface>, n: nat, p: (int, int))
    requires n <= |ifs| && IsUp(ifs[..n], p)
    ensures IsUp(ifs, p) && ifs[..n][p.0] == ifs[p.0]
  {
  }

  lemma {:induction false} AtPlacesNext(ifs: seq<Iface>, n: nat, ns: seq<Nbr>, before: seq<(int, int)>, js: seq<int>)
    requires n < |ifs| && ifs[n].enabled && AtPlaces(ns, ifs[..n], before)
    requires ComeFrom(UpOf(ifs[n].adjacencies), ifs[n].adjacencies, js)
    ensures AtPlaces(ns + UpOf(ifs[n].adjacencies), ifs, before + On(n, js))
  {
    hide UpOf;
    var ps, all := before + On(n, js), ns + UpOf(ifs[n].adjacencies);
    forall k | 0 <= k < |ps| ensures IsUp(ifs, ps[k]) && all[k] == ifs[ps[k].0].adjacencies[ps[k].1].nbr {
      if k < |before| { StillUp(ifs, n, before[k]); }
    }
  }

  /** The neighbours written are those of the adjacencies that are up on enabled
      interfaces: all of them, each as often as it occurs, in the order of the lists. */
  lemma {:induction false} UpExact(ifs: seq<Iface>) returns (ps: seq<(int, int)>)
    ensures AtPlaces(Up(ifs), ifs, ps) && Sorted(ps) && forall p | IsUp(ifs, p) :: p in ps
  {
    ps := [];
    if ifs != [] {
      hide Sorted, UpOf;
      var n := |ifs| - 1;
      var before := UpExact(ifs[..n]);
      ps := before;
      forall k | 0 <= k < |before| ensures before[k].0 < n {
        assert IsUp(ifs[..n], before[k]);
      }
      var js := UpOfExact(ifs[n].adjacencies);
      if ifs[n].enabled {
        ps := before + On(n, js);
        SortedNext(before, n, js);
        AtPlacesNext(ifs, n, Up(ifs[..n]), before, js);
      } else {
        assert forall k | 0 <= k < |ps| :: IsUp(ifs[..n], ps[k]) && IsUp(ifs, ps[k]);
      }
      forall p | IsUp(ifs, p) ensures p in ps {
        Covered(ifs, before, js, p);
      }
    } else {
      NothingSorted();
    }
  }

  lemma NothingSorted()
    ensures Sorted([])
  {
  }

  lemma Covered(ifs: seq<Iface>, before: seq<(int, int)>, js: seq<int>, p: (int, int))
    requires ifs != [] && IsUp(ifs, p) && forall q | IsUp(ifs[..|ifs| - 1], q) :: q in before
    requires ComeFrom(UpOf(ifs[|ifs| - 1].adjacencies), ifs[|ifs| - 1].adjacencies, js)
    ensures p in before + On(|ifs| - 1, js) && (!ifs[|ifs| - 1].enabled ==> p in before)
  {
    var n := |ifs| - 1;
    if p.0 < n {
      assert IsUp(ifs[..n], p);
    } else {
      assert p.1 in js;
      var k :| 0 <= k < |js| && js[k] == p.1;
      assert On(n, js)[k] == p;
    }
  }

  // Copying bytes into the buffer.
  method Put(buf: array<byte>, at: nat, bytes: seq<byte>)
    requires at + |bytes| <= buf.Length
    modifies buf
    ensures buf[..at] == old(buf[..at]) && buf[at..at + |bytes|] == bytes &&
      buf[at + |bytes|..] == old(buf[at + |bytes|..])
  {
    forall i | 0 <= i < |bytes| { buf[at + i] := bytes[i]; }
  }

  // `done` has been written from `at` on; nothing from `end` on is touched.
  ghost predicate Written(was: seq<byte>, now: seq<byte>, at: nat, done: seq<byte>, end: nat) {
    |was| == |now| && at + |done| <= end <= |was| && now[..at] == was[..at] && now[at..at + |done|] == done &&
      now[end..] == was[end..]
  }

  lemma Extended(was: seq<byte>, mid: seq<byte>, now: seq<byte>, at: nat, done: seq<byte>, more: seq<byte>, end: nat)
    requires Written(was, mid, at, done, end) && |now| == |mid| && at + |done| + |more| <= end
    requires now[..at + |done|] == mid[..at + |done|] && now[at + |done|..at + |done| + |more|] == more
    requires now[end..] == mid[end..]
    ensures Written(was, now, at, done + more, end)
  {
    assert now[..at] == now[..at + |done|][..at] == mid[..at];
    assert now[at..at + |done|] == now[..at + |done|][at..] == mid[at..at + |done|];
    assert now[at..at + |done| + |more|] == now[at..at + |done|] + now[at + |done|..at + |done| + |more|];
  }

  // isis_nbr_tlv_encode_size.
  function EncodeSize(a: Adjacency): nat {
    if a.up then OVERHEAD + 4 + 4 + 1 + (OVERHEAD + 4 + 4) + (OVERHEAD + 4) + (OVERHEAD + 4) else 0
  }

  /** isis_size_to_encode_all_nbr_tlv: a 16-bit sum. */
  method SizeAll(ifs: seq<Iface>) returns (bytes: nat)
    ensures bytes == NBR_SIZE * |Up(ifs)| % 0x1_0000
  {
    bytes := 0;
    var i := 0;
    while i < |ifs|
      invariant i <= |ifs| && bytes == NBR_SIZE * |Up(ifs[..i])| % 0x1_0000
    {
      assert ifs[..i + 1][..i] == ifs[..i];
      if ifs[i].enabled {
        var adjs, j := ifs[i].adjacencies, 0;
        while j < |adjs|
          invariant j <= |adjs| && bytes == NBR_SIZE * (|Up(ifs[..i])| + |UpOf(adjs[..j])|) % 0x1_0000
        {
          assert adjs[..j + 1][..j] == adjs[..j];
          if adjs[j].up {
            OneMore(|Up(ifs[..i])| + |UpOf(adjs[..j])|);
            bytes := (bytes + EncodeSize(adjs[j])) % 0x1_0000;
          }
          j := j + 1;
        }
        assert adjs[..j] == adjs;
      }
      i := i + 1;
    }
    assert ifs[..i] == ifs;
  }

  lemma OneMore(n: nat)
    ensures (NBR_SIZE * n % 0x1_0000 + NBR_SIZE) % 0x1_0000 == NBR_SIZE * (n + 1) % 0x1_0000
  {
    var x, m := NBR_SIZE * n, 0x1_0000;
    var q, rest := x / m, x % m;
    var wraps := if rest + NBR_SIZE < m then 0 else 1;
    Arith.Quotient(x + NBR_SIZE, q + wraps, m);
    Arith.Quotient(rest + NBR_SIZE, wraps, m);
  }

  /** The precomputed size is what the encoder writes, exactly up to 1985 neighbours. */
  lemma SizeIsExact(ns: seq<Nbr>)
    ensures NBR_SIZE * |ns| % 0x1_0000 == |Encode(Reach(ns))| <==> |ns| <= 1985
  {
    hide Encode, Reach;
    ReadReach(ns);
    Wraps(NBR_SIZE * |ns|);
  }

  lemma Wraps(n: nat)
    ensures n % 0x1_0000 == n <==> n < 0x1_0000
  {
  }

  lemma Part(s: seq<byte>, from: nat, n: nat, k: nat)
    requires k <= n && from + n <= |s|
    ensures s[from..from + n][..k] == s[from..from + k]
  {
  }

  lemma SameTail(s: seq<byte>, t: seq<byte>, from: nat, end: nat)
    requires |s| == |t| && from <= end <= |s| && s[from..] == t[from..]
    ensures s[end..] == t[end..]
  {
    assert s[end..] == s[from..][end - from..];
    assert t[end..] == t[from..][end - from..];
  }

  // One step of the encoder: `bytes` are written at the cursor, of which `keep` count.
  method Append(buf: array<byte>, cursor: nat, bytes: seq<byte>, ghost keep: nat, ghost was: seq<byte>, ghost at: nat,
    ghost done: seq<byte>, ghost end: nat)
    requires Written(was, buf[..], at, done, end) && cursor == at + |done| && keep <= |bytes| &&
      cursor + |bytes| <= end <= buf.Length
    modifies buf
    ensures Written(was, buf[..], at, done + bytes[..keep], end)
  {
    ghost var mid := buf[..];
    Put(buf, cursor, bytes);
    ghost var now := buf[..];
    Part(now, cursor, |bytes|, keep);
    SameTail(mid, now, cursor + |bytes|, end);
    Extended(was, mid, now, at, done, bytes[..keep], end);
  }

  /** isis_encode_nbr_tlv.  The length byte of the sub-TLVs is copied as four
      bytes; the three that follow it in memory are overwritten by what comes next. */
  method EncodeNbr(buf: array<byte>, at: nat, n: Nbr, junk: seq<byte>) returns (end: nat)
    requires at + NBR_SIZE <= buf.Length && |junk| == 3
    modifies buf
    ensures end == at + NBR_SIZE && Written(old(buf[..]), buf[..], at, Bytes(Record(IS_REACH, Value(n))), end)
  {
    hide Written, Encode;
    ghost var was, done := buf[..], [];
    end := at + NBR_SIZE;
    Untouched(was, at, end);
    var head := [IS_REACH, NBR_SIZE - OVERHEAD] + Put32(n.id) + Put32(n.metric);
    Append(buf, at, head, |head|, was, at, done, end);
    done := [] + head[..|head|];
    Append(buf, at + 10, [22] + junk, 1, was, at, done, end);
    done := done + ([22] + junk)[..1];
    var subs := Subs(n);
    var b := [IF_INDEX, 8] + subs[0].value;
    Append(buf, at + 11, b, |b|, was, at, done, end);
    done := done + b[..|b|];
    b := [LOCAL_IP, 4] + subs[1].value;
    Append(buf, at + 21, b, |b|, was, at, done, end);
    done := done + b[..|b|];
    b := [REMOTE_IP, 4] + subs[2].value;
    Append(buf, at + 27, b, |b|, was, at, done, end);
    done := done + b[..|b|];
    Assembled(n, junk);
  }

  lemma Assembled(n: Nbr, junk: seq<byte>)
    ensures var head := [IS_REACH, NBR_SIZE - OVERHEAD] + Put32(n.id) + Put32(n.metric);
      var subs := Subs(n);
      var b0, b1, b2 := [IF_INDEX, 8] + subs[0].value, [LOCAL_IP, 4] + subs[1].value, [REMOTE_IP, 4] + subs[2].value;
      [] + head[..|head|] + ([22] + junk)[..1] + b0[..|b0|] + b1[..|b1|] + b2[..|b2|] ==
        Bytes(Record(IS_REACH, Value(n)))
  {
    SubsLength(n);
    assert ([22] + junk)[..1] == [22];
  }

  lemma Untouched(was: seq<byte>, at: nat, end: nat)
    requires at <= end <= |was|
    ensures Written(was, was, at, [], end)
  {
  }

  // One more neighbour at the end.
  lemma {:induction false} ReachMore(ns: seq<Nbr>, n: Nbr)
    ensures Reach(ns + [n]) == Reach(ns) + [Record(IS_REACH, Value(n))]
    ensures Encode(Reach(ns + [n])) == Encode(Reach(ns)) + Bytes(Record(IS_REACH, Value(n)))
  {
    var last := [Record(IS_REACH, Value(n))];
    if ns == [] {
      assert ns + [n] == [n];
    } else {
      ReachMore(ns[1..], n);
      assert (ns + [n])[1..] == ns[1..] + [n];
    }
    EncodeJoin(Reach(ns), last);
    assert Encode(last[1..]) == [];
    assert Encode(last) == Bytes(last[0]);
  }

  lemma WrittenMore(was: seq<byte>, mid: seq<byte>, now: seq<byte>, at: nat, done: seq<byte>, cursor: nat,
    more: seq<byte>, end: nat)
    requires Written(was, mid, at, done, cursor) && cursor == at + |done| && Written(mid, now, cursor, more, end) &&
      end == cursor + |more|
    ensures Written(was, now, at, done + more, end)
  {
    assert now[..at] == now[..cursor][..at];
    assert now[at..cursor] == now[..cursor][at..];
    assert now[at..end] == now[at..cursor] + now[cursor..end];
    assert now[end..] == mid[end..] == mid[cursor..][|more|..] == was[cursor..][|more|..];
  }

  // One record more behind those of `done`.
  method EncodeNext(buf: array<byte>, cursor: nat, n: Nbr, junk: seq<byte>, ghost was: seq<byte>, ghost at: nat,
    ghost done: seq<Nbr>) returns (end: nat)
    requires cursor == at + NBR_SIZE * |done| && cursor + NBR_SIZE <= buf.Length && |junk| == 3
    requires Written(was, buf[..], at, Encode(Reach(done)), cursor)
    modifies buf
    ensures end == cursor + NBR_SIZE && Written(was, buf[..], at, Encode(Reach(done + [n])), end)
  {
    hide Written, Encode, Reach;
    ghost var mid := buf[..];
    ReadReach(done);
    ReachMore(done, n);
    end := EncodeNbr(buf, cursor, n, junk);
    WrittenMore(was, mid, buf[..], at, Encode(Reach(done)), cursor, Bytes(Record(IS_REACH, Value(n))), end);
  }

  // The inner loop of isis_encode_all_nbr_tlvs, over the adjacencies of one interface.
  method EncodeIface(buf: array<byte>, cursor: nat, adjs: seq<Adjacency>, junk: seq<byte>, ghost was: seq<byte>,
    ghost at: nat, ghost done: seq<Nbr>) returns (end: nat)
    requires cursor == at + NBR_SIZE * |done| && cursor + NBR_SIZE * |UpOf(adjs)| <= buf.Length && |junk| == 3
    requires Written(was, buf[..], at, Encode(Reach(done)), cursor)
    modifies buf
    ensures end == cursor + NBR_SIZE * |UpOf(adjs)| && Written(was, buf[..], at, Encode(Reach(done + UpOf(adjs))), end)
  {
    hide Written, Encode, Reach;
    end := cursor;
    var j := 0;
    assert done + [] == done;
    while j < |adjs|
      invariant j <= |adjs| && end == cursor + NBR_SIZE * |UpOf(adjs[..j])|
      invariant Written(was, buf[..], at, Encode(Reach(done + UpOf(adjs[..j]))), end)
    {
      assert adjs[..j + 1][..j] == adjs[..j];
      UpOfGrows(adjs, j + 1);
      ghost var sofar := done + UpOf(adjs[..j]);
      if adjs[j].up {
        assert sofar + [adjs[j].nbr] == done + UpOf(adjs[..j + 1]);
        end := EncodeNext(buf, end, adjs[j].nbr, junk, was, at, sofar);
      } else {
        assert UpOf(adjs[..j + 1]) == UpOf(adjs[..j]);
      }
      j := j + 1;
    }
    assert adjs[..j] == adjs;
  }

  /** isis_encode_all_nbr_tlvs: the adjacencies that are up, interface by interface. */
  method EncodeAll(buf: array<byte>, at: nat, ifs: seq<Iface>, junk: seq<byte>) returns (end: nat)
    requires at + NBR_SIZE * |Up(ifs)| <= buf.Length && |junk| == 3
    modifies buf
    ensures end == at + NBR_SIZE * |Up(ifs)| && Written(old(buf[..]), buf[..], at, Encode(Reach(Up(ifs))), end)
  {
    hide Written, Encode, Reach;
    ghost var was := buf[..];
    Untouched(was, at, at);
    NothingWritten();
    end := at;
    var i := 0;
    while i < |ifs|
      invariant i <= |ifs| && end == at + NBR_SIZE * |Up(ifs[..i])|
      invariant Written(was, buf[..], at, Encode(Reach(Up(ifs[..i]))), end)
    {
      assert ifs[..i + 1][..i] == ifs[..i];
      UpGrows(ifs, i + 1);
      if ifs[i].enabled {
        end := EncodeIface(buf, end, ifs[i].adjacencies, junk, was, at, Up(ifs[..i]));
      } else {
        assert Up(ifs[..i + 1]) == Up(ifs[..i]);
      }
      i := i + 1;
    }
    assert ifs[..i] == ifs;
  }

  lemma NothingWritten()
    ensures Encode(Reach([])) == []
  {
  }

  lemma {:induction false} UpGrows(ifs: seq<Iface>, i: nat)
    requires i <= |ifs|
    ensures |Up(ifs[..i])| <= |Up(ifs)|
    decreases |ifs| - i
  {
    if i < |ifs| {
      UpGrows(ifs, i + 1);
      assert ifs[..i + 1][..i] == ifs[..i];
    } else {
      assert ifs[..i] == ifs;
    }
  }

  lemma {:induction false} UpOfGrows(adjs: seq<Adjacency>, j: nat)
    requires j <= |adjs|
    ensures |UpOf(adjs[..j])| <= |UpOf(adjs)|
    decreases |adjs| - j
  {
    if j < |adjs| {
      UpOfGrows(adjs, j + 1);
      assert adjs[..j + 1][..j] == adjs[..j];
    } else {
      assert adjs[..j] == adjs;
    }
  }
}
