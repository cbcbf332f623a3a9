/** Ethernet frames with and without an IEEE 802.1Q tag (clause 9), byte by byte
    as Layer2/layer2.h lays them out and Layer2/layer2.c rewrites them. */
module Frames {
  import opened Common

  const TPID := 0x8100          // VLAN_8021Q_PROTO
  const ETH_HDR := 18           // ETH_HDR_SIZE_EXCL_PAYLOAD
  const VLAN_HDR := 22          // VLAN_ETH_HDR_SIZE_EXCL_PAYLOAD
  const NO_FCS: seq<byte> := [0, 0, 0, 0]

  type Frame = seq<byte>

  function Half(lo: byte, hi: byte): int {
    lo + 256 * hi
  }

  // is_pkt_vlan_tagged: the 13th and 14th byte.
  predicate IsTagged(f: Frame) {
    |f| >= 14 && Half(f[12], f[13]) == TPID
  }

  // Behind the tag stands another one.
  predicate Twice(f: Frame) {
    IsTagged(f) && |f| >= 18 && Half(f[16], f[17]) == TPID
  }

  predicate WellFormed(f: Frame) {
    |f| >= if IsTagged(f) then VLAN_HDR else ETH_HDR
  }

  // The 12-bit field is signed; it is read as an unsigned 32-bit number.
  function ReadBack(raw: int): int
    requires 0 <= raw < 4096
  {
    if raw < 2048 then raw else raw - 4096 + UINT32
  }

  // GET_802_1Q_VLAN_ID.
  function Vid(f: Frame): int
    requires IsTagged(f) && |f| >= 16
  {
    ReadBack(Half(f[14], f[15]) / 16)
  }

  // The tag control field: 12 bits of `vlan` above the four bits `low`.
  function Tci(vlan: int, low: int): (t: seq<byte>)
    requires 0 <= low < 16
    ensures |t| == 2 && Half(t[0], t[1]) / 16 == vlan % 4096 && t[0] % 16 == low
  {
    var t := vlan % 4096 * 16 + low;
    [t % 256, t / 256]
  }

  const TPID_BYTES: seq<byte> := [0x00, 0x81]

  /** What tag_pkt_with_vlan_id makes of a frame. */
  function Tagged(f: Frame, vlan: int): (g: Frame)
    requires WellFormed(f)
    ensures |g| == if IsTagged(f) then |f| else |f| + 4
  {
    if IsTagged(f) then f[..14] + Tci(vlan, f[14] % 16) + f[16..|f| - 4] + NO_FCS
    else f[..12] + TPID_BYTES + Tci(vlan, 0) + f[12..|f| - 4] + NO_FCS
  }

  /** What untag_pkt_with_vlan_id makes of a frame.  Where a second tag follows the
      first, the checksum is cleared behind the frame instead of in it. */
  function Untagged(f: Frame): (g: Frame)
    requires WellFormed(f)
    ensures |g| == if IsTagged(f) then |f| - 4 else |f|
  {
    if !IsTagged(f) then f else
      var g := f[..12] + f[16..];
      if IsTagged(g) then g else g[..|g| - 4] + NO_FCS
  }

  lemma HalfTpid()
    ensures Half(TPID_BYTES[0], TPID_BYTES[1]) == TPID
  {
  }

  /** A tagged frame carries the tag; its id reads back as itself exactly for the
      ids whose bit 11 is the sign of the whole number.  The priority is kept, or none. */
  lemma TagReads(f: Frame, vlan: int)
    requires WellFormed(f) && 0 <= vlan < UINT32
    ensures var g := Tagged(f, vlan);
      IsTagged(g) && WellFormed(g) && Vid(g) == ReadBack(vlan % 4096) && g[..12] == f[..12]
      && (Vid(g) == vlan <==> vlan < 2048 || vlan >= UINT32 - 2048)
      && g[14] % 16 == if IsTagged(f) then f[14] % 16 else 0
  {
    hide Half;
    var g := Tagged(f, vlan);
    assert g[12] == if IsTagged(f) then f[12] else TPID_BYTES[0];
    assert g[13] == if IsTagged(f) then f[13] else TPID_BYTES[1];
    assert Half(TPID_BYTES[0], TPID_BYTES[1]) == TPID by { HalfTpid(); }
    var t := Tci(vlan, if IsTagged(f) then f[14] % 16 else 0);
    assert g[14] == t[0] && g[15] == t[1];
  }

  /** Tagging and untagging gives the frame back, but for the cleared checksum. */
  lemma RoundTrip(f: Frame, vlan: int)
    requires WellFormed(f) && !IsTagged(f) && 0 <= vlan < UINT32
    ensures WellFormed(Tagged(f, vlan)) && Untagged(Tagged(f, vlan)) == f[..|f| - 4] + NO_FCS
  {
    hide Tci, ReadBack, Tagged, Half;
    TagReads(f, vlan);
    var h, rest := TPID_BYTES + Tci(vlan, 0), f[12..|f| - 4] + NO_FCS;
    Parts(f, vlan);
    Middle(f[..12], h, rest);
    var g := f[..12] + rest;
    SameTag(f, g);
    assert g[..|g| - 4] == f[..|f| - 4];
  }

  lemma Parts(f: Frame, vlan: int)
    requires WellFormed(f) && !IsTagged(f)
    ensures Tagged(f, vlan) == f[..12] + (TPID_BYTES + Tci(vlan, 0)) + (f[12..|f| - 4] + NO_FCS)
  {
  }

  lemma Middle(a: seq<byte>, b: seq<byte>, c: seq<byte>)
    ensures (a + b + c)[..|a|] == a && (a + b + c)[|a| + |b|..] == c
  {
  }

  lemma SameTag(f: Frame, g: Frame)
    requires |f| >= 18 && g == f[..12] + (f[12..|f| - 4] + NO_FCS)
    ensures IsTagged(g) == IsTagged(f)
  {
    assert g[12] == f[12] && g[13] == f[13];
  }

  /** Tagging a frame twice is tagging it once with the later id. */
  lemma Retag(f: Frame, v: int, w: int)
    requires WellFormed(f) && 0 <= v < UINT32 && 0 <= w < UINT32
    ensures WellFormed(Tagged(f, v)) && Tagged(Tagged(f, v), w) == Tagged(f, w)
  {
    TagReads(f, v);
    var low := if IsTagged(f) then f[14] % 16 else 0;
    var g := Tagged(f, v);
    assert g[14] % 16 == low;
    assert g[16..|g| - 4] == if IsTagged(f) then f[16..|f| - 4] else f[12..|f| - 4];
    assert g[..14] == if IsTagged(f) then f[..14] else f[..12] + TPID_BYTES;
  }

  /** Tagging never makes a second tag: only a frame that came with two has two. */
  lemma TagsOnce(f: Frame, vlan: int)
    requires WellFormed(f) && 0 <= vlan < UINT32
    ensures Twice(Tagged(f, vlan)) == Twice(f)
  {
    hide Tci;
    TagReads(f, vlan);
    var g := Tagged(f, vlan);
    assert if IsTagged(f) then g[16] == f[16] && g[17] == f[17] else g[16] == f[12] && g[17] == f[13];
  }

  /** An untagged frame is free of tags exactly if it carried only one. */
  lemma UntagsOnce(f: Frame)
    requires WellFormed(f) && IsTagged(f)
    ensures IsTagged(Untagged(f)) <==> Twice(f)
  {
    var g := f[..12] + f[16..];
    assert g[12] == f[16] && g[13] == f[17];
  }

  // ---------- the rewriting in place ----------

  // A buffer with `bytes` written over it from position `at` on.
  function Patch(s: seq<byte>, at: nat, bytes: seq<byte>): (r: seq<byte>)
    requires at + |bytes| <= |s|
    ensures |r| == |s|
  {
    s[..at] + bytes + s[at + |bytes|..]
  }

  // memcpy into the buffer.
  method Write(buf: array<byte>, at: nat, bytes: seq<byte>)
    requires at + |bytes| <= buf.Length
    modifies buf
    ensures buf[..] == Patch(old(buf[..]), at, bytes)
  {
    forall i | 0 <= i < |bytes| { buf[at + i] := bytes[i]; }
  }

  // Where the checksum of a frame at `start` is: SET_COMMON_ETH_FCS looks at the tag.
  function FcsAt(s: seq<byte>, start: nat, payload: nat): nat
    requires start + 14 <= |s|
  {
    start + payload + if Half(s[start + 12], s[start + 13]) == TPID then VLAN_HDR - 4 else ETH_HDR - 4
  }

  /** SET_COMMON_ETH_FCS with zero.  A buffer may end before the checksum does; then
      `inside` is false, and only what lies in the buffer is modelled. */
  method SetFcs(buf: array<byte>, start: nat, payload: nat) returns (inside: bool)
    requires start + 14 <= buf.Length && FcsAt(buf[..], start, payload) <= buf.Length
    modifies buf
    ensures inside <==> old(FcsAt(buf[..], start, payload)) + 4 <= buf.Length
    ensures inside ==> buf[..] == Patch(old(buf[..]), old(FcsAt(buf[..], start, payload)), NO_FCS)
    ensures !inside ==> buf[..old(FcsAt(buf[..], start, payload))] == old(buf[..FcsAt(buf[..], start, payload)])
  {
    var at := start + payload + if Half(buf[start + 12], buf[start + 13]) == TPID then VLAN_HDR - 4 else ETH_HDR - 4;
    inside := at + 4 <= buf.Length;
    Write(buf, at, if inside then NO_FCS else NO_FCS[..buf.Length - at]);
  }

  // Writing at `at` seen as a change of the part that ends at `end`.
  lemma PatchPart(s: seq<byte>, at: nat, bytes: seq<byte>, end: nat)
    requires at + |bytes| <= end <= |s|
    ensures Patch(s, at, bytes) == s[..at] + (bytes + s[at + |bytes|..end]) + s[end..]
  {
  }

  // Clearing the last four bytes of the middle part.
  lemma PatchEnd(a: seq<byte>, b: seq<byte>, c: seq<byte>)
    requires |b| >= 4
    ensures Patch(a + b + c, |a| + |b| - 4, NO_FCS) == a + (b[..|b| - 4] + NO_FCS) + c
  {
  }

  lemma InMiddle(a: seq<byte>, b: seq<byte>, c: seq<byte>, i: nat)
    requires i < |b|
    ensures (a + b + c)[|a| + i] == b[i]
  {
  }

  // A new id in the tag, and then the cleared checksum, make the frame tagged with the id.
  lemma Reassembled(f: Frame, vlan: int)
    requires WellFormed(f) && IsTagged(f)
    ensures var g := f[..14] + Tci(vlan, f[14] % 16) + f[16..];
      |g| == |f| && g[12] == f[12] && g[13] == f[13] && g[..|g| - 4] + NO_FCS == Tagged(f, vlan)
  {
    hide Half;
    var t := Tci(vlan, f[14] % 16);
    var g := f[..14] + t + f[16..];
    assert g[..|g| - 4] == f[..14] + t + f[16..|f| - 4];
  }

  // A frame that is tagged already: only the id in the tag changes, and the checksum.
  lemma Replaced(s: seq<byte>, start: nat, size: nat, vlan: int)
    requires start + size <= |s| && WellFormed(s[start..start + size]) && IsTagged(s[start..start + size])
    ensures var s1 := Patch(s, start + 14, Tci(vlan, s[start + 14] % 16));
      FcsAt(s1, start, size - VLAN_HDR) == start + size - 4
      && Patch(s1, start + size - 4, NO_FCS) == s[..start] + Tagged(s[start..start + size], vlan) + s[start + size..]
  {
    hide Tci, Patch, Half, Tagged;
    var f, t := s[start..start + size], Tci(vlan, s[start + 14] % 16);
    var g := f[..14] + t + f[16..];
    PatchPart(s, start + 14, t, start + size);
    assert s[..start + 14] + (t + s[start + 16..start + size]) == s[..start] + g;
    assert f[12] == s[start + 12] && f[13] == s[start + 13] && f[14] == s[start + 14];
    Reassembled(f, vlan);
    InMiddle(s[..start], g, s[start + size..], 12);
    InMiddle(s[..start], g, s[start + size..], 13);
    PatchEnd(s[..start], g, s[start + size..]);
  }

  // The header of an untagged frame moves up and the tag goes in.
  lemma Inserted(s: seq<byte>, start: nat, size: nat, vlan: int)
    requires 4 <= start && start + size <= |s| && WellFormed(s[start..start + size]) &&
      !IsTagged(s[start..start + size])
    ensures var s1 := Patch(s, start - 4, s[start..start + 12] + TPID_BYTES + Tci(vlan, 0) + s[start + 12..start + 14]);
      FcsAt(s1, start - 4, size - ETH_HDR) == start + size - 4
      && Patch(s1, start + size - 4, NO_FCS) ==
        s[..start - 4] + Tagged(s[start..start + size], vlan) + s[start + size..]
  {
    hide Tci, Patch, Tagged;
    var f, t := s[start..start + size], Tci(vlan, 0);
    var h := s[start..start + 12] + TPID_BYTES + t + s[start + 12..start + 14];
    var s1, g := Patch(s, start - 4, h), f[..12] + (TPID_BYTES + t) + f[12..];
    PatchPart(s, start - 4, h, start + size);
    assert h + s[start + 14..start + size] == g;
    InMiddle(s[..start - 4], g, s[start + size..], 12);
    InMiddle(s[..start - 4], g, s[start + size..], 13);
    assert g[12] == TPID_BYTES[0] && g[13] == TPID_BYTES[1];
    PatchEnd(s[..start - 4], g, s[start + size..]);
    Parts(f, vlan);
    assert g[..size] + NO_FCS == f[..12] + (TPID_BYTES + t) + (f[12..size - 4] + NO_FCS);
  }

  // The header of a tagged frame moves down over the tag.
  lemma MovedDown(s: seq<byte>, start: nat, size: nat)
    requires start + size <= |s| && WellFormed(s[start..start + size]) && IsTagged(s[start..start + size])
    ensures var f := s[start..start + size];
      Patch(s, start + 4, s[start..start + 12] + s[start + 16..start + 18])
        == s[..start + 4] + (f[..12] + f[16..]) + s[start + size..]
  {
    hide Patch, Half;
    var f := s[start..start + size];
    var h := s[start..start + 12] + s[start + 16..start + 18];
    PatchPart(s, start + 4, h, start + size);
    assert h + s[start + 18..start + size] == f[..12] + f[16..];
  }

  // What the tag leaves behind carries the second tag, if there is one.
  lemma SecondTag(f: Frame)
    requires WellFormed(f) && IsTagged(f)
    ensures IsTagged(f[..12] + f[16..]) == Twice(f) && |f[..12] + f[16..]| == |f| - 4
  {
    var g := f[..12] + f[16..];
    assert g[12] == f[16] && g[13] == f[17];
  }

  // Clearing the end of the middle part, seen from inside that part.
  lemma Cleared(a: seq<byte>, b: seq<byte>, c: seq<byte>)
    requires |b| >= 4
    ensures Patch(a + b + c, |a| + |b| - 4, NO_FCS)[|a|..|a| + |b|] == b[..|b| - 4] + NO_FCS
  {
    hide Patch;
    PatchEnd(a, b, c);
    Exactly(a, b[..|b| - 4] + NO_FCS, c);
  }

  lemma Removed(s: seq<byte>, start: nat, size: nat)
    requires start + size <= |s| && WellFormed(s[start..start + size]) && IsTagged(s[start..start + size])
    ensures var f := s[start..start + size];
      var s1 := Patch(s, start + 4, s[start..start + 12] + s[start + 16..start + 18]);
      var at := FcsAt(s1, start + 4, size - VLAN_HDR);
      && at == start + size - (if Twice(f) then 0 else 4)
      && (Twice(f) ==> s1[start + 4..start + size] == Untagged(f))
      && (!Twice(f) ==> Patch(s1, at, NO_FCS)[start + 4..start + size] == Untagged(f))
  {
    hide Patch, Half, Twice;
    var f := s[start..start + size];
    var a, g, c := s[..start + 4], f[..12] + f[16..], s[start + size..];
    MovedDown(s, start, size);
    SecondTag(f);
    InMiddle(a, g, c, 12);
    InMiddle(a, g, c, 13);
    if IsTagged(g) {
      Exactly(a, g, c);
    } else {
      Cleared(a, g, c);
    }
  }

  lemma PatchBehind(s: seq<byte>, from: nat, at: nat)
    requires from <= at && at + 4 <= |s|
    ensures Patch(s, at, NO_FCS)[from..at] == s[from..at]
  {
  }

  lemma Exactly(a: seq<byte>, b: seq<byte>, c: seq<byte>)
    ensures (a + b + c)[|a|..|a| + |b|] == b
  {
  }

  /** tag_pkt_with_vlan_id: an untagged frame grows into the room before it. */
  method Tag(buf: array<byte>, start: nat, size: nat, vlan: int) returns (newStart: nat, newSize: nat)
    requires 4 <= start && start + size <= buf.Length && WellFormed(buf[..][start..start + size])
    modifies buf
    ensures newStart == (if IsTagged(old(buf[..])[start..start + size]) then start else start - 4) &&
      newStart + newSize == start + size
    ensures buf[..] == old(buf[..])[..newStart] + Tagged(old(buf[..])[start..start + size],
      vlan) + old(buf[..])[start + size..]
  {
    hide Patch, Tagged, FcsAt, Tci;
    ghost var s := buf[..];
    if Half(buf[start + 12], buf[start + 13]) == TPID {
      newStart, newSize := start, size;
      Replaced(s, start, size, vlan);
      Write(buf, start + 14, Tci(vlan, buf[start + 14] % 16));
      var inside := SetFcs(buf, start, size - VLAN_HDR);
    } else {
      newStart, newSize := start - 4, size + 4;
      Inserted(s, start, size, vlan);
      Write(buf, newStart, buf[..][start..start + 12] + TPID_BYTES + Tci(vlan, 0) + buf[..][start + 12..start + 14]);
      var inside := SetFcs(buf, newStart, size - ETH_HDR);
    }
  }

  /** untag_pkt_with_vlan_id.  The checksum is cleared inside the buffer exactly if
      there is no second tag, or room for four bytes behind the frame. */
  method Untag(buf: array<byte>, start: nat, size: nat) returns (newStart: nat, newSize: nat, inside: bool)
    requires start + size <= buf.Length && WellFormed(buf[..][start..start + size])
    modifies buf
    ensures newStart + newSize == start + size
    ensures newStart == if IsTagged(old(buf[..])[start..start + size]) then start + 4 else start
    ensures buf[..][newStart..newStart + newSize] == Untagged(old(buf[..])[start..start + size])
    ensures inside <==> (Twice(old(buf[..])[start..start + size]) ==> start + size + 4 <= buf.Length)
  {
    hide Patch, FcsAt, Untagged;
    ghost var s := buf[..];
    if Half(buf[start + 12], buf[start + 13]) != TPID {
      NotTagged(s, start, size);
      return start, size, true;
    }
    newStart, newSize := start + 4, size - 4;
    Removed(s, start, size);
    Write(buf, newStart, buf[..][start..start + 12] + buf[..][start + 16..start + 18]);
    label clearing:
    ghost var s1 := buf[..];
    ghost var at := FcsAt(s1, newStart, size - VLAN_HDR);
    inside := SetFcs(buf, newStart, size - VLAN_HDR);
    if Twice(s[start..start + size]) {
      if inside { PatchBehind(s1, newStart, at); }
      assert buf[..][newStart..at] == s1[newStart..at];
    }
  }

  lemma NotTagged(s: seq<byte>, start: nat, size: nat)
    requires start + size <= |s| && WellFormed(s[start..start + size]) && Half(s[start + 12], s[start + 13]) != TPID
    ensures !IsTagged(s[start..start + size]) && Untagged(s[start..start + size]) == s[start..start + size]
  {
  }
}
