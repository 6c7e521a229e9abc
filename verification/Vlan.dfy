/** VLAN tags (clause 9 of IEEE 802.1Q) on Ethernet frames: pushing and popping the
    outermost tag in place, and parsing the tags of a frame. */
module Vlan {

  const ETH_HLEN: nat := 14
  const VLAN_HLEN: nat := 4
  const PROTO_OFF: nat := 12
  const ETH_P_8021Q: nat := 0x8100
  const ETH_P_8021AD: nat := 0x88a8
  const VLAN_MAX_DEPTH: nat := 2
  const VLAN_VID_MOD: nat := 0x1000

  type byte = b: int | 0 <= b < 256

  /** A 16-bit field in network byte order. */
  function Be16(s: seq<byte>, p: nat): nat
    requires p + 2 <= |s|
  {
    256 * s[p] as int + s[p + 1] as int
  }

  function Bytes16(v: nat): (r: seq<byte>)
    requires v < 0x1_0000
    ensures |r| == 2 && Be16(r, 0) == v
  {
    [v / 256, v % 256]
  }

  predicate IsVlan(proto: nat) { proto == ETH_P_8021Q || proto == ETH_P_8021AD }

  // ------------------------------------------------------------------
  // Tags as insertions
  // ------------------------------------------------------------------

  function TagBytes(tci: nat): (r: seq<byte>)
    requires tci < 0x1_0000
    ensures |r| == VLAN_HLEN
  {
    Bytes16(ETH_P_8021Q) + Bytes16(tci)
  }

  /** The frame with a tag between the addresses and the type. */
  function Tagged(f: seq<byte>, tci: nat): seq<byte>
    requires |f| >= ETH_HLEN && tci < 0x1_0000
  {
    f[..PROTO_OFF] + TagBytes(tci) + f[PROTO_OFF..]
  }

  /** The frame without the four bytes between the addresses and the inner type. */
  function Untagged(f: seq<byte>): seq<byte>
    requires |f| >= ETH_HLEN + VLAN_HLEN
  {
    f[..PROTO_OFF] + f[PROTO_OFF + VLAN_HLEN..]
  }

  predicate HasTag(f: seq<byte>) {
    |f| >= ETH_HLEN + VLAN_HLEN && IsVlan(Be16(f, PROTO_OFF))
  }

  /** Popping undoes pushing. */
  lemma PopPush(f: seq<byte>, tci: nat)
    requires |f| >= ETH_HLEN && tci < 0x1_0000
    ensures HasTag(Tagged(f, tci)) && Be16(Tagged(f, tci), ETH_HLEN) == tci && Untagged(Tagged(f, tci)) == f
  {
    var g := Tagged(f, tci);
    assert g[PROTO_OFF..PROTO_OFF + 4] == TagBytes(tci);
    assert g[PROTO_OFF + 4..] == f[PROTO_OFF..];
    assert g[PROTO_OFF] == TagBytes(tci)[0] && g[PROTO_OFF + 1] == TagBytes(tci)[1];
    assert g[ETH_HLEN] == TagBytes(tci)[2] && g[ETH_HLEN + 1] == TagBytes(tci)[3];
  }

  predicate Tags(tags: seq<nat>) { forall i :: 0 <= i < |tags| ==> tags[i] < 0x1_0000 }

  /** Pushing tags one after the other. */
  function PushAll(f: seq<byte>, tags: seq<nat>): (g: seq<byte>)
    requires |f| >= ETH_HLEN && Tags(tags)
    ensures |g| == |f| + VLAN_HLEN * |tags|
  {
    if tags == [] then f else Tagged(PushAll(f, tags[..|tags| - 1]), tags[|tags| - 1])
  }

  function PopAll(f: seq<byte>, n: nat): (r: (seq<nat>, seq<byte>))
    decreases n
  {
    if n == 0 || !HasTag(f) then ([], f)
    else
      var r := PopAll(Untagged(f), n - 1);
      ([Be16(f, ETH_HLEN)] + r.0, r.1)
  }

  function Reversed(s: seq<nat>): (r: seq<nat>)
    ensures |r| == |s|
  {
    if s == [] then [] else [s[|s| - 1]] + Reversed(s[..|s| - 1])
  }

  lemma {:induction false} ReversedAt(s: seq<nat>, i: nat)
    requires i < |s|
    ensures Reversed(s)[i] == s[|s| - 1 - i]
  {
    if i > 0 {
      ReversedAt(s[..|s| - 1], i - 1);
    }
  }

  /** As many pops as pushes return the tags in reverse order and restore every byte. */
  lemma {:induction false} PopsUndoPushes(f: seq<byte>, tags: seq<nat>)
    requires |f| >= ETH_HLEN && Tags(tags)
    ensures PopAll(PushAll(f, tags), |tags|) == (Reversed(tags), f)
    decreases |tags|
  {
    if tags != [] {
      var n := |tags| - 1;
      PopPush(PushAll(f, tags[..n]), tags[n]);
      PopsUndoPushes(f, tags[..n]);
    }
  }

  // ------------------------------------------------------------------
  // In place
  // ------------------------------------------------------------------

  class Packet {
    const mem: array<byte>
    var head: nat
    const end: nat

    ghost predicate Valid()
      reads this
    {
      head + ETH_HLEN <= end <= mem.Length
    }

    ghost function Frame(): seq<byte>
      requires Valid()
      reads this, mem
    {
      mem[head..end]
    }

    constructor (mem: array<byte>, head: nat, end: nat)
      requires head + ETH_HLEN <= end <= mem.Length
      ensures Valid() && this.mem == mem && this.head == head && this.end == end
    {
      this.mem, this.head, this.end := mem, head, end;
    }

    /** The helper that moves the head of a packet; it may refuse, and always does if no
        Ethernet header would be left or there is no room in front. */
    method AdjustHead(delta: int) returns (err: int)
      requires Valid()
      modifies `head
      ensures Valid() && (err == 0 ==> head == old(head) + delta) && (err != 0 ==> head == old(head))
    {
      if head + delta < 0 || head + delta + ETH_HLEN > end {
        return -1;
      }
      if * {
        return -1;
      }
      head := head + delta;
      return 0;
    }

    method Put(p: nat, bytes: seq<byte>)
      requires p + |bytes| <= mem.Length
      modifies mem
      ensures forall k :: 0 <= k < |bytes| ==> mem[p + k] == bytes[k]
      ensures forall k :: 0 <= k < mem.Length && !(p <= k < p + |bytes|) ==> mem[k] == old(mem[k])
    {
      for i := 0 to |bytes|
        invariant forall k :: 0 <= k < i ==> mem[p + k] == bytes[k]
        invariant forall k :: 0 <= k < mem.Length && !(p <= k < p + i) ==> mem[k] == old(mem[k])
      {
        mem[p + i] := bytes[i];
      }
    }

    /** The frame from its parts: header, and what is behind it. */
    lemma FrameIs(eth: seq<byte>, rest: seq<byte>)
      requires Valid() && |eth| <= end - head && |rest| == end - head - |eth|
      requires forall k :: 0 <= k < |eth| ==> mem[head + k] == eth[k]
      requires forall k :: 0 <= k < |rest| ==> mem[head + |eth| + k] == rest[k]
      ensures Frame() == eth + rest
    {
      forall i | 0 <= i < end - head ensures Frame()[i] == (eth + rest)[i] {
        if i >= |eth| {
          assert mem[head + |eth| + (i - |eth|)] == rest[i - |eth|];
        }
      }
    }

    /** Removes the outermost tag and returns it. */
    method Pop() returns (vlid: int)
      requires Valid()
      modifies mem, `head
      ensures Valid()
      ensures vlid < 0 ==> vlid == -1 && Frame() == old(Frame())
      ensures vlid >= 0 ==> old(HasTag(Frame())) && vlid == old(Be16(Frame(), ETH_HLEN)) && Frame() == Untagged(old(Frame()))
      ensures old(!HasTag(Frame())) ==> vlid == -1
    {
      ghost var f := Frame();
      var proto := 256 * mem[head + PROTO_OFF] as int + mem[head + PROTO_OFF + 1] as int;
      if !IsVlan(proto) {
        return -1;
      }
      if head + ETH_HLEN + VLAN_HLEN > end {
        return -1;
      }
      vlid := 256 * mem[head + ETH_HLEN] as int + mem[head + ETH_HLEN + 1] as int;
      var inner := mem[head + ETH_HLEN + 2..head + ETH_HLEN + 4];
      var eth := mem[head..head + ETH_HLEN];
      assert eth == f[..ETH_HLEN] && eth[..PROTO_OFF] == f[..PROTO_OFF];
      var err := AdjustHead(VLAN_HLEN);
      if err != 0 {
        return -1;
      }
      if head + ETH_HLEN > end {
        return -1;
      }
      PutHeader(eth, inner);
      ghost var g, r := f[..PROTO_OFF] + inner, f[ETH_HLEN + VLAN_HLEN..];
      FrameIs(g, r);
      assert inner + r == f[PROTO_OFF + VLAN_HLEN..];
      assert g + r == f[..PROTO_OFF] + (inner + r);
    }

    /** Writes the header, with another type. */
    method PutHeader(eth: seq<byte>, proto: seq<byte>)
      requires |eth| == ETH_HLEN && |proto| == ETH_HLEN - PROTO_OFF && head + ETH_HLEN <= mem.Length
      modifies mem
      ensures forall k :: 0 <= k < ETH_HLEN ==> mem[head + k] == (eth[..PROTO_OFF] + proto)[k]
      ensures forall k :: 0 <= k < mem.Length && !(head <= k < head + ETH_HLEN) ==> mem[k] == old(mem[k])
    {
      Put(head, eth);
      ghost var m := mem[..];
      assert forall k :: 0 <= k < ETH_HLEN ==> m[head + k] == eth[k];
      Put(head + PROTO_OFF, proto);
      forall k | 0 <= k < ETH_HLEN ensures mem[head + k] == (eth[..PROTO_OFF] + proto)[k] {
        if k < PROTO_OFF {
          assert m[head + k] == eth[k] && mem[head + k] == m[head + k];
        } else {
          assert mem[head + PROTO_OFF + (k - PROTO_OFF)] == proto[k - PROTO_OFF];
        }
      }
    }

    lemma PushedFrame(f: seq<byte>, tci: nat, eth: seq<byte>)
      requires Valid() && tci < 0x1_0000 && |f| >= ETH_HLEN && end - head == |f| + VLAN_HLEN && eth == f[..ETH_HLEN]
      requires forall k :: 0 <= k < PROTO_OFF ==> mem[head + k] == eth[k]
      requires forall k :: 0 <= k < 2 ==> mem[head + PROTO_OFF + k] == Bytes16(ETH_P_8021Q)[k]
      requires forall k :: 0 <= k < 2 ==> mem[head + ETH_HLEN + k] == Bytes16(tci)[k]
      requires forall k :: 0 <= k < 2 ==> mem[head + ETH_HLEN + 2 + k] == eth[PROTO_OFF..][k]
      requires forall k :: ETH_HLEN <= k < |f| ==> mem[head + VLAN_HLEN + k] == f[k]
      ensures Frame() == Tagged(f, tci)
    {
      var g := f[..PROTO_OFF] + TagBytes(tci);
      var r := f[PROTO_OFF..];
      forall k | 0 <= k < |g| ensures mem[head + k] == g[k] {
        if PROTO_OFF <= k < ETH_HLEN {
          assert mem[head + PROTO_OFF + (k - PROTO_OFF)] == Bytes16(ETH_P_8021Q)[k - PROTO_OFF];
        } else if k >= ETH_HLEN {
          assert mem[head + ETH_HLEN + (k - ETH_HLEN)] == Bytes16(tci)[k - ETH_HLEN];
        }
      }
      forall k | 0 <= k < |r| ensures mem[head + |g| + k] == r[k] {
        if k < 2 {
          assert mem[head + ETH_HLEN + 2 + k] == eth[PROTO_OFF..][k];
        } else {
          assert mem[head + VLAN_HLEN + (PROTO_OFF + k)] == f[PROTO_OFF + k];
        }
      }
      FrameIs(g, r);
    }

    /** Inserts a tag behind the addresses. */
    method Push(vlid: int) returns (err: int)
      requires Valid()
      modifies mem, `head
      ensures Valid() && (err == 0 || err == -1)
      ensures Frame() == if err == 0 then Tagged(old(Frame()), vlid % 0x1_0000) else old(Frame())
    {
      ghost var f := Frame();
      var eth := mem[head..head + ETH_HLEN];
      err := AdjustHead(0 - VLAN_HLEN);
      if err != 0 {
        return -1;
      }
      if head + ETH_HLEN > end {
        return -1;
      }
      Put(head, eth);
      if head + ETH_HLEN + VLAN_HLEN > end {
        return -1;
      }
      Put(head + ETH_HLEN, Bytes16(vlid % 0x1_0000));
      Put(head + ETH_HLEN + 2, eth[PROTO_OFF..]);
      Put(head + PROTO_OFF, Bytes16(ETH_P_8021Q));
      PushedFrame(f, vlid % 0x1_0000, eth);
      return 0;
    }
  }

  // ------------------------------------------------------------------
  // Parsing
  // ------------------------------------------------------------------

  /** Type behind the tags, position behind them, and their ids, outermost first. */
  datatype Parsed = Parsed(proto: nat, pos: nat, ids: seq<nat>)

  /** Reads up to depth tags from position p on. */
  function Tail(f: seq<byte>, p: nat, proto: nat, depth: nat): Parsed
    decreases depth
  {
    if depth == 0 || !IsVlan(proto) || p + VLAN_HLEN > |f| then Parsed(proto, p, [])
    else
      var r := Tail(f, p + VLAN_HLEN, Be16(f, p + 2), depth - 1);
      r.(ids := [Be16(f, p) % VLAN_VID_MOD] + r.ids)
  }

  /** Parses the Ethernet header at pos and the tags behind it; -1 if there is no header. */
  method ParseEth(f: seq<byte>, pos: nat) returns (proto: int, next: nat, ids: seq<nat>)
    ensures pos + ETH_HLEN > |f| ==> proto == -1 && next == pos && ids == []
    ensures pos + ETH_HLEN <= |f| ==>
              proto >= 0 && Parsed(proto, next, ids) == Tail(f, pos + ETH_HLEN, Be16(f, pos + PROTO_OFF), VLAN_MAX_DEPTH)
  {
    proto, next, ids := -1, pos, [];
    if pos + ETH_HLEN > |f| {
      return;
    }
    next := pos + ETH_HLEN;
    proto := Be16(f, pos + PROTO_OFF);
    ghost var all := Tail(f, next, proto, VLAN_MAX_DEPTH);
    for i := 0 to VLAN_MAX_DEPTH
      invariant proto >= 0
      invariant var r := Tail(f, next, proto, VLAN_MAX_DEPTH - i); r.(ids := ids + r.ids) == all
    {
      if !IsVlan(proto) {
        break;
      }
      if next + VLAN_HLEN > |f| {
        break;
      }
      ghost var r := Tail(f, next + VLAN_HLEN, Be16(f, next + 2), VLAN_MAX_DEPTH - i - 1);
      assert ids + ([Be16(f, next) % VLAN_VID_MOD] + r.ids) == (ids + [Be16(f, next) % VLAN_VID_MOD]) + r.ids;
      proto := Be16(f, next + 2);
      ids := ids + [Be16(f, next) % VLAN_VID_MOD];
      next := next + VLAN_HLEN;
    }
    assert ids + [] == ids;
  }

  /** The type field of a tagged frame, its tag, and what is behind. */
  lemma TaggedParts(f: seq<byte>, tci: nat, k: nat)
    requires |f| >= ETH_HLEN && tci < 0x1_0000
    ensures Be16(Tagged(f, tci), PROTO_OFF) == ETH_P_8021Q && Be16(Tagged(f, tci), ETH_HLEN) == tci
    ensures PROTO_OFF <= k && k + 2 <= |f| ==> Be16(Tagged(f, tci), k + VLAN_HLEN) == Be16(f, k)
  {
    var g := Tagged(f, tci);
    assert g[PROTO_OFF] == TagBytes(tci)[0] && g[PROTO_OFF + 1] == TagBytes(tci)[1];
    assert g[ETH_HLEN] == TagBytes(tci)[2] && g[ETH_HLEN + 1] == TagBytes(tci)[3];
  }

  /** Reading tags behind the first one is reading the tags of the frame without it. */
  lemma {:induction false} TailShifts(f: seq<byte>, tci: nat, p: nat, proto: nat, depth: nat)
    requires |f| >= ETH_HLEN && tci < 0x1_0000 && p >= PROTO_OFF
    ensures var r := Tail(f, p, proto, depth);
            Tail(Tagged(f, tci), p + VLAN_HLEN, proto, depth) == r.(pos := r.pos + VLAN_HLEN)
    decreases depth
  {
    if depth > 0 && IsVlan(proto) && p + VLAN_HLEN <= |f| {
      TaggedParts(f, tci, p);
      TaggedParts(f, tci, p + 2);
      hide Tagged;
      TaggedLength(f, tci);
      TailShifts(f, tci, p + VLAN_HLEN, Be16(f, p + 2), depth - 1);
    }
  }

  lemma TaggedLength(f: seq<byte>, tci: nat)
    requires |f| >= ETH_HLEN && tci < 0x1_0000
    ensures |Tagged(f, tci)| == |f| + VLAN_HLEN
  {
  }

  function Masked(tags: seq<nat>): seq<nat> { seq(|tags|, i requires 0 <= i < |tags| => tags[i] % VLAN_VID_MOD) }

  /** After up to depth pushes on an untagged frame, parsing finds the frame's own type, the
      masked ids outermost first, and the place behind the last tag. */
  lemma {:induction false} ParsePushed(f: seq<byte>, tags: seq<nat>, depth: nat)
    requires |f| >= ETH_HLEN && !IsVlan(Be16(f, PROTO_OFF)) && Tags(tags) && |tags| <= depth
    ensures var g := PushAll(f, tags);
            Tail(g, ETH_HLEN, Be16(g, PROTO_OFF), depth)
              == Parsed(Be16(f, PROTO_OFF), ETH_HLEN + VLAN_HLEN * |tags|, Masked(Reversed(tags)))
    decreases |tags|
  {
    if tags == [] {
      assert Masked(Reversed(tags)) == [];
    } else {
      var n := |tags| - 1;
      var h := PushAll(f, tags[..n]);
      ParsePushed(f, tags[..n], depth - 1);
      TaggedParts(h, tags[n], PROTO_OFF);
      TailShifts(h, tags[n], ETH_HLEN, Be16(h, PROTO_OFF), depth - 1);
      assert Masked(Reversed(tags)) == [tags[n] % VLAN_VID_MOD] + Masked(Reversed(tags[..n]));
    }
  }
}
