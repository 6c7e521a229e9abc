/** Netlink attributes (section 2.2 of RFC 3549): a request buffer is filled with nested
    attributes in place, and a stream of attributes is parsed into an index by type. */
module Netlink {

  const EMSGSIZE: int := 90
  const EINVAL: int := 22
  const NLA_HDRLEN: nat := 4
  const NLA_F_NESTED: nat := 0x8000
  const NLA_TYPE_MOD: nat := 0x4000
  const REQ_SIZE: nat := 164

  type byte = b: int | 0 <= b < 256

  function Align4(n: nat): nat { (n + 3) / 4 * 4 }

  function Get16(s: seq<byte>, p: nat): nat
    requires p + 2 <= |s|
  {
    s[p] as int + 256 * s[p + 1] as int
  }

  // ------------------------------------------------------------------
  // Attributes
  // ------------------------------------------------------------------

  datatype Tree = Leaf(ty: nat, data: seq<byte>) | Node(ty: nat, kids: seq<Tree>)

  function Size(t: Tree): nat
    decreases t
  {
    match t
    case Leaf(_, data) => Align4(NLA_HDRLEN + |data|)
    case Node(_, kids) => NLA_HDRLEN + SizeAll(kids)
  }

  function SizeAll(ts: seq<Tree>): nat
    decreases ts
  {
    if ts == [] then 0 else SizeAll(ts[..|ts| - 1]) + Size(ts[|ts| - 1])
  }

  /** Attribute t is encoded at p; padding bytes are arbitrary. */
  predicate Lies(s: seq<byte>, p: nat, t: Tree)
    decreases t
  {
    && p + Size(t) <= |s| && p + NLA_HDRLEN <= |s|
    && match t
       case Leaf(ty, data) =>
         && p + NLA_HDRLEN + |data| <= |s|
         && Get16(s, p) == NLA_HDRLEN + |data| && Get16(s, p + 2) == ty
         && s[p + NLA_HDRLEN..p + NLA_HDRLEN + |data|] == data
       case Node(ty, kids) =>
         && Get16(s, p) == Size(t) && Get16(s, p + 2) == ty + NLA_F_NESTED
         && LieAll(s, p + NLA_HDRLEN, kids)
  }

  predicate LieAll(s: seq<byte>, p: nat, ts: seq<Tree>)
    decreases ts
  {
    if ts == [] then p <= |s|
    else LieAll(s, p, ts[..|ts| - 1]) && Lies(s, p + SizeAll(ts[..|ts| - 1]), ts[|ts| - 1])
  }

  lemma Align4Facts(n: nat)
    ensures n <= Align4(n) < n + 4 && Align4(n) % 4 == 0 && (n % 4 == 0 ==> Align4(n) == n)
  {
  }

  lemma {:induction false} Sizes(t: Tree)
    ensures Size(t) >= NLA_HDRLEN && Size(t) % 4 == 0
    decreases t
  {
    match t
    case Leaf(_, data) => Align4Facts(NLA_HDRLEN + |data|);
    case Node(_, kids) => SizesAll(kids);
  }

  lemma {:induction false} SizesAll(ts: seq<Tree>)
    ensures SizeAll(ts) % 4 == 0
    decreases ts
  {
    hide Size;
    if ts != [] {
      SizesAll(ts[..|ts| - 1]);
      Sizes(ts[|ts| - 1]);
    }
  }

  /** Two buffers hold the same bytes in a range. */
  predicate Agree(s: seq<byte>, s': seq<byte>, from: nat, to: nat) {
    |s| == |s'| && forall k :: from <= k < to && k < |s| ==> s'[k] == s[k]
  }

  lemma {:induction false} LiesSame(s: seq<byte>, s': seq<byte>, p: nat, t: Tree)
    requires Lies(s, p, t) && Agree(s, s', p, p + Size(t))
    ensures Lies(s', p, t)
    decreases t
  {
    Sizes(t);
    match t
    case Leaf(ty, data) =>
      Align4Facts(NLA_HDRLEN + |data|);
      hide Align4;
      assert s'[p + NLA_HDRLEN..p + NLA_HDRLEN + |data|] == s[p + NLA_HDRLEN..p + NLA_HDRLEN + |data|];
    case Node(ty, kids) => LieAllSame(s, s', p + NLA_HDRLEN, kids);
  }

  lemma {:induction false} LieAllSame(s: seq<byte>, s': seq<byte>, p: nat, ts: seq<Tree>)
    requires LieAll(s, p, ts) && Agree(s, s', p, p + SizeAll(ts))
    ensures LieAll(s', p, ts)
    decreases ts
  {
    if ts != [] {
      var n := |ts| - 1;
      LieAllSame(s, s', p, ts[..n]);
      LiesSame(s, s', p + SizeAll(ts[..n]), ts[n]);
    }
  }

  lemma LieAllAppend(s: seq<byte>, p: nat, ts: seq<Tree>, t: Tree)
    requires LieAll(s, p, ts) && Lies(s, p + SizeAll(ts), t)
    ensures LieAll(s, p, ts + [t]) && SizeAll(ts + [t]) == SizeAll(ts) + Size(t)
  {
    assert (ts + [t])[..|ts|] == ts;
    hide Lies;
  }

  /** Every attribute of a stream lies behind those before it. */
  lemma {:induction false} LieAt(s: seq<byte>, p: nat, ts: seq<Tree>, i: nat)
    requires LieAll(s, p, ts) && i < |ts|
    ensures Lies(s, p + SizeAll(ts[..i]), ts[i])
    ensures SizeAll(ts[..i + 1]) == SizeAll(ts[..i]) + Size(ts[i])
    ensures SizeAll(ts[..i + 1]) <= SizeAll(ts)
    decreases |ts|
  {
    hide Lies;
    hide Size;
    var n := |ts| - 1;
    if i < n {
      LieAt(s, p, ts[..n], i);
      assert ts[..n][..i] == ts[..i] && ts[..n][..i + 1] == ts[..i + 1];
    } else {
      assert ts[..i + 1] == ts;
    }
    assert ts[..i + 1][..i] == ts[..i];
  }

  // ------------------------------------------------------------------
  // Building a request
  // ------------------------------------------------------------------

  /** An attribute that is being filled with nested ones; the first frame is the request. */
  datatype Frame = Frame(start: nat, ty: nat, kids: seq<Tree>)

  function End(base: nat, frames: seq<Frame>): nat {
    if frames == [] then base
    else
      var n := |frames| - 1;
      (if n == 0 then base else End(base, frames[..n]) + NLA_HDRLEN) + SizeAll(frames[n].kids)
  }

  predicate Built(s: seq<byte>, base: nat, frames: seq<Frame>) {
    if frames == [] then base <= |s|
    else if |frames| == 1 then LieAll(s, base, frames[0].kids)
    else
      var n := |frames| - 1;
      var f := frames[n];
      && Built(s, base, frames[..n]) && f.start == End(base, frames[..n])
      && f.start + NLA_HDRLEN <= |s| && Get16(s, f.start + 2) == f.ty + NLA_F_NESTED
      && LieAll(s, f.start + NLA_HDRLEN, f.kids)
  }

  lemma {:induction false} BuiltSame(s: seq<byte>, s': seq<byte>, base: nat, frames: seq<Frame>)
    requires Built(s, base, frames) && Agree(s, s', base, End(base, frames))
    ensures Built(s', base, frames)
    ensures base <= End(base, frames)
    decreases |frames|
  {
    hide Lies;
    if |frames| == 1 {
      LieAllSame(s, s', base, frames[0].kids);
    } else if |frames| > 1 {
      var n := |frames| - 1;
      BuiltSame(s, s', base, frames[..n]);
      LieAllSame(s, s', frames[n].start + NLA_HDRLEN, frames[n].kids);
    }
  }

  /** The innermost open attribute. */
  function Pushed(frames: seq<Frame>, t: Tree): seq<Frame>
    requires frames != []
  {
    var n := |frames| - 1;
    frames[n := frames[n].(kids := frames[n].kids + [t])]
  }

  /** An attribute is put behind everything. */
  lemma BuiltPush(s: seq<byte>, base: nat, frames: seq<Frame>, t: Tree)
    requires frames != [] && Built(s, base, frames) && Lies(s, End(base, frames), t)
    ensures Built(s, base, Pushed(frames, t)) && End(base, Pushed(frames, t)) == End(base, frames) + Size(t)
  {
    hide Lies;
    var n := |frames| - 1;
    var f := frames[n];
    assert Pushed(frames, t)[..n] == frames[..n];
    LieAllAppend(s, if n == 0 then base else f.start + NLA_HDRLEN, f.kids, t);
  }

  /** The innermost attribute is closed: its length is filled in. */
  lemma BuiltPop(s: seq<byte>, s': seq<byte>, base: nat, frames: seq<Frame>)
    requires |frames| > 1 && Built(s, base, frames)
    requires var n := |frames| - 1;
             var f := frames[n];
             && Agree(s, s', base, f.start) && Agree(s, s', f.start + 2, End(base, frames))
             && End(base, frames) <= |s| && Get16(s', f.start) == End(base, frames) - f.start
    ensures var n := |frames| - 1;
            var t := Node(frames[n].ty, frames[n].kids);
            && Built(s', base, Pushed(frames[..n], t)) && End(base, Pushed(frames[..n], t)) == End(base, frames)
  {
    var n := |frames| - 1;
    var f := frames[n];
    var t := Node(f.ty, f.kids);
    BuiltSame(s, s', base, frames[..n]);
    LieAllSame(s, s', f.start + NLA_HDRLEN, f.kids);
    assert Lies(s', f.start, t);
    BuiltPush(s', base, frames[..n], t);
  }

  lemma BuiltOpen(s: seq<byte>, s': seq<byte>, base: nat, frames: seq<Frame>, ty: nat)
    requires frames != [] && Built(s, base, frames) && Agree(s, s', base, End(base, frames))
    requires End(base, frames) + NLA_HDRLEN <= |s| && Get16(s', End(base, frames) + 2) == ty + NLA_F_NESTED
    ensures var f := Frame(End(base, frames), ty, []);
            Built(s', base, frames + [f]) && End(base, frames + [f]) == End(base, frames) + NLA_HDRLEN
  {
    hide Lies;
    BuiltSame(s, s', base, frames);
    var f := Frame(End(base, frames), ty, []);
    assert (frames + [f])[..|frames|] == frames;
  }

  lemma {:induction false} EndAligned(base: nat, frames: seq<Frame>)
    requires base % 4 == 0
    ensures End(base, frames) % 4 == 0
    decreases |frames|
  {
    hide SizeAll;
    if frames != [] {
      var n := |frames| - 1;
      SizesAll(frames[n].kids);
      if n > 0 {
        EndAligned(base, frames[..n]);
      }
    }
  }

  class Request {
    const buf: array<byte>
    var len: nat
    ghost const base: nat
    /** What was built: the request's attributes and the attributes still open. */
    ghost var frames: seq<Frame>

    ghost predicate Valid()
      reads this, buf
    {
      && buf.Length == REQ_SIZE && base % 4 == 0 && frames != []
      && Align4(len) == End(base, frames) <= REQ_SIZE
      && Built(buf[..], base, frames)
    }

    /** The buffer holds a message header and len bytes in all. */
    constructor (buf: array<byte>, len: nat)
      requires buf.Length == REQ_SIZE && Align4(len) <= REQ_SIZE
      ensures Valid() && this.buf == buf && this.len == len && base == Align4(len) && frames == [Frame(0, 0, [])]
    {
      this.buf, this.len, base, frames := buf, len, Align4(len), [Frame(0, 0, [])];
      Align4Facts(len);
    }

    method Put16(p: nat, v: nat)
      requires p + 2 <= buf.Length && v < 0x1_0000
      modifies buf
      ensures Get16(buf[..], p) == v
      ensures forall k :: 0 <= k < buf.Length && k != p && k != p + 1 ==> buf[k] == old(buf[k])
    {
      buf[p], buf[p + 1] := v % 256, v / 256;
    }

    method Copy(p: nat, data: seq<byte>)
      requires p + |data| <= buf.Length
      modifies buf
      ensures buf[p..p + |data|] == data
      ensures forall k :: 0 <= k < buf.Length && !(p <= k < p + |data|) ==> buf[k] == old(buf[k])
    {
      for i := 0 to |data|
        invariant buf[p..p + i] == data[..i]
        invariant forall k :: 0 <= k < buf.Length && !(p <= k < p + i) ==> buf[k] == old(buf[k])
      {
        buf[p + i] := data[i];
        assert buf[p..p + i + 1] == buf[p..p + i] + [data[i]];
      }
    }

    /** Appends an attribute, if there is room for it. */
    method Add(ty: nat, hasData: bool, data: seq<byte>) returns (err: int)
      requires Valid()
      modifies buf, `len, `frames
      ensures Valid()
      ensures err == if Align4(old(len)) + Align4(NLA_HDRLEN + |data|) > REQ_SIZE then -EMSGSIZE
                     else if hasData != (|data| > 0) then -EINVAL else 0
      ensures frames == if err == 0 then Pushed(old(frames), Leaf(ty % 0x1_0000, data)) else old(frames)
      ensures err != 0 ==> buf[..] == old(buf[..]) && len == old(len)
    {
      hide Align4;
      hide Built;
      hide End;
      hide Pushed;
      hide Lies;
      if Align4(len) + Align4(NLA_HDRLEN + |data|) > REQ_SIZE {
        return -EMSGSIZE;
      }
      if hasData != (|data| > 0) {
        return -EINVAL;
      }
      var tail := Align4(len);
      WriteAttr(tail, ty % 0x1_0000, data);
      AddBuilt(old(buf[..]), ty % 0x1_0000, data);
      len := tail + Align4(NLA_HDRLEN + |data|);
      frames := Pushed(frames, Leaf(ty % 0x1_0000, data));
      return 0;
    }

    method WriteAttr(tail: nat, ty: nat, data: seq<byte>)
      requires tail + Align4(NLA_HDRLEN + |data|) <= buf.Length == REQ_SIZE && ty < 0x1_0000
      modifies buf
      ensures Lies(buf[..], tail, Leaf(ty, data)) && Agree(old(buf[..]), buf[..], 0, tail)
    {
      Align4Facts(NLA_HDRLEN + |data|);
      hide Align4;
      Put16(tail + 2, ty);
      ghost var s1 := buf[..];
      Put16(tail, NLA_HDRLEN + |data|);
      ghost var s2 := buf[..];
      Copy(tail + NLA_HDRLEN, data);
      ghost var s3 := buf[..];
      assert Get16(s3, tail) == Get16(s2, tail) && Get16(s3, tail + 2) == Get16(s1, tail + 2);
      assert s3[tail + NLA_HDRLEN..tail + NLA_HDRLEN + |data|] == buf[tail + NLA_HDRLEN..tail + NLA_HDRLEN + |data|];
    }

    /** What an attribute behind everything changes. */
    lemma AddBuilt(s: seq<byte>, ty: nat, data: seq<byte>)
      requires frames != [] && Align4(len) == End(base, frames) && Built(s, base, frames) && base % 4 == 0
      requires Agree(s, buf[..], 0, Align4(len)) && Lies(buf[..], Align4(len), Leaf(ty, data))
      ensures var t := Leaf(ty, data);
              && Pushed(frames, t) != [] && Built(buf[..], base, Pushed(frames, t))
              && Align4(Align4(len) + Align4(NLA_HDRLEN + |data|)) == End(base, Pushed(frames, t)) <= buf.Length
    {
      var t := Leaf(ty, data);
      hide Lies;
      BuiltSame(s, buf[..], base, frames);
      BuiltPush(buf[..], base, frames, t);
      EndAligned(base, Pushed(frames, t));
      Align4Facts(End(base, Pushed(frames, t)));
      LiesInside(buf[..], Align4(len), t);
    }

    lemma LiesInside(s: seq<byte>, p: nat, t: Tree)
      requires Lies(s, p, t)
      ensures p + Size(t) <= |s|
    {
    }

    /** Opens an attribute for nested ones; returns its place. */
    method BeginNested(ty: nat) returns (tail: int)
      requires Valid()
      modifies buf, `len, `frames
      ensures Valid()
      ensures (tail >= 0) == (Align4(old(len)) + NLA_HDRLEN <= REQ_SIZE)
      ensures tail >= 0 ==> tail == Align4(old(len)) && frames == old(frames) + [Frame(tail, ty % 0x8000, [])]
      ensures tail < 0 ==> frames == old(frames) && len == old(len) && buf[..] == old(buf[..])
    {
      if Align4(len) + NLA_HDRLEN > REQ_SIZE {
        return -1;
      }
      tail := Align4(len);
      Put16(tail + 2, ty % 0x8000 + NLA_F_NESTED);
      ghost var s1 := buf[..];
      Put16(tail, NLA_HDRLEN);
      assert Get16(buf[..], tail + 2) == Get16(s1, tail + 2);
      OpenBuilt(old(buf[..]), ty % 0x8000);
      len := tail + NLA_HDRLEN;
      frames := frames + [Frame(tail, ty % 0x8000, [])];
    }

    lemma OpenBuilt(s: seq<byte>, ty: nat)
      requires frames != [] && Align4(len) == End(base, frames) && Built(s, base, frames) && base % 4 == 0
      requires Align4(len) + NLA_HDRLEN <= buf.Length && Agree(s, buf[..], 0, Align4(len))
      requires Get16(buf[..], Align4(len) + 2) == ty + NLA_F_NESTED
      ensures var f := Frame(Align4(len), ty, []);
              Built(buf[..], base, frames + [f]) && Align4(Align4(len) + NLA_HDRLEN) == End(base, frames + [f])
    {
      BuiltOpen(s, buf[..], base, frames, ty);
      EndAligned(base, frames + [Frame(Align4(len), ty, [])]);
      Align4Facts(Align4(len) + NLA_HDRLEN);
    }

    /** Closes the innermost open attribute. */
    method EndNested(tail: nat)
      requires Valid() && |frames| > 1 && tail == frames[|frames| - 1].start
      modifies buf, `frames
      ensures Valid()
      ensures var n := |old(frames)| - 1;
              frames == Pushed(old(frames)[..n], Node(old(frames)[n].ty, old(frames)[n].kids))
    {
      hide Size;
      hide SizeAll;
      var n := |frames| - 1;
      EndGrows(n);
      Put16(tail, Align4(len) - tail);
      BuiltPop(old(buf[..]), buf[..], base, frames);
      frames := Pushed(frames[..n], Node(frames[n].ty, frames[n].kids));
    }

    lemma EndGrows(n: nat)
      requires |frames| > 1 && n == |frames| - 1 && Built(buf[..], base, frames)
      ensures frames[n].start + NLA_HDRLEN <= End(base, frames) && frames[n].start + NLA_HDRLEN <= buf.Length
    {
    }
  }

  // ------------------------------------------------------------------
  // Parsing
  // ------------------------------------------------------------------

  datatype Option<T> = None | Some(value: T)

  const NLA_TYPE_MAX: nat := 8
  const NLA_STRING: nat := 5

  datatype Policy = Policy(ty: nat, minlen: nat, maxlen: nat)

  predicate AttrOk(s: seq<byte>, p: nat, rem: int) {
    rem >= NLA_HDRLEN && p + NLA_HDRLEN <= |s| && NLA_HDRLEN <= Get16(s, p) <= rem
  }

  function AttrType(s: seq<byte>, p: nat): nat
    requires p + NLA_HDRLEN <= |s|
  {
    Get16(s, p + 2) % NLA_TYPE_MOD
  }

  /** The stream of rem bytes at p lies in the buffer; rem is negative behind an unpadded end. */
  predicate InBuffer(s: seq<byte>, p: nat, rem: int) { rem > 0 ==> p + rem <= |s| }

  /** Places of the attributes of a stream, whatever its bytes are. */
  function Scan(s: seq<byte>, p: nat, rem: int): (r: seq<nat>)
    requires InBuffer(s, p, rem)
    ensures forall i :: 0 <= i < |r| ==> Fits(s, r[i])
    decreases if rem < 0 then 0 else rem
  {
    if AttrOk(s, p, rem) then
      var n := Align4(Get16(s, p));
      [p] + Scan(s, p + n, rem - n)
    else []
  }

  /** An attribute with its payload lies in the buffer. */
  predicate Fits(s: seq<byte>, p: nat) {
    p + NLA_HDRLEN <= |s| && Get16(s, p) >= NLA_HDRLEN && p + Get16(s, p) <= |s|
  }

  function Payload(s: seq<byte>, p: nat): seq<byte>
    requires Fits(s, p)
  {
    s[p + NLA_HDRLEN..p + Get16(s, p)]
  }

  function MinLen(ty: nat): nat {
    match ty
    case 1 => 1
    case 2 => 2
    case 3 => 4
    case 4 => 8
    case 5 => 1
    case _ => 0
  }

  predicate Validates(s: seq<byte>, p: nat, pt: Policy)
    requires Fits(s, p)
  {
    var data := Payload(s, p);
    pt.ty > NLA_TYPE_MAX ||
    (&& |data| >= (if pt.minlen != 0 then pt.minlen else MinLen(pt.ty))
     && (pt.maxlen != 0 ==> |data| <= pt.maxlen)
     && (pt.ty == NLA_STRING ==> |data| > 0 && data[|data| - 1] == 0))
  }

  /** An attribute of a known type follows the policy. */
  predicate Obeys(s: seq<byte>, p: nat, policy: Option<seq<Policy>>) {
    policy.Some? && Fits(s, p) && AttrType(s, p) < |policy.value| ==> Validates(s, p, policy.value[AttrType(s, p)])
  }

  predicate Accepted(s: seq<byte>, ps: seq<nat>, policy: Option<seq<Policy>>) {
    forall i :: 0 <= i < |ps| ==> Obeys(s, ps[i], policy)
  }

  predicate HasType(s: seq<byte>, p: nat, ty: nat) { Fits(s, p) && AttrType(s, p) == ty }

  /** The last attribute of a type. */
  function LastOf(s: seq<byte>, ps: seq<nat>, ty: nat): Option<nat> {
    if ps == [] then None
    else if HasType(s, ps[|ps| - 1], ty) then Some(ps[|ps| - 1])
    else LastOf(s, ps[..|ps| - 1], ty)
  }

  lemma LastOfAppend(s: seq<byte>, ps: seq<nat>, p: nat, ty: nat)
    ensures LastOf(s, ps + [p], ty) == if HasType(s, p, ty) then Some(p) else LastOf(s, ps, ty)
  {
    hide HasType;
    assert (ps + [p])[..|ps|] == ps;
  }

  predicate Indexed(s: seq<byte>, ps: seq<nat>, tb: seq<Option<nat>>) {
    forall ty :: 0 <= ty < |tb| ==> tb[ty] == LastOf(s, ps, ty)
  }

  /** Fills the index: for every type up to the largest the last attribute of that type. */
  method Parse(s: seq<byte>, head: nat, len: int, policy: Option<seq<Policy>>, tb: array<Option<nat>>) returns (err: int)
    requires InBuffer(s, head, len) && (policy.Some? ==> |policy.value| == tb.Length)
    modifies tb
    ensures err == if Accepted(s, Scan(s, head, len), policy) then 0 else -1
    ensures err == 0 ==> Indexed(s, Scan(s, head, len), tb[..])
  {
    hide Fits;
    hide Validates;
    for i := 0 to tb.Length
      invariant forall j :: 0 <= j < i ==> tb[j] == None
    {
      tb[i] := None;
    }
    hide Align4;
    hide Get16;
    hide Obeys;
    ghost var seen: seq<nat> := [];
    var p, rem := head, len;
    assert Scan(s, head, len) == seen + Scan(s, p, rem);
    while AttrOk(s, p, rem)
      invariant InBuffer(s, p, rem)
      invariant Scan(s, head, len) == seen + Scan(s, p, rem)
      invariant Accepted(s, seen, policy) && Indexed(s, seen, tb[..])
      decreases rem
    {
      var n := Align4(Get16(s, p));
      ScanStep(s, p, rem);
      var ok := IndexOne(s, p, policy, tb, seen);
      assert seen + ([p] + Scan(s, p + n, rem - n)) == (seen + [p]) + Scan(s, p + n, rem - n);
      if !ok {
        assert Scan(s, head, len)[|seen|] == p;
        return -1;
      }
      seen := seen + [p];
      p, rem := p + n, rem - n;
    }
    assert seen + [] == seen;
    return 0;
  }

  lemma ScanStep(s: seq<byte>, p: nat, rem: int)
    requires InBuffer(s, p, rem) && AttrOk(s, p, rem)
    ensures var n := Align4(Get16(s, p));
            n > 0 && InBuffer(s, p + n, rem - n) && Scan(s, p, rem) == [p] + Scan(s, p + n, rem - n) && Fits(s, p)
  {
    Align4Facts(Get16(s, p));
  }

  method IndexOne(s: seq<byte>, p: nat, policy: Option<seq<Policy>>, tb: array<Option<nat>>, ghost seen: seq<nat>)
    returns (ok: bool)
    requires Fits(s, p) && (policy.Some? ==> |policy.value| == tb.Length) && Indexed(s, seen, tb[..])
    modifies tb
    ensures ok == Obeys(s, p, policy) && (ok ==> Indexed(s, seen + [p], tb[..]))
  {
    hide Get16;
    var ty := AttrType(s, p);
    if ty < tb.Length {
      if policy.Some? && !Validates(s, p, policy.value[ty]) {
        return false;
      }
      tb[ty] := Some(p);
    }
    forall t | 0 <= t < tb.Length ensures tb[t] == LastOf(s, seen + [p], t) {
      assert t != ty ==> old(tb[..])[t] == LastOf(s, seen, t);
      LastOfAppend(s, seen, p, t);
    }
    return true;
  }

  // ------------------------------------------------------------------
  // Parsing what was built
  // ------------------------------------------------------------------

  function Place(p: nat, ts: seq<Tree>, i: nat): nat
    requires i <= |ts|
  {
    p + SizeAll(ts[..i])
  }

  function Places(p: nat, ts: seq<Tree>, n: nat): seq<nat>
    requires n <= |ts|
  {
    seq(n, i requires 0 <= i < n => Place(p, ts, i))
  }

  /** What the parser sees of an encoded attribute. */
  lemma LiesSeen(s: seq<byte>, p: nat, t: Tree)
    requires Lies(s, p, t)
    ensures Fits(s, p) && Align4(Get16(s, p)) == Size(t) && Get16(s, p) <= Size(t)
    ensures AttrType(s, p) == t.ty % NLA_TYPE_MOD
    ensures t.Leaf? ==> Payload(s, p) == t.data
    ensures t.Node? ==> Get16(s, p) - NLA_HDRLEN == SizeAll(t.kids) && LieAll(s, p + NLA_HDRLEN, t.kids)
  {
    Sizes(t);
    Align4Facts(Get16(s, p));
    if t.Leaf? {
      Align4Facts(NLA_HDRLEN + |t.data|);
    }
  }

  lemma LieAllInside(s: seq<byte>, p: nat, ts: seq<Tree>)
    requires LieAll(s, p, ts)
    ensures p + SizeAll(ts) <= |s|
  {
    if ts != [] {
      Sizes(ts[|ts| - 1]);
    }
  }

  /** The rest of a built stream, from attribute i on, and what the parser finds in it. */
  predicate ScansAs(s: seq<byte>, q: nat, rem: int, before: seq<nat>, all: seq<nat>) {
    rem >= 0 && InBuffer(s, q, rem) && before + Scan(s, q, rem) == all
  }

  lemma ScansOne(s: seq<byte>, q: nat, rem: int, t: Tree, before: seq<nat>, all: seq<nat>)
    requires Lies(s, q, t) && Size(t) <= rem && InBuffer(s, q, rem)
    requires ScansAs(s, q + Size(t), rem - Size(t), before + [q], all)
    ensures ScansAs(s, q, rem, before, all)
  {
    LiesSeen(s, q, t);
    hide Lies;
    hide Align4;
    hide Get16;
    hide Size;
    ScanStep(s, q, rem);
    assert before + ([q] + Scan(s, q + Size(t), rem - Size(t))) == (before + [q]) + Scan(s, q + Size(t), rem - Size(t));
  }

  /** Parsing a built stream finds each attribute at its place. */
  lemma {:induction false} ScanBuilt(s: seq<byte>, p: nat, ts: seq<Tree>, i: nat)
    requires LieAll(s, p, ts) && i <= |ts|
    ensures ScansAs(s, Place(p, ts, i), SizeAll(ts) - SizeAll(ts[..i]), Places(p, ts, i), Places(p, ts, |ts|))
    decreases |ts| - i
  {
    hide Fits;
    LieAllInside(s, p, ts);
    if i == |ts| {
      assert ts[..i] == ts;
      hide SizeAll;
      hide LieAll;
      assert Places(p, ts, i) + [] == Places(p, ts, |ts|);
    } else {
      LieAt(s, p, ts, i);
      hide Lies;
      hide LieAll;
      hide Size;
      hide SizeAll;
      hide ScansAs;
      ScanBuilt(s, p, ts, i + 1);
      PlacesNext(p, ts, i);
      hide Places;
      ScansOne(s, Place(p, ts, i), SizeAll(ts) - SizeAll(ts[..i]), ts[i], Places(p, ts, i), Places(p, ts, |ts|));
    }
  }

  lemma PlacesNext(p: nat, ts: seq<Tree>, i: nat)
    requires i < |ts|
    ensures Places(p, ts, i + 1) == Places(p, ts, i) + [Place(p, ts, i)] && Places(p, ts, i + 1)[..i] == Places(p, ts, i)
  {
  }

  lemma TypeSeen(s: seq<byte>, p: nat, t: Tree, ty: nat)
    requires Lies(s, p, t)
    ensures HasType(s, p, ty) <==> t.ty % NLA_TYPE_MOD == ty
  {
    LiesSeen(s, p, t);
  }

  lemma {:induction false} LastPlace(s: seq<byte>, p: nat, ts: seq<Tree>, n: nat, ty: nat)
    requires LieAll(s, p, ts) && n <= |ts|
    ensures var r := LastOf(s, Places(p, ts, n), ty);
            if r.None? then forall i :: 0 <= i < n ==> ts[i].ty % NLA_TYPE_MOD != ty
            else exists i :: IsLast(ts, n, ty, i) && r.value == Place(p, ts, i) && Lies(s, r.value, ts[i])
    decreases n
  {
    hide SizeAll;
    hide Lies;
    hide LieAll;
    hide HasType;
    if n > 0 {
      var i := n - 1;
      LieAt(s, p, ts, i);
      TypeSeen(s, Place(p, ts, i), ts[i], ty);
      PlacesNext(p, ts, i);
      hide Place;
      hide Places;
      LastPlace(s, p, ts, i, ty);
      if ts[i].ty % NLA_TYPE_MOD == ty {
        assert IsLast(ts, n, ty, i);
      } else {
        var r := LastOf(s, Places(p, ts, i), ty);
        if r.Some? {
          var j :| IsLast(ts, i, ty, j) && r.value == Place(p, ts, j) && Lies(s, r.value, ts[j]);
          assert IsLast(ts, n, ty, j);
        }
      }
    }
  }

  /** Attribute i is the last of its type among the first n. */
  predicate IsLast(ts: seq<Tree>, n: nat, ty: nat, i: int) {
    && 0 <= i < n <= |ts| && ts[i].ty % NLA_TYPE_MOD == ty
    && forall j :: i < j < n ==> ts[j].ty % NLA_TYPE_MOD != ty
  }

  /** At q the parser finds attribute t: its payload, or a built stream of nested ones. */
  predicate Found(s: seq<byte>, q: nat, t: Tree) {
    && Fits(s, q)
    && (t.Leaf? ==> Payload(s, q) == t.data)
    && (t.Node? ==> |Payload(s, q)| == SizeAll(t.kids) && LieAll(s, q + NLA_HDRLEN, t.kids))
  }

  lemma LiesFound(s: seq<byte>, q: nat, t: Tree)
    requires Lies(s, q, t)
    ensures Found(s, q, t)
  {
    LiesSeen(s, q, t);
  }

  /** Parsing a built stream gives, for every type, the last attribute that was added with it. */
  lemma RoundTrip(s: seq<byte>, p: nat, ts: seq<Tree>, ty: nat)
    requires LieAll(s, p, ts)
    ensures InBuffer(s, p, SizeAll(ts))
    ensures var r := LastOf(s, Scan(s, p, SizeAll(ts)), ty);
            if r.None? then forall i :: 0 <= i < |ts| ==> ts[i].ty % NLA_TYPE_MOD != ty
            else exists i :: IsLast(ts, |ts|, ty, i) && Found(s, r.value, ts[i])
  {
    ScanBuilt(s, p, ts, 0);
    assert Places(p, ts, 0) == [] && Place(p, ts, 0) == p;
    assert [] + Scan(s, p, SizeAll(ts)) == Scan(s, p, SizeAll(ts));
    LastPlace(s, p, ts, |ts|, ty);
    hide Lies;
    hide LieAll;
    hide IsLast;
    hide Scan;
    hide SizeAll;
    hide Places;
    hide Found;
    hide LastOf;
    var r := LastOf(s, Places(p, ts, |ts|), ty);
    if r.Some? {
      var i :| IsLast(ts, |ts|, ty, i) && r.value == Place(p, ts, i) && Lies(s, r.value, ts[i]);
      LiesFound(s, r.value, ts[i]);
    }
  }
}
