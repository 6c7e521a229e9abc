/** BTF type records, their comparators and signature hashes, and what a type
    graph means.

    A record is kept as its header, the words after the header that are not type
    references (`payload`, in record order) and its references (`refs`, in the
    order in which the deduplicator visits them).  For the kinds whose third
    header word is a type id, that id is `refs[0]` and `size` is 0. */
module BtfTypes {

  type TypeId = nat

  const MAX_NR_TYPES: nat := 0x7fff_ffff
  const UNPROCESSED_ID: nat := 0xffff_ffff
  const IN_PROGRESS_ID: nat := 0xffff_fffe

  const EINVAL: int := 22
  const ELOOP: int := 40

  datatype Kind =
    | Unknown | Int | Ptr | Array | Struct | Union | Enum | Fwd | Typedef | Volatile | Const
    | Restrict | Func | FuncProto | Var | Datasec | Float | DeclTag | TypeTag | Enum64

  datatype Info = Info(kind: Kind, vlen: nat, kflag: bool)

  datatype BtfType = BtfType(name: nat, info: Info, size: nat, payload: seq<nat>, refs: seq<TypeId>)

  const VOID: BtfType := BtfType(0, Info(Unknown, 0, false), 0, [], [])

  /** The third header word holds a type id. */
  predicate UsesTypeWord(k: Kind) {
    k in {Ptr, Typedef, Volatile, Const, Restrict, Func, FuncProto, Var, DeclTag, TypeTag}
  }

  predicate IsComposite(t: BtfType) { t.info.kind == Struct || t.info.kind == Union }

  predicate IsAnyEnum(t: BtfType) { t.info.kind == Enum || t.info.kind == Enum64 }

  predicate IsEnumFwd(t: BtfType) { IsAnyEnum(t) && t.info.vlen == 0 }

  /** Kinds that cannot reference other types. */
  predicate IsPrimKind(k: Kind) { k in {Int, Enum, Enum64, Fwd, Float} }

  /** Kinds handled by the reference pass. */
  predicate IsRefKind(k: Kind) {
    k in {Const, Volatile, Restrict, Ptr, Typedef, Func, TypeTag, DeclTag, Array, FuncProto}
  }

  function RefCount(info: Info): nat {
    match info.kind
    case Ptr | Typedef | Volatile | Const | Restrict | Func | Var | DeclTag | TypeTag => 1
    case Array => 2
    case Struct | Union | Datasec => info.vlen
    case FuncProto => 1 + info.vlen
    case _ => 0
  }

  function PayloadCount(info: Info): nat {
    match info.kind
    case Int | Var | DeclTag | Array => 1
    case Struct | Union | Datasec | Enum => 2 * info.vlen
    case Enum64 => 3 * info.vlen
    case FuncProto => info.vlen
    case _ => 0
  }

  predicate WellFormed(t: BtfType) {
    && |t.refs| == RefCount(t.info)
    && |t.payload| == PayloadCount(t.info)
    && (UsesTypeWord(t.info.kind) || t.info.kind == Fwd ==> t.size == 0)
  }

  /** A type section together with the implicit void type 0: every record is
      well formed and every reference is in range. */
  ghost predicate GraphOk(types: seq<BtfType>) {
    && 0 < |types| <= MAX_NR_TYPES
    && types[0] == VOID
    && (forall i :: 0 <= i < |types| ==> WellFormed(types[i]))
    && (forall i, j :: 0 <= i < |types| && 0 <= j < |types[i].refs| ==> types[i].refs[j] < |types|)
  }

  // ------------------------------------------------------------------
  // Comparators
  // ------------------------------------------------------------------

  /** Everything but the references. */
  function Shape(t: BtfType): BtfType { t.(refs := []) }

  /** The third header word. */
  function TypeWord(t: BtfType): nat {
    if UsesTypeWord(t.info.kind) && t.refs != [] then t.refs[0] else t.size
  }

  predicate EqualCommon(t1: BtfType, t2: BtfType) {
    t1.name == t2.name && t1.info == t2.info && TypeWord(t1) == TypeWord(t2)
  }

  /** For the kinds that are nothing but a header, comparing headers is comparing types. */
  lemma EqualCommonIsEquality(t1: BtfType, t2: BtfType)
    requires WellFormed(t1) && WellFormed(t2)
    requires t1.info.kind in {Const, Volatile, Restrict, Ptr, Typedef, Func, TypeTag, Fwd, Float}
    ensures EqualCommon(t1, t2) <==> t1 == t2
  {
    if EqualCommon(t1, t2) {
      assert t1.payload == t2.payload == [];
      assert t1.refs == t2.refs;
    }
  }

  method EqualWords(a: seq<nat>, b: seq<nat>) returns (eq: bool)
    requires |a| == |b|
    ensures eq <==> a == b
  {
    var i := 0;
    while i < |a|
      invariant 0 <= i <= |a|
      invariant a[..i] == b[..i]
    {
      if a[i] != b[i] {
        return false;
      }
      i := i + 1;
    }
    return true;
  }

  method EqualIntTag(t1: BtfType, t2: BtfType) returns (eq: bool)
    requires WellFormed(t1) && WellFormed(t2)
    requires t1.info.kind == Int || t1.info.kind == DeclTag
    ensures eq <==> t1 == t2
  {
    if !EqualCommon(t1, t2) {
      return false;
    }
    eq := t1.payload[0] == t2.payload[0];
    assert eq ==> t1.payload == t2.payload && t1.refs == t2.refs;
  }

  method EqualEnum(t1: BtfType, t2: BtfType) returns (eq: bool)
    requires WellFormed(t1) && WellFormed(t2)
    requires IsAnyEnum(t1)
    ensures eq <==> t1 == t2
  {
    if !EqualCommon(t1, t2) {
      return false;
    }
    eq := EqualWords(t1.payload, t2.payload);
    assert t1.refs == t2.refs == [];
  }

  /** Two enums describe the same one, where an enum without enumerators is a
      forward declaration of any enum of its name. */
  predicate EnumCompatible(t1: BtfType, t2: BtfType) {
    && IsAnyEnum(t1) && IsAnyEnum(t2)
    && t1.name == t2.name
    && (!IsEnumFwd(t1) && !IsEnumFwd(t2) ==> t1 == t2)
  }

  method CompatEnum(t1: BtfType, t2: BtfType) returns (eq: bool)
    requires WellFormed(t1) && WellFormed(t2)
    requires IsAnyEnum(t1)
    ensures eq <==> EnumCompatible(t1, t2)
  {
    if !IsEnumFwd(t1) && !IsEnumFwd(t2) {
      eq := EqualEnum(t1, t2);
      return;
    }
    return t1.name == t2.name && IsAnyEnum(t1) && IsAnyEnum(t2);
  }

  method ShallowEqualStruct(t1: BtfType, t2: BtfType) returns (eq: bool)
    requires WellFormed(t1) && WellFormed(t2)
    requires IsComposite(t1)
    ensures eq <==> Shape(t1) == Shape(t2)
  {
    if !EqualCommon(t1, t2) {
      return false;
    }
    eq := EqualWords(t1.payload, t2.payload);
  }

  method EqualArray(t1: BtfType, t2: BtfType) returns (eq: bool)
    requires WellFormed(t1) && WellFormed(t2)
    requires t1.info.kind == Array
    ensures eq <==> t1 == t2
  {
    if !EqualCommon(t1, t2) {
      return false;
    }
    eq := t1.refs[0] == t2.refs[0] && t1.refs[1] == t2.refs[1] && t1.payload[0] == t2.payload[0];
    assert eq ==> t1.payload == t2.payload && t1.refs == t2.refs;
  }

  method CompatArray(t1: BtfType, t2: BtfType) returns (eq: bool)
    requires WellFormed(t1) && WellFormed(t2)
    requires t1.info.kind == Array
    ensures eq <==> Shape(t1) == Shape(t2)
  {
    if !EqualCommon(t1, t2) {
      return false;
    }
    eq := t1.payload[0] == t2.payload[0];
    assert eq ==> t1.payload == t2.payload;
  }

  method EqualFuncProto(t1: BtfType, t2: BtfType) returns (eq: bool)
    requires WellFormed(t1) && WellFormed(t2)
    requires t1.info.kind == FuncProto
    ensures eq <==> t1 == t2
  {
    if !EqualCommon(t1, t2) {
      return false;
    }
    assert |t1.refs| == |t2.refs| == 1 + t1.info.vlen;
    var i := 0;
    while i < t1.info.vlen
      invariant 0 <= i <= t1.info.vlen
      invariant t1.payload[..i] == t2.payload[..i]
      invariant t1.refs[..i + 1] == t2.refs[..i + 1]
    {
      if t1.payload[i] != t2.payload[i] || t1.refs[i + 1] != t2.refs[i + 1] {
        return false;
      }
      i := i + 1;
    }
    return true;
  }

  method CompatFuncProto(t1: BtfType, t2: BtfType) returns (eq: bool)
    requires WellFormed(t1) && WellFormed(t2)
    requires t1.info.kind == FuncProto
    ensures eq <==> Shape(t1) == Shape(t2)
  {
    if t1.name != t2.name || t1.info != t2.info {
      return false;
    }
    eq := EqualWords(t1.payload, t2.payload);
  }

  // ------------------------------------------------------------------
  // Signature hashes
  // ------------------------------------------------------------------

  function HashCombine(h: nat, value: nat): nat {
    (h * 31 + value) % 0x1_0000_0000_0000_0000
  }

  function HashWords(h: nat, words: seq<nat>): nat
    decreases |words|
  {
    if words == [] then h else HashWords(HashCombine(h, words[0]), words[1..])
  }

  function InfoWord(info: Info): nat {
    (if info.kflag then 0x8000_0000 else 0) + KindNumber(info.kind) * 0x100_0000 + info.vlen
  }

  function KindNumber(k: Kind): nat {
    match k
    case Unknown => 0 case Int => 1 case Ptr => 2 case Array => 3 case Struct => 4
    case Union => 5 case Enum => 6 case Fwd => 7 case Typedef => 8 case Volatile => 9
    case Const => 10 case Restrict => 11 case Func => 12 case FuncProto => 13 case Var => 14
    case Datasec => 15 case Float => 16 case DeclTag => 17 case TypeTag => 18 case Enum64 => 19
  }

  function HashCommon(t: BtfType): nat {
    HashWords(0, [t.name, InfoWord(t.info), TypeWord(t)])
  }

  function Interleave(a: seq<nat>, b: seq<nat>): seq<nat> {
    if a == [] || b == [] then [] else [a[0], b[0]] + Interleave(a[1..], b[1..])
  }

  /** The key under which a type is filed in the canonical index. */
  function Signature(t: BtfType): nat {
    match t.info.kind
    case Int | DeclTag => HashWords(HashCommon(t), t.payload)
    case Enum | Enum64 => HashCombine(0, t.name)
    case Struct | Union => HashWords(HashCommon(t), t.payload)
    case Array => HashWords(HashCommon(t), t.refs + t.payload)
    case FuncProto => HashWords(HashCommon(t), Interleave(t.payload, if t.refs == [] then [] else t.refs[1..]))
    case _ => HashCommon(t)
  }

  // ------------------------------------------------------------------
  // Names and declarations
  // ------------------------------------------------------------------

  function FwdKind(t: BtfType): Kind { if t.info.kflag then Union else Struct }

  /** The C namespace entry a type competes for: a forward declaration stands for
      the struct or union it announces, and the two enum widths are one kind. */
  function ClassKind(t: BtfType): Kind {
    match t.info.kind
    case Fwd => FwdKind(t)
    case Enum64 => Enum
    case k => k
  }

  predicate SameClass(a: BtfType, b: BtfType) {
    a.name == b.name && ClassKind(a) == ClassKind(b)
  }

  predicate IsDecl(t: BtfType) { t.info.kind == Fwd || IsEnumFwd(t) }

  lemma ShapeFacts(a: BtfType, b: BtfType)
    requires Shape(a) == Shape(b)
    ensures a.name == b.name && a.info == b.info && a.size == b.size && a.payload == b.payload
    ensures SameClass(a, b) && (IsDecl(a) <==> IsDecl(b))
  {
    assert Shape(a).name == Shape(b).name && Shape(a).info == Shape(b).info
        && Shape(a).size == Shape(b).size && Shape(a).payload == Shape(b).payload;
  }

  ghost predicate NoDecls(types: seq<BtfType>) {
    forall i :: 0 <= i < |types| ==> !IsDecl(types[i])
  }

  // ------------------------------------------------------------------
  // Meaning: what can be observed by following references
  // ------------------------------------------------------------------

  datatype Observation = Nothing | Seen(shape: BtfType)

  /** What is found by following the references numbered `path` from type i. */
  ghost function Observe(types: seq<BtfType>, i: TypeId, path: seq<nat>): Observation
    requires GraphOk(types) && i < |types|
    decreases |path|
  {
    if path == [] then Seen(Shape(types[i]))
    else if path[0] < |types[i].refs| then Observe(types, types[i].refs[path[0]], path[1..])
    else Nothing
  }

  /** Two types mean the same: no path tells them apart. */
  ghost predicate Bisimilar(types: seq<BtfType>, i: TypeId, j: TypeId)
    requires GraphOk(types) && i < |types| && j < |types|
  {
    forall path :: Observe(types, i, path) == Observe(types, j, path)
  }

  /** Types that mean the same have the same shape, and so do their references. */
  lemma BisimilarStep(types: seq<BtfType>, i: TypeId, j: TypeId)
    requires GraphOk(types) && i < |types| && j < |types|
    requires Bisimilar(types, i, j)
    ensures Shape(types[i]) == Shape(types[j])
    ensures |types[i].refs| == |types[j].refs|
    ensures forall r :: 0 <= r < |types[i].refs| ==> Bisimilar(types, types[i].refs[r], types[j].refs[r])
  {
    assert Observe(types, i, []) == Observe(types, j, []);
    assert Shape(types[i]).info == Shape(types[j]).info;
    forall r | 0 <= r < |types[i].refs|
      ensures Bisimilar(types, types[i].refs[r], types[j].refs[r])
    {
      forall path
        ensures Observe(types, types[i].refs[r], path) == Observe(types, types[j].refs[r], path)
      {
        assert ([r] + path)[1..] == path;
        assert Observe(types, i, [r] + path) == Observe(types, j, [r] + path);
      }
    }
  }

  // ------------------------------------------------------------------
  // Meaning with forward declarations
  // ------------------------------------------------------------------

  /** Type d defines what declaration i announces. */
  predicate Defines(types: seq<BtfType>, i: TypeId, d: TypeId)
    requires i < |types| && d < |types|
  {
    IsDecl(types[i]) && !IsDecl(types[d]) && SameClass(types[i], types[d])
  }

  /** What type i stands for: a definition, if i is a declaration that has one. */
  ghost function Definition(types: seq<BtfType>, i: TypeId): (d: TypeId)
    requires i < |types|
    ensures d < |types| && (d == i || Defines(types, i, d))
    ensures d == i ==> forall e :: 0 <= e < |types| ==> !Defines(types, i, e)
  {
    if exists e :: 0 <= e < |types| && Defines(types, i, e) then
      var e: TypeId :| e < |types| && Defines(types, i, e); e
    else i
  }

  /** What is found by following references, with declarations standing for their
      definitions. */
  ghost function ObserveDefined(types: seq<BtfType>, i: TypeId, path: seq<nat>): Observation
    requires GraphOk(types) && i < |types|
    decreases |path|
  {
    var d := Definition(types, i);
    if path == [] then Seen(Shape(types[d]))
    else if path[0] < |types[d].refs| then ObserveDefined(types, types[d].refs[path[0]], path[1..])
    else Nothing
  }

  ghost predicate Agree(types: seq<BtfType>, i: TypeId, j: TypeId)
    requires GraphOk(types) && i < |types| && j < |types|
  {
    forall path :: ObserveDefined(types, i, path) == ObserveDefined(types, j, path)
  }

  lemma AgreeStep(types: seq<BtfType>, i: TypeId, j: TypeId)
    requires GraphOk(types) && i < |types| && j < |types| && Agree(types, i, j)
    ensures var d, e := types[Definition(types, i)], types[Definition(types, j)];
            && Shape(d) == Shape(e) && |d.refs| == |e.refs| && SameClass(types[i], types[j])
            && forall r :: 0 <= r < |d.refs| ==> Agree(types, d.refs[r], e.refs[r])
  {
    var d, e := types[Definition(types, i)], types[Definition(types, j)];
    assert ObserveDefined(types, i, []) == ObserveDefined(types, j, []);
    ShapeFacts(d, e);
    forall r | 0 <= r < |d.refs|
      ensures Agree(types, d.refs[r], e.refs[r])
    {
      forall path
        ensures ObserveDefined(types, d.refs[r], path) == ObserveDefined(types, e.refs[r], path)
      {
        assert ([r] + path)[1..] == path;
        assert ObserveDefined(types, i, [r] + path) == ObserveDefined(types, j, [r] + path);
      }
    }
  }

  /** No declaration with the name of type k is ambiguous: whatever has that name agrees
      with it.  C's one definition per name, across all units. */
  ghost predicate OneMeaning(types: seq<BtfType>, k: TypeId)
    requires GraphOk(types) && k < |types|
  {
    forall i, j :: 0 <= i < |types| && 0 <= j < |types| && IsDecl(types[i])
                     && SameClass(types[k], types[i]) && SameClass(types[k], types[j])
      ==> Agree(types, i, j)
  }

  ghost predicate ClearAlong(types: seq<BtfType>, i: TypeId, path: seq<nat>)
    requires GraphOk(types) && i < |types|
    decreases |path|
  {
    && OneMeaning(types, i)
    && var d := Definition(types, i);
       path != [] && path[0] < |types[d].refs| ==> ClearAlong(types, types[d].refs[path[0]], path[1..])
  }

  /** No ambiguous name is seen from type i. */
  ghost predicate Clear(types: seq<BtfType>, i: TypeId)
    requires GraphOk(types) && i < |types|
  {
    forall path :: ClearAlong(types, i, path)
  }

  lemma ClearStep(types: seq<BtfType>, i: TypeId)
    requires GraphOk(types) && i < |types| && Clear(types, i)
    ensures OneMeaning(types, i)
    ensures var d := types[Definition(types, i)];
            forall r :: 0 <= r < |d.refs| ==> Clear(types, d.refs[r])
  {
    assert ClearAlong(types, i, []);
    var d := types[Definition(types, i)];
    forall r | 0 <= r < |d.refs|
      ensures Clear(types, d.refs[r])
    {
      forall path
        ensures ClearAlong(types, d.refs[r], path)
      {
        assert ([r] + path)[1..] == path;
        assert ClearAlong(types, i, [r] + path);
      }
    }
  }

  lemma {:induction false} ClearAlongAgree(types: seq<BtfType>, i: TypeId, j: TypeId, path: seq<nat>)
    requires GraphOk(types) && i < |types| && j < |types|
    requires Agree(types, i, j) && ClearAlong(types, i, path)
    ensures ClearAlong(types, j, path)
    decreases |path|
  {
    AgreeStep(types, i, j);
    var d, e := types[Definition(types, i)], types[Definition(types, j)];
    assert OneMeaning(types, j) by {
      assert SameClass(types[i], types[j]);
    }
    if path != [] && path[0] < |e.refs| {
      ClearAlongAgree(types, d.refs[path[0]], e.refs[path[0]], path[1..]);
    }
  }

  /** Types that agree are clear together. */
  lemma ClearAgree(types: seq<BtfType>, i: TypeId, j: TypeId)
    requires GraphOk(types) && i < |types| && j < |types| && Agree(types, i, j)
    ensures Clear(types, i) <==> Clear(types, j)
  {
    hide ClearAlong;
    forall path
      ensures ClearAlong(types, i, path) <==> ClearAlong(types, j, path)
    {
      if ClearAlong(types, i, path) {
        ClearAlongAgree(types, i, j, path);
      } else if ClearAlong(types, j, path) {
        ClearAlongAgree(types, j, i, path);
      }
    }
  }

  /** Types agree, where either is clear. */
  ghost predicate AgreeIfClear(types: seq<BtfType>, i: TypeId, j: TypeId)
    requires GraphOk(types) && i < |types| && j < |types|
  {
    Clear(types, i) || Clear(types, j) ==> Agree(types, i, j)
  }

  lemma AgreeIfClearSymmetric(types: seq<BtfType>, i: TypeId, j: TypeId)
    requires GraphOk(types) && i < |types| && j < |types| && AgreeIfClear(types, i, j)
    ensures AgreeIfClear(types, j, i)
  {
    hide Clear;
  }

  lemma AgreeIfClearTransitive(types: seq<BtfType>, i: TypeId, j: TypeId, k: TypeId)
    requires GraphOk(types) && i < |types| && j < |types| && k < |types|
    requires AgreeIfClear(types, i, j) && AgreeIfClear(types, j, k)
    ensures AgreeIfClear(types, i, k)
  {
    hide Clear;
    if Agree(types, i, j) {
      ClearAgree(types, i, j);
    }
    if Agree(types, j, k) {
      ClearAgree(types, j, k);
    }
  }

  /** A declaration agrees with whatever has its name, where either is clear. */
  lemma DeclAgrees(types: seq<BtfType>, i: TypeId, j: TypeId)
    requires GraphOk(types) && i < |types| && j < |types|
    requires SameClass(types[i], types[j]) && (IsDecl(types[i]) || IsDecl(types[j]))
    ensures AgreeIfClear(types, i, j)
  {
    hide Agree;
    if Clear(types, i) {
      ClearStep(types, i);
      DeclAgreesWith(types, i, i, j);
    } else if Clear(types, j) {
      ClearStep(types, j);
      DeclAgreesWith(types, j, i, j);
    }
  }

  lemma DeclAgreesWith(types: seq<BtfType>, k: TypeId, i: TypeId, j: TypeId)
    requires GraphOk(types) && k < |types| && i < |types| && j < |types| && OneMeaning(types, k)
    requires SameClass(types[k], types[i]) && SameClass(types[k], types[j]) && (IsDecl(types[i]) || IsDecl(types[j]))
    ensures Agree(types, i, j)
  {
    assert IsDecl(types[j]) ==> Agree(types, j, i);
  }

  /** Definitions of one shape whose references agree, agree. */
  lemma SameShapeAgree(types: seq<BtfType>, i: TypeId, j: TypeId)
    requires GraphOk(types) && i < |types| && j < |types| && !IsDecl(types[i])
    requires Shape(types[i]) == Shape(types[j]) && |types[i].refs| == |types[j].refs|
    requires forall r :: 0 <= r < |types[i].refs| ==> Agree(types, types[i].refs[r], types[j].refs[r])
    ensures Agree(types, i, j)
  {
    ShapeFacts(types[i], types[j]);
    forall path
      ensures ObserveDefined(types, i, path) == ObserveDefined(types, j, path)
    {
      if path != [] && path[0] < |types[i].refs| {
        assert Agree(types, types[i].refs[path[0]], types[j].refs[path[0]]);
      }
    }
  }

  lemma SameShapeIfClear(types: seq<BtfType>, i: TypeId, j: TypeId)
    requires GraphOk(types) && i < |types| && j < |types| && !IsDecl(types[i])
    requires Shape(types[i]) == Shape(types[j]) && |types[i].refs| == |types[j].refs|
    requires forall r :: 0 <= r < |types[i].refs| ==> AgreeIfClear(types, types[i].refs[r], types[j].refs[r])
    ensures AgreeIfClear(types, i, j)
  {
    ShapeFacts(types[i], types[j]);
    hide Clear;
    hide Agree;
    if Clear(types, i) || Clear(types, j) {
      var k := if Clear(types, i) then i else j;
      ClearStep(types, k);
      assert Definition(types, k) == k;
      forall r | 0 <= r < |types[i].refs|
        ensures Agree(types, types[i].refs[r], types[j].refs[r])
      {
        assert Clear(types, types[k].refs[r]);
      }
      SameShapeAgree(types, i, j);
    }
  }

  lemma IdenticalRecordsAgree(types: seq<BtfType>, i: TypeId, j: TypeId)
    requires GraphOk(types) && i < |types| && j < |types|
    requires types[i] == types[j]
    ensures AgreeIfClear(types, i, j) && (!IsDecl(types[i]) ==> Agree(types, i, j))
  {
    if IsDecl(types[i]) {
      DeclAgrees(types, i, j);
    } else {
      SameShapeAgree(types, i, j);
    }
  }

  // ------------------------------------------------------------------
  // Where no declaration is in sight
  // ------------------------------------------------------------------

  ghost predicate Undeclared(types: seq<BtfType>, i: TypeId)
    requires i < |types|
  {
    forall j :: 0 <= j < |types| && SameClass(types[i], types[j]) ==> !IsDecl(types[j])
  }

  ghost predicate PlainAlong(types: seq<BtfType>, i: TypeId, path: seq<nat>)
    requires GraphOk(types) && i < |types|
    decreases |path|
  {
    && Undeclared(types, i)
    && (path != [] && path[0] < |types[i].refs| ==> PlainAlong(types, types[i].refs[path[0]], path[1..]))
  }

  /** No name that anything declares is seen from type i. */
  ghost predicate Plain(types: seq<BtfType>, i: TypeId)
    requires GraphOk(types) && i < |types|
  {
    forall path :: PlainAlong(types, i, path)
  }

  lemma PlainStep(types: seq<BtfType>, i: TypeId)
    requires GraphOk(types) && i < |types| && Plain(types, i)
    ensures Undeclared(types, i) && !IsDecl(types[i]) && Definition(types, i) == i && OneMeaning(types, i)
    ensures forall r :: 0 <= r < |types[i].refs| ==> Plain(types, types[i].refs[r])
  {
    assert PlainAlong(types, i, []);
    forall r | 0 <= r < |types[i].refs|
      ensures Plain(types, types[i].refs[r])
    {
      forall path
        ensures PlainAlong(types, types[i].refs[r], path)
      {
        assert ([r] + path)[1..] == path;
        assert PlainAlong(types, i, [r] + path);
      }
    }
  }

  /** What sees no declared name is clear, and means what it plainly shows. */
  lemma {:induction false} PlainObserve(types: seq<BtfType>, i: TypeId, path: seq<nat>)
    requires GraphOk(types) && i < |types| && Plain(types, i)
    ensures ClearAlong(types, i, path) && ObserveDefined(types, i, path) == Observe(types, i, path)
    decreases |path|
  {
    PlainStep(types, i);
    hide Plain;
    hide OneMeaning;
    if path != [] && path[0] < |types[i].refs| {
      PlainObserve(types, types[i].refs[path[0]], path[1..]);
    }
  }

  lemma PlainClear(types: seq<BtfType>, i: TypeId)
    requires GraphOk(types) && i < |types| && Plain(types, i)
    ensures Clear(types, i)
    ensures forall path :: ObserveDefined(types, i, path) == Observe(types, i, path)
  {
    hide Plain;
    forall path
      ensures ClearAlong(types, i, path) && ObserveDefined(types, i, path) == Observe(types, i, path)
    {
      PlainObserve(types, i, path);
    }
  }

  lemma {:induction false} PlainAlongAgree(types: seq<BtfType>, i: TypeId, j: TypeId, path: seq<nat>)
    requires GraphOk(types) && i < |types| && j < |types| && Agree(types, i, j) && Plain(types, i)
    ensures PlainAlong(types, j, path)
    decreases |path|
  {
    AgreeStep(types, i, j);
    PlainStep(types, i);
    assert Undeclared(types, j) by {
      assert SameClass(types[i], types[j]);
    }
    hide Plain;
    hide Agree;
    if path != [] && path[0] < |types[j].refs| {
      PlainAlongAgree(types, types[i].refs[path[0]], types[j].refs[path[0]], path[1..]);
    }
  }

  lemma PlainAgree(types: seq<BtfType>, i: TypeId, j: TypeId)
    requires GraphOk(types) && i < |types| && j < |types| && Agree(types, i, j) && Plain(types, i)
    ensures Plain(types, j)
  {
    forall path
      ensures PlainAlong(types, j, path)
    {
      PlainAlongAgree(types, i, j, path);
    }
  }

  lemma {:induction false} PlainAlongBisimilar(types: seq<BtfType>, i: TypeId, j: TypeId, path: seq<nat>)
    requires GraphOk(types) && i < |types| && j < |types| && Bisimilar(types, i, j) && Plain(types, i)
    ensures PlainAlong(types, j, path)
    decreases |path|
  {
    BisimilarStep(types, i, j);
    PlainStep(types, i);
    ShapeFacts(types[i], types[j]);
    hide Plain;
    hide Bisimilar;
    if path != [] && path[0] < |types[j].refs| {
      PlainAlongBisimilar(types, types[i].refs[path[0]], types[j].refs[path[0]], path[1..]);
    }
  }

  lemma PlainBisimilar(types: seq<BtfType>, i: TypeId, j: TypeId)
    requires GraphOk(types) && i < |types| && j < |types| && Bisimilar(types, i, j) && Plain(types, i)
    ensures Plain(types, j)
  {
    forall path
      ensures PlainAlong(types, j, path)
    {
      PlainAlongBisimilar(types, i, j, path);
    }
  }

  lemma {:induction false} NoDeclsAlong(types: seq<BtfType>, i: TypeId, path: seq<nat>)
    requires GraphOk(types) && NoDecls(types) && i < |types|
    ensures PlainAlong(types, i, path)
    decreases |path|
  {
    if path != [] && path[0] < |types[i].refs| {
      NoDeclsAlong(types, types[i].refs[path[0]], path[1..]);
    }
  }

  lemma NoDeclsPlain(types: seq<BtfType>, i: TypeId)
    requires GraphOk(types) && NoDecls(types) && i < |types|
    ensures Plain(types, i)
  {
    forall path
      ensures PlainAlong(types, i, path)
    {
      NoDeclsAlong(types, i, path);
    }
  }
}
