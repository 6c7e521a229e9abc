/** The order in which type definitions are written out as C: a depth-first traversal that
    queues a definition behind everything that has to be defined before it. */
module DumpOrder {
  import opened BtfTypes

  const ENOMEM: int := 12

  datatype Order = NotOrdered | Ordering | Ordered

  // ------------------------------------------------------------------
  // What a definition needs
  // ------------------------------------------------------------------

  /** Types that the traversal goes on to. */
  function Followed(t: BtfType): seq<TypeId> {
    match t.info.kind
    case Struct | Union | Typedef | Volatile | Const | Restrict | TypeTag | Ptr | FuncProto => t.refs
    case Array => t.refs[..if |t.refs| > 0 then 1 else 0]
    case _ => []
  }

  /** Behind a pointer, a struct or union that has a name can be declared forward. */
  predicate Weak(t: BtfType, ptr: bool) { ptr && t.name != 0 && IsComposite(t) }

  function Linked(t: BtfType, ptr: bool): seq<TypeId> { if Weak(t, ptr) then [] else Followed(t) }

  /** Whether what a type refers to is behind a pointer; what a struct or an array contains
      is not, wherever that struct is.  A function's parameters and result never have to be
      complete, but the traversal takes them as it finds the function (as walked). */
  predicate Behind(t: BtfType, ptr: bool, walked: bool) {
    match t.info.kind
    case Ptr => true
    case Struct | Union | Array => false
    case FuncProto => !walked || ptr
    case _ => ptr
  }

  /** From a type, behind a pointer or not, a path of references leads to type b, behind a
      pointer or not (to). */
  ghost predicate LinkedVia(types: seq<BtfType>, walked: bool, a: TypeId, ptr: bool, path: seq<nat>, b: TypeId, to: bool)
    decreases |path|
  {
    a < |types| &&
    if path == [] then a == b && ptr == to
    else
      var refs := Linked(types[a], ptr);
      path[0] < |refs| && LinkedVia(types, walked, refs[path[0]], Behind(types[a], ptr, walked), path[1..], b, to)
  }

  /** Types that are written out as definitions of their own, and have to be: behind a
      pointer, typedefs and structs can wait. */
  predicate Defining(t: BtfType, ptr: bool) {
    if t.info.kind == Typedef || IsComposite(t) then !ptr && (t.info.kind == Typedef || t.name != 0)
    else t.name != 0 && t.info.kind in {Enum, Enum64, Fwd}
  }

  /** Type b has to be defined before type a is: it is in the layout of a, or in that of an
      anonymous struct that is written inside a, be it behind a pointer. */
  ghost predicate Needs(types: seq<BtfType>, a: TypeId, ptr: bool, path: seq<nat>, b: TypeId, to: bool) {
    LinkedVia(types, false, a, ptr, path, b, to) && b < |types| && Defining(types[b], to)
  }

  /** Every definition that a type needs, and its own, is queued. */
  ghost predicate Complete(types: seq<BtfType>, queued: seq<TypeId>, a: TypeId, ptr: bool) {
    forall path: seq<nat>, b: TypeId, to: bool :: Needs(types, a, ptr, path, b, to) ==> b in queued
  }

  /** Every definition that a queued type needs is queued before it. */
  ghost predicate NeededFirst(types: seq<BtfType>, queued: seq<TypeId>) {
    forall p: nat, path: seq<nat>, b: TypeId, to: bool ::
      p < |queued| && path != [] && Needs(types, queued[p], false, path, b, to) ==> b in queued[..p]
  }

  /** A struct or union leads back to itself, where it cannot be declared forward. */
  ghost predicate StrongCycle(types: seq<BtfType>, x: TypeId, path: seq<nat>, to: bool) {
    path != [] && LinkedVia(types, true, x, false, path, x, to) && x < |types| && IsComposite(types[x]) && !Weak(types[x], to)
  }

  ghost predicate HasStrongCycle(types: seq<BtfType>) {
    exists x: TypeId, path: seq<nat>, to: bool :: StrongCycle(types, x, path, to)
  }

  /** No struct or union is queued twice. */
  predicate CompositesOnce(types: seq<BtfType>, queued: seq<TypeId>) {
    && (forall p :: 0 <= p < |queued| ==> queued[p] < |types|)
    && (forall p, q :: 0 <= p < q < |queued| && queued[p] == queued[q] ==> !IsComposite(types[queued[p]]))
  }

  /** Every cycle of references passes through a struct or a union: elsewhere references
      lead down. */
  predicate Descends(types: seq<BtfType>, rank: seq<nat>) {
    && |rank| == |types|
    && forall i, j :: 0 <= i < |types| && !IsComposite(types[i]) && 0 <= j < |Followed(types[i])| ==>
         var r := Followed(types[i])[j];
         r < |types| && (IsComposite(types[r]) || rank[r] < rank[i])
  }

  function Height(types: seq<BtfType>, rank: seq<nat>, a: TypeId): nat {
    if a < |types| && a < |rank| && !IsComposite(types[a]) then rank[a] + 1 else 0
  }

  // ------------------------------------------------------------------
  // Lemmas about queues
  // ------------------------------------------------------------------

  lemma CompleteGrows(types: seq<BtfType>, queued: seq<TypeId>, queued': seq<TypeId>, a: TypeId, ptr: bool)
    requires Complete(types, queued, a, ptr) && queued <= queued'
    ensures Complete(types, queued', a, ptr)
  {
  }

  /** The links behind a pointer are among those that are not. */
  lemma {:induction false} LinkedDirectly(types: seq<BtfType>, a: TypeId, path: seq<nat>, b: TypeId, to: bool) returns (to': bool)
    requires LinkedVia(types, false, a, true, path, b, to)
    ensures LinkedVia(types, false, a, false, path, b, to') && (to' ==> to)
    decreases |path|
  {
    if path == [] {
      return false;
    }
    var r := Linked(types[a], true)[path[0]];
    if Behind(types[a], true, false) == Behind(types[a], false, false) {
      to' := to;
    } else {
      to' := LinkedDirectly(types, r, path[1..], b, to);
    }
  }

  lemma CompleteBehind(types: seq<BtfType>, queued: seq<TypeId>, a: TypeId, ptr: bool)
    requires Complete(types, queued, a, false)
    ensures Complete(types, queued, a, ptr)
  {
    if ptr {
      forall path: seq<nat>, b: TypeId, to: bool | Needs(types, a, true, path, b, to) ensures b in queued {
        var to' := LinkedDirectly(types, a, path, b, to);
        assert Needs(types, a, false, path, b, to');
      }
    }
  }

  /** A type is complete if it is queued, where it is a definition, and all that it links to is complete. */
  lemma CompleteStep(types: seq<BtfType>, queued: seq<TypeId>, a: TypeId, ptr: bool)
    requires a < |types| && (Defining(types[a], ptr) ==> a in queued)
    requires AllComplete(types, queued, Linked(types[a], ptr), Behind(types[a], ptr, false))
    ensures Complete(types, queued, a, ptr)
  {
    var refs, behind := Linked(types[a], ptr), Behind(types[a], ptr, false);
    forall path: seq<nat>, b: TypeId, to: bool | Needs(types, a, ptr, path, b, to) ensures b in queued {
      if path != [] {
        assert Needs(types, refs[path[0]], behind, path[1..], b, to);
        assert Complete(types, queued, refs[path[0]], behind);
      }
    }
  }

  /** Queueing a type that has everything it needs. */
  lemma QueueStep(types: seq<BtfType>, queued: seq<TypeId>, a: TypeId)
    requires a < |types| && NeededFirst(types, queued)
    requires AllComplete(types, queued, Linked(types[a], false), Behind(types[a], false, false))
    ensures NeededFirst(types, queued + [a])
  {
    var queued' := queued + [a];
    var refs, behind := Linked(types[a], false), Behind(types[a], false, false);
    forall p: nat, path: seq<nat>, b: TypeId, to: bool |
      p < |queued'| && path != [] && Needs(types, queued'[p], false, path, b, to)
      ensures b in queued'[..p]
    {
      if p < |queued| {
        assert queued'[..p] == queued[..p];
        assert queued'[p] == queued[p];
      } else {
        assert queued'[..p] == queued;
        assert Needs(types, refs[path[0]], behind, path[1..], b, to);
        assert Complete(types, queued, refs[path[0]], behind);
      }
    }
  }

  /** A struct or union that is queued does not need itself: what has such a need is never
      queued. */
  lemma NoNeedOfItself(types: seq<BtfType>, queued: seq<TypeId>, p: nat, path: seq<nat>)
    requires NeededFirst(types, queued) && CompositesOnce(types, queued)
    requires p < |queued| && path != [] && IsComposite(types[queued[p]]) && types[queued[p]].name != 0
    ensures !LinkedVia(types, false, queued[p], false, path, queued[p], false)
  {
    NotBefore(types, queued, p);
    NeedIsBefore(types, queued, p, path, queued[p], false);
  }

  lemma NeedIsBefore(types: seq<BtfType>, queued: seq<TypeId>, p: nat, path: seq<nat>, b: TypeId, to: bool)
    requires NeededFirst(types, queued) && p < |queued| && path != [] && b < |types| && Defining(types[b], to)
    ensures LinkedVia(types, false, queued[p], false, path, b, to) ==> b in queued[..p]
  {
    assert LinkedVia(types, false, queued[p], false, path, b, to) ==> Needs(types, queued[p], false, path, b, to);
  }

  lemma NotBefore(types: seq<BtfType>, queued: seq<TypeId>, p: nat)
    requires CompositesOnce(types, queued) && p < |queued| && IsComposite(types[queued[p]])
    ensures queued[p] !in queued[..p]
  {
  }

  // ------------------------------------------------------------------
  // How the traversal got to a type
  // ------------------------------------------------------------------

  lemma {:induction false} LinkedFurther(types: seq<BtfType>, a: TypeId, ptr: bool, path: seq<nat>, b: TypeId, to: bool, j: nat)
    requires LinkedVia(types, true, a, ptr, path, b, to) && b < |types| && j < |Linked(types[b], to)|
    requires Linked(types[b], to)[j] < |types|
    ensures LinkedVia(types, true, a, ptr, path + [j], Linked(types[b], to)[j], Behind(types[b], to, true))
    decreases |path|
  {
    if path == [] {
      assert [j][1..] == [];
    } else {
      LinkedFurther(types, Linked(types[a], ptr)[path[0]], Behind(types[a], ptr, true), path[1..], b, to, j);
      assert (path + [j])[1..] == path[1..] + [j];
    }
  }

  ghost predicate Leads(types: seq<BtfType>, x: TypeId, id: TypeId, ptr: bool) {
    exists path: seq<nat> :: path != [] && LinkedVia(types, true, x, false, path, id, ptr)
  }

  /** What is being ordered are structs and unions that lead to a type. */
  ghost predicate OnTheWay(types: seq<BtfType>, states: seq<Order>, id: TypeId, ptr: bool)
    requires |states| == |types|
  {
    forall x: TypeId :: x < |types| && states[x] == Ordering ==> IsComposite(types[x]) && Leads(types, x, id, ptr)
  }

  /** On the way to a type one is on the way to what it links to. */
  lemma WayOn(types: seq<BtfType>, states: seq<Order>, id: TypeId, ptr: bool, j: nat)
    requires |states| == |types| && OnTheWay(types, states, id, ptr) && id < |types| && j < |Linked(types[id], ptr)|
    requires Linked(types[id], ptr)[j] < |types|
    ensures OnTheWay(types, states, Linked(types[id], ptr)[j], Behind(types[id], ptr, true))
  {
    forall x: TypeId | x < |types| && states[x] == Ordering
      ensures Leads(types, x, Linked(types[id], ptr)[j], Behind(types[id], ptr, true))
    {
      var path :| path != [] && LinkedVia(types, true, x, false, path, id, ptr);
      LinkedFurther(types, x, false, path, id, ptr, j);
    }
  }

  /** A struct whose members are looked at is on the way itself. */
  lemma WayIn(types: seq<BtfType>, states: seq<Order>, id: TypeId, ptr: bool, j: nat)
    requires |states| == |types| && OnTheWay(types, states, id, ptr) && id < |types| && IsComposite(types[id])
    requires !Weak(types[id], ptr) && j < |types[id].refs| && types[id].refs[j] < |types|
    ensures OnTheWay(types, states[id := Ordering], types[id].refs[j], false)
  {
    var states' := states[id := Ordering];
    WayOn(types, states, id, ptr, j);
    forall x: TypeId | x < |types| && states'[x] == Ordering
      ensures IsComposite(types[x]) && Leads(types, x, types[id].refs[j], false)
    {
      if x == id {
        LinkedFurther(types, id, false, [], id, false, j);
        assert [] + [j] == [j];
        assert LinkedVia(types, true, id, false, [j], types[id].refs[j], false);
      } else {
        assert states[x] == Ordering;
      }
    }
  }

  lemma WaySame(types: seq<BtfType>, states: seq<Order>, states': seq<Order>, id: TypeId, ptr: bool)
    requires |states| == |types| && OnTheWay(types, states, id, ptr) && Advanced(states, states')
    ensures OnTheWay(types, states', id, ptr)
  {
    hide Leads;
  }

  lemma WayBack(types: seq<BtfType>, states: seq<Order>, id: TypeId, ptr: bool)
    requires |states| == |types| && OnTheWay(types, states, id, ptr) && id < |types| && states[id] == Ordering && !Weak(types[id], ptr)
    ensures HasStrongCycle(types)
  {
    var path :| path != [] && LinkedVia(types, true, id, false, path, id, ptr);
    assert StrongCycle(types, id, path, ptr);
  }

  // ------------------------------------------------------------------
  // The invariant of the traversal
  // ------------------------------------------------------------------

  ghost predicate Inv(types: seq<BtfType>, states: seq<Order>, queued: seq<TypeId>) {
    && |states| == |types| && CompositesOnce(types, queued) && NeededFirst(types, queued)
    && (forall i :: 0 <= i < |types| && states[i] == Ordered ==> Complete(types, queued, i, false))
    && (forall p :: 0 <= p < |queued| && IsComposite(types[queued[p]]) ==> states[queued[p]] == Ordered)
  }

  /** States only advance, and what is being ordered goes on being ordered. */
  predicate Advanced(states: seq<Order>, states': seq<Order>) {
    && |states'| == |states|
    && (forall i :: 0 <= i < |states| && states[i] == Ordered ==> states'[i] == Ordered)
    && (forall i :: 0 <= i < |states| ==> (states[i] == Ordering <==> states'[i] == Ordering))
  }

  function Unordered(states: seq<Order>): set<nat> {
    set i: nat | i < |states| && states[i] == NotOrdered
  }

  lemma AdvancedShrinks(states: seq<Order>, states': seq<Order>)
    requires Advanced(states, states')
    ensures Unordered(states') <= Unordered(states)
  {
  }

  /** A definition is queued and done. */
  lemma Queued(types: seq<BtfType>, states: seq<Order>, queued: seq<TypeId>, a: TypeId)
    requires Inv(types, states, queued) && a < |types| && (IsComposite(types[a]) ==> states[a] != Ordered)
    requires AllComplete(types, queued, Linked(types[a], false), Behind(types[a], false, false))
    ensures Inv(types, states[a := Ordered], queued + [a]) && Complete(types, queued + [a], a, false)
  {
    var queued' := queued + [a];
    hide NeededFirst;
    hide Complete;
    QueueStep(types, queued, a);
    forall i | (0 <= i < |types| && states[i] == Ordered) ensures Complete(types, queued', i, false) {
      CompleteGrows(types, queued, queued', i, false);
    }
    AllGrow(types, queued, queued', Linked(types[a], false), Behind(types[a], false, false));
    CompleteStep(types, queued', a, false);
  }

  lemma MarkedOrdered(types: seq<BtfType>, states: seq<Order>, queued: seq<TypeId>, a: TypeId)
    requires Inv(types, states, queued) && a < |types| && Complete(types, queued, a, false)
    ensures Inv(types, states[a := Ordered], queued)
  {
    hide NeededFirst;
    hide Complete;
  }

  lemma MarkedOrdering(types: seq<BtfType>, states: seq<Order>, queued: seq<TypeId>, a: TypeId)
    requires Inv(types, states, queued) && a < |types| && states[a] == NotOrdered
    ensures a < |states| && Inv(types, states[a := Ordering], queued)
    ensures Unordered(states[a := Ordering]) < Unordered(states)
  {
    hide NeededFirst;
    hide Complete;
    assert a in Unordered(states) && a !in Unordered(states[a := Ordering]);
  }

  ghost predicate AllComplete(types: seq<BtfType>, queued: seq<TypeId>, refs: seq<TypeId>, ptr: bool) {
    forall j :: 0 <= j < |refs| ==> Complete(types, queued, refs[j], ptr)
  }

  lemma AllGrow(types: seq<BtfType>, queued: seq<TypeId>, queued': seq<TypeId>, refs: seq<TypeId>, ptr: bool)
    requires AllComplete(types, queued, refs, ptr) && queued <= queued'
    ensures AllComplete(types, queued', refs, ptr)
  {
    hide Complete;
    forall j | 0 <= j < |refs| ensures Complete(types, queued', refs[j], ptr) {
      CompleteGrows(types, queued, queued', refs[j], ptr);
    }
  }

  lemma MoreComplete(types: seq<BtfType>, queued: seq<TypeId>, queued': seq<TypeId>, refs: seq<TypeId>, r: TypeId, ptr: bool)
    requires AllComplete(types, queued, refs, ptr) && queued <= queued' && Complete(types, queued', r, ptr)
    ensures AllComplete(types, queued', refs + [r], ptr)
  {
    hide Complete;
    AllGrow(types, queued, queued', refs, ptr);
  }

  // ------------------------------------------------------------------
  // The traversal
  // ------------------------------------------------------------------

  class Dumper {
    const types: seq<BtfType>
    const referenced: seq<bool>
    ghost const rank: seq<nat>
    var states: seq<Order>
    var queue: seq<TypeId>
    /** Everything that earlier calls have queued. */
    ghost var written: seq<TypeId>

    ghost predicate GraphFits() {
      GraphOk(types) && |referenced| == |types| && Descends(types, rank)
    }

    ghost predicate Valid()
      reads this
    {
      GraphFits() && |states| == |types| > 0 && Inv(types, states, written + queue) && states[0] == Ordered
    }

    ghost predicate Unmarked()
      reads this
    {
      forall i :: 0 <= i < |states| ==> states[i] != Ordering
    }

    constructor (types: seq<BtfType>, referenced: seq<bool>, ghost rank: seq<nat>)
      requires GraphOk(types) && |referenced| == |types| && Descends(types, rank)
      ensures Valid() && Unmarked() && this.types == types && written == [] && queue == []
    {
      this.types, this.referenced, this.rank := types, referenced, rank;
      states := seq(|types|, i => if i == 0 then Ordered else NotOrdered);
      queue, written := [], [];
      new;
      VoidComplete();
    }

    lemma VoidComplete()
      requires GraphOk(types)
      ensures Complete(types, [], 0, false)
    {
      CompleteStep(types, [], 0, false);
    }

    /** The queue may not be able to grow. */
    method Enqueue(id: TypeId) returns (err: int)
      modifies `queue
      ensures (err == 0 || err == -ENOMEM) && queue == if err == 0 then old(queue) + [id] else old(queue)
    {
      if * {
        return -ENOMEM;
      }
      queue := queue + [id];
      return 0;
    }

    /** What the traversal of a type has done: everything the type needs is queued; it is
        queued itself, if it is a definition, and links strongly to it if r is one. */
    twostate predicate Traversed(id: TypeId, throughPtr: bool, r: int)
      reads this
    {
      && (r >= 0 ==>
            && r <= 1 && Valid() && Advanced(old(states), states) && old(queue) <= queue && written == old(written)
            && Complete(types, written + queue, id, throughPtr && r == 0))
      && (r < 0 ==> r == -ENOMEM || r == -EINVAL || (r == -ELOOP && HasStrongCycle(types)))
    }

    /** Puts a type, if it is written out by itself, behind everything that it needs. */
    method OrderType(id: TypeId, throughPtr: bool) returns (r: int)
      requires Valid() && id < |types| && OnTheWay(types, states, id, throughPtr)
      modifies `states, `queue
      ensures Traversed(id, throughPtr, r)
      decreases Unordered(states), Height(types, rank, id), 3
    {
      hide Complete;
      hide OnTheWay;
      hide HasStrongCycle;
      if states[id] == Ordered {
        return 1;
      }
      var t := types[id];
      if states[id] == Ordering {
        if IsComposite(t) && throughPtr && t.name != 0 {
          WeakComplete(id);
          return 0;
        }
        WayBack(types, states, id, throughPtr);
        return -ELOOP;
      }
      match t.info.kind
      case Struct | Union => r := OrderComposite(id, throughPtr);
      case _ => r := OrderOther(id, throughPtr);
    }

    lemma WeakComplete(id: TypeId)
      requires id < |types| && Weak(types[id], true)
      ensures Complete(types, written + queue, id, true)
    {
      CompleteStep(types, written + queue, id, true);
    }

    /** A struct or union that can be declared forward is left for later; else its members
        come first. */
    method OrderComposite(id: TypeId, throughPtr: bool) returns (r: int)
      requires Valid() && id < |types| && IsComposite(types[id]) && states[id] == NotOrdered
      requires OnTheWay(types, states, id, throughPtr)
      modifies `states, `queue
      ensures Traversed(id, throughPtr, r)
      decreases Unordered(states), Height(types, rank, id), 0
    {
      hide Complete;
      hide Inv;
      hide GraphFits;
      hide OnTheWay;
      hide HasStrongCycle;
      var t := types[id];
      if throughPtr && t.name != 0 {
        WeakComplete(id);
        return 0;
      }
      MarkedOrdering(types, states, written + queue, id);
      states := states[id := Ordering];
      label Marked:
      var i := 0;
      while i < |t.refs|
        invariant i <= |t.refs| && Valid() && Advanced(old@Marked(states), states) && old(queue) <= queue
        invariant written == old(written)
        invariant AllComplete(types, written + queue, t.refs[..i], false)
      {
        RefInRange(id, i);
        AdvancedShrinks(old@Marked(states), states);
        WayIn(types, old(states), id, throughPtr, i);
        WaySame(types, old@Marked(states), states, t.refs[i], false);
        ghost var before := written + queue;
        r := OrderType(t.refs[i], false);
        if r < 0 {
          return;
        }
        MoreComplete(types, before, written + queue, t.refs[..i], t.refs[i], false);
        assert t.refs[..i] + [t.refs[i]] == t.refs[..i + 1];
        i := i + 1;
      }
      assert t.refs[..i] == t.refs;
      r := FinishComposite(id);
    }

    method FinishComposite(id: TypeId) returns (r: int)
      requires Valid() && id < |types| && IsComposite(types[id]) && states[id] == Ordering
      requires AllComplete(types, written + queue, types[id].refs, false)
      modifies `states, `queue
      ensures r >= 0 ==> r == 1 && Valid() && states == old(states)[id := Ordered] && old(queue) <= queue
      ensures r >= 0 ==> Complete(types, written + queue, id, false)
      ensures r < 0 ==> r == -ENOMEM
    {
      hide Complete;
      hide NeededFirst;
      if types[id].name != 0 {
        var err := Enqueue(id);
        if err < 0 {
          return err;
        }
        Queued(types, states, old(written + queue), id);
        assert written + queue == old(written + queue) + [id];
      } else {
        CompleteStep(types, written + queue, id, false);
        MarkedOrdered(types, states, written + queue, id);
      }
      states := states[id := Ordered];
      return 1;
    }

    lemma RefInRange(id: TypeId, i: nat)
      requires GraphFits() && id < |types| && i < |types[id].refs|
      ensures types[id].refs[i] < |types|
    {
    }

    lemma Lower(id: TypeId, j: nat)
      requires GraphFits() && id < |types| && !IsComposite(types[id]) && j < |Followed(types[id])|
      ensures Followed(types[id])[j] < |types|
      ensures Height(types, rank, Followed(types[id])[j]) < Height(types, rank, id)
    {
    }

    lemma OneRef(id: TypeId)
      requires GraphFits() && id < |types|
      ensures types[id].info.kind in {Ptr, Typedef, Volatile, Const, Restrict, TypeTag, Array, FuncProto} ==> |types[id].refs| >= 1
      ensures types[id].info.kind in {Ptr, Typedef, Volatile, Const, Restrict, TypeTag} ==> |types[id].refs| == 1
    {
      assert WellFormed(types[id]);
    }

    /** Goes on to a type that another one refers to. */
    method OrderRef(id: TypeId, throughPtr: bool, j: nat, behind: bool) returns (r: int)
      requires Valid() && id < |types| && !IsComposite(types[id]) && OnTheWay(types, states, id, throughPtr)
      requires j < |Followed(types[id])| && behind == Behind(types[id], throughPtr, true)
      modifies `states, `queue
      ensures Followed(types[id])[j] < |types| && Traversed(Followed(types[id])[j], behind, r)
      decreases Unordered(states), Height(types, rank, id), 0
    {
      hide Complete;
      hide Inv;
      hide OnTheWay;
      hide HasStrongCycle;
      Lower(id, j);
      WayOn(types, states, id, throughPtr, j);
      r := OrderType(Followed(types[id])[j], behind);
    }

    method OrderOther(id: TypeId, throughPtr: bool) returns (r: int)
      requires Valid() && id < |types| && !IsComposite(types[id]) && states[id] == NotOrdered
      requires OnTheWay(types, states, id, throughPtr)
      modifies `states, `queue
      ensures Traversed(id, throughPtr, r)
      decreases Unordered(states), Height(types, rank, id), 2
    {
      hide Complete;
      hide Inv;
      hide GraphFits;
      hide Unordered;
      hide Height;
      hide OnTheWay;
      hide HasStrongCycle;
      var t := types[id];
      OneRef(id);
      if t.info.kind in {Int, Float, Func, Var, Datasec, DeclTag} {
        MarkSimple(id);
        return 0;
      } else if t.info.kind == Ptr {
        r := OrderPtr(id, throughPtr);
      } else if t.info.kind == Array {
        r := OrderRef(id, throughPtr, 0, false);
        if r >= 0 {
          PassedOn(id, throughPtr && r == 0, false);
        }
      } else if t.info.kind in {Enum, Enum64, Fwd} {
        r := OrderEnum(id);
      } else if t.info.kind == Typedef {
        r := OrderRef(id, throughPtr, 0, throughPtr);
        if r < 0 {
          return;
        }
        if throughPtr && r == 0 {
          PassedOn(id, true, true);
          return;
        }
        r := FinishTypedef(id);
      } else if t.info.kind in {Volatile, Const, Restrict, TypeTag} {
        r := OrderRef(id, throughPtr, 0, throughPtr);
        if r >= 0 {
          PassedOn(id, throughPtr && r == 0, throughPtr && r == 0);
        }
      } else if t.info.kind == FuncProto {
        r := OrderProto(id, throughPtr);
      } else {
        return -EINVAL;
      }
    }

    method OrderPtr(id: TypeId, throughPtr: bool) returns (r: int)
      requires Valid() && id < |types| && types[id].info.kind == Ptr && states[id] == NotOrdered
      requires OnTheWay(types, states, id, throughPtr)
      modifies `states, `queue
      ensures Traversed(id, throughPtr, r)
      decreases Unordered(states), Height(types, rank, id), 1
    {
      hide Complete;
      hide Inv;
      hide GraphFits;
      hide OnTheWay;
      hide HasStrongCycle;
      OneRef(id);
      r := OrderRef(id, throughPtr, 0, true);
      if r >= 0 {
        var target := types[id].refs[0];
        if r == 1 {
          CompleteBehind(types, written + queue, target, true);
        }
        MarkSimple(id);
      } else {
        MarkFailed(id);
      }
    }

    /** A type that is no definition and has everything it needs. */
    method MarkSimple(id: TypeId)
      requires Valid() && id < |types| && !Defining(types[id], false) && states[id] != Ordering
      requires AllComplete(types, written + queue, Linked(types[id], false), Behind(types[id], false, false))
      modifies `states
      ensures Valid() && states == old(states)[id := Ordered] && Advanced(old(states), states)
      ensures forall ptr :: Complete(types, written + queue, id, ptr)
    {
      hide Complete;
      hide NeededFirst;
      CompleteStep(types, written + queue, id, false);
      CompleteBehind(types, written + queue, id, true);
      MarkedOrdered(types, states, written + queue, id);
      states := states[id := Ordered];
    }

    /** A pointer is marked even if the traversal of its target has failed. */
    method MarkFailed(id: TypeId)
      modifies `states
    {
      if id < |states| {
        states := states[id := Ordered];
      }
    }

    /** A type that needs what another one does. */
    lemma PassedOn(id: TypeId, ptr: bool, behind: bool)
      requires id < |types| && !Defining(types[id], ptr) && |Linked(types[id], ptr)| == 1 && behind == Behind(types[id], ptr, false)
      requires Complete(types, written + queue, Linked(types[id], ptr)[0], behind)
      ensures Complete(types, written + queue, id, ptr)
    {
      CompleteStep(types, written + queue, id, ptr);
    }

    method OrderEnum(id: TypeId) returns (r: int)
      requires Valid() && id < |types| && types[id].info.kind in {Enum, Enum64, Fwd} && states[id] == NotOrdered
      modifies `states, `queue
      ensures Traversed(id, false, r) && (r >= 0 ==> r == 1)
    {
      hide LinkedVia;
      hide PayloadCount;
      hide RefCount;
      hide Complete;
      hide HasStrongCycle;
      hide NeededFirst;
      if types[id].name != 0 || !referenced[id] {
        var err := Enqueue(id);
        if err != 0 {
          return err;
        }
        Queued(types, states, old(written + queue), id);
        assert written + queue == old(written + queue) + [id];
      } else {
        CompleteStep(types, written + queue, id, false);
        MarkedOrdered(types, states, written + queue, id);
      }
      states := states[id := Ordered];
      return 1;
    }

    method FinishTypedef(id: TypeId) returns (r: int)
      requires Valid() && id < |types| && types[id].info.kind == Typedef && states[id] != Ordering
      requires types[id].refs != [] && Complete(types, written + queue, types[id].refs[0], false)
      modifies `states, `queue
      ensures Traversed(id, false, r) && (r >= 0 ==> r == 1)
    {
      hide UsesTypeWord;
      hide Descends;
      OneRef(id);
      hide Complete;
      hide HasStrongCycle;
      hide NeededFirst;
      var err := Enqueue(id);
      if err != 0 {
        return err;
      }
      Queued(types, states, old(written + queue), id);
      assert written + queue == old(written + queue) + [id];
      states := states[id := Ordered];
      return 1;
    }

    /** Parameters and result of a function; the link is strong if one of theirs is. */
    method OrderProto(id: TypeId, throughPtr: bool) returns (r: int)
      requires Valid() && id < |types| && types[id].info.kind == FuncProto && OnTheWay(types, states, id, throughPtr)
      modifies `states, `queue
      ensures Traversed(id, throughPtr, r)
      decreases Unordered(states), Height(types, rank, id), 1
    {
      hide Complete;
      hide Inv;
      hide GraphFits;
      hide Height;
      hide OnTheWay;
      hide HasStrongCycle;
      var t := types[id];
      OneRef(id);
      var err := OrderRef(id, throughPtr, 0, throughPtr);
      if err < 0 {
        return err;
      }
      Behinds(t.refs[0], throughPtr && err == 0);
      var isStrong := err > 0;
      var i := 1;
      while i < |t.refs|
        invariant 1 <= i <= |t.refs| && Valid() && Advanced(old(states), states) && old(queue) <= queue && written == old(written)
        invariant AllComplete(types, written + queue, t.refs[..i], true)
      {
        AdvancedShrinks(old(states), states);
        WaySame(types, old(states), states, id, throughPtr);
        ghost var before := written + queue;
        err := OrderRef(id, throughPtr, i, throughPtr);
        if err < 0 {
          return err;
        }
        Behinds(t.refs[i], throughPtr && err == 0);
        MoreComplete(types, before, written + queue, t.refs[..i], t.refs[i], true);
        assert t.refs[..i] + [t.refs[i]] == t.refs[..i + 1];
        if err > 0 {
          isStrong := true;
        }
        i := i + 1;
      }
      assert t.refs[..i] == t.refs;
      CompleteStep(types, written + queue, id, throughPtr && !isStrong);
      return if isStrong then 1 else 0;
    }

    lemma Behinds(id: TypeId, ptr: bool)
      requires Complete(types, written + queue, id, ptr)
      ensures Complete(types, written + queue, id, true)
    {
      if !ptr {
        CompleteBehind(types, written + queue, id, true);
      }
    }

    /** Queues a type and everything that its definition needs; what is queued is then
        written out in that order. */
    method DumpType(id: TypeId) returns (r: int)
      requires Valid() && Unmarked()
      modifies `states, `queue, `written
      ensures id >= |types| ==> r == -EINVAL && written == old(written)
      ensures id >= |types| || r == 0 ==> Valid() && Unmarked()
      ensures r == 0 ==> written == old(written) + old(queue) && Complete(types, written + queue, id, false)
      ensures r < 0 ==> r == -ENOMEM || r == -EINVAL || (r == -ELOOP && HasStrongCycle(types))
    {
      if id >= |types| {
        return -EINVAL;
      }
      hide Complete;
      hide NeededFirst;
      hide CompositesOnce;
      assert written + queue + [] == written + queue;
      written, queue := written + queue, [];
      r := OrderType(id, false);
      if r < 0 {
        return;
      }
      return 0;
    }
  }
}
