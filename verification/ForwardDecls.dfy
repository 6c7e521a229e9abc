/** Resolution of forward declarations that stand for exactly one struct or union. */
module ForwardDecls {
  import opened BtfTypes
  import opened CanonicalMap
  import opened Equivalence
  import opened CanonicalIndex
  import H = HashMap
  import R = HashMapRuns

  /** A canonical struct or union with the given name. */
  ghost predicate Named(types: seq<BtfType>, m: seq<nat>, name: nat, i: TypeId) {
    0 < i < |types| && i < |m| && IsComposite(types[i]) && m[i] == i && types[i].name == name
  }

  /** u is the only one of its name. */
  ghost predicate UniquelyNamed(types: seq<BtfType>, m: seq<nat>, name: nat, u: TypeId) {
    Named(types, m, name, u) && forall j :: Named(types, m, name, j) ==> j == u
  }

  /** The index of names of the canonical structs below k: the id if there is one,
      0 if there are several. */
  ghost predicate NamesOk(types: seq<BtfType>, m: seq<nat>, k: TypeId, names: map<int, H.Entry>) {
    && (forall x :: x in names && names[x].value == 0 ==>
          x >= 0 && exists i: TypeId, j: TypeId :: i < j < k && Named(types, m, x, i) && Named(types, m, x, j))
    && (forall x :: x in names && names[x].value != 0 ==>
          && x >= 0 && 0 < names[x].value < k && Named(types, m, x, names[x].value)
          && forall j: TypeId :: j < k && Named(types, m, x, j) ==> j == names[x].value)
    && (forall j: TypeId :: j < k && j < |types| && Named(types, m, types[j].name, j) ==> types[j].name in names)
  }

  lemma NamesSkip(types: seq<BtfType>, m: seq<nat>, k: TypeId, names: map<int, H.Entry>)
    requires NamesOk(types, m, k, names)
    requires forall x: nat :: !Named(types, m, x, k)
    ensures NamesOk(types, m, k + 1, names)
  {
  }

  lemma NamesAdd(types: seq<BtfType>, m: seq<nat>, k: TypeId, names: map<int, H.Entry>, names': map<int, H.Entry>)
    requires NamesOk(types, m, k, names) && k < |types|
    requires Named(types, m, types[k].name, k)
    requires names' == names[types[k].name := H.Entry(types[k].name, if types[k].name in names then 0 else k)]
    ensures NamesOk(types, m, k + 1, names')
  {
    var x := types[k].name;
    if x in names {
      if names[x].value == 0 {
        var i: TypeId, j: TypeId :| i < j < k && Named(types, m, x, i) && Named(types, m, x, j);
      } else {
        assert Named(types, m, x, names[x].value);
      }
    }
    forall y | y in names' && y != x && names'[y].value == 0
      ensures y >= 0 && exists i: TypeId, j: TypeId :: i < j < k + 1 && Named(types, m, y, i) && Named(types, m, y, j)
    {
      var i: TypeId, j: TypeId :| i < j < k && Named(types, m, y, i) && Named(types, m, y, j);
    }
  }

  method FillUniqueNames(types: seq<BtfType>, m: seq<nat>) returns (names: H.Table, err: int, ghost view: map<int, H.Entry>)
    requires 0 < |types| == |m|
    ensures fresh(names) && names.Valid() && (forall k :: names.denotes(k) == k)
    ensures err == 0 || err == -H.ENOMEM
    ensures err == 0 ==> R.Represents(names.denotes, names.Contents(), view) && R.MapOk(names.denotes, view)
    ensures err == 0 ==> NamesOk(types, m, |types|, view)
  {
    names := new H.Table((k: int) => if k >= 0 then k else -k, (k: int) => k);
    view := map[];
    var id := 1;
    while id < |types|
      invariant 1 <= id <= |types|
      invariant fresh(names) && names.Valid() && (forall k :: names.denotes(k) == k)
      invariant R.Represents(names.denotes, names.Contents(), view) && R.MapOk(names.denotes, view)
      invariant NamesOk(types, m, id, view)
    {
      if IsComposite(types[id]) && m[id] == id {
        ghost var before := view;
        err, view := AddName(names, types[id].name, id, view);
        if err != 0 {
          return;
        }
        NamesAdd(types, m, id, before, view);
      } else {
        NamesSkip(types, m, id, view);
      }
      id := id + 1;
    }
    return names, 0, view;
  }

  /** File a name; a second struct of the same name leaves 0 behind. */
  method AddName(names: H.Table, name: nat, id: TypeId, ghost view: map<int, H.Entry>)
    returns (err: int, ghost view': map<int, H.Entry>)
    requires names.Valid() && (forall k :: names.denotes(k) == k)
    requires R.Represents(names.denotes, names.Contents(), view) && R.MapOk(names.denotes, view)
    modifies names
    ensures names.Valid()
    ensures err == 0 || err == -H.ENOMEM
    ensures err == 0 ==> R.Represents(names.denotes, names.Contents(), view') && R.MapOk(names.denotes, view')
    ensures err == 0 ==> view' == view[name := H.Entry(name, if name in view then 0 else id)]
  {
    err, view' := MapInsert(names, name, id, H.Add, view);
    if err == -H.EEXIST {
      err, view' := MapInsert(names, name, 0, H.Set, view');
    }
  }

  /** An insertion seen on the plain map the table stands for. */
  method MapInsert(names: H.Table, key: int, value: int, s: H.Strategy, ghost view: map<int, H.Entry>)
    returns (err: int, ghost view': map<int, H.Entry>)
    requires names.Valid() && (forall k :: names.denotes(k) == k) && (s == H.Add || s == H.Set)
    requires R.Represents(names.denotes, names.Contents(), view) && R.MapOk(names.denotes, view)
    modifies names
    ensures names.Valid()
    ensures R.Represents(names.denotes, names.Contents(), view') && R.MapOk(names.denotes, view')
    ensures || (err == -H.ENOMEM && view' == view)
            || (err == -H.EEXIST && s == H.Add && key in view && view' == view)
            || (err == 0 && (s == H.Set || key !in view) && view' == view[key := H.Entry(key, value)])
  {
    hide H.DeleteOk;
    hide H.InsertOk;
    hide R.Represents;
    ghost var c := names.Contents();
    var found;
    err, found := names.Insert(key, value, s, true);
    R.StepRefines(names.denotes, c, view, R.InsertOp(s, key, value, err, found), names.Contents());
    view' := R.MapStep(names.denotes, view, R.InsertOp(s, key, value, err, found));
  }

  /** What the pass does to one entry of the map. */
  ghost predicate FwdVerdict(types: seq<BtfType>, m0: seq<nat>, i: TypeId, v: nat)
    requires i < |types| && |m0| == |types|
  {
    if types[i].info.kind == Fwd && m0[i] == i then
      if exists u: TypeId :: UniquelyNamed(types, m0, types[i].name, u) && types[u].info.kind == FwdKind(types[i])
      then UniquelyNamed(types, m0, types[i].name, v) && types[v].info.kind == FwdKind(types[i])
      else v == i
    else v == m0[i]
  }

  /** Entries from start up to id have their verdict, all others are as before. */
  ghost predicate FwdProgress(types: seq<BtfType>, m0: seq<nat>, m: seq<nat>, start: TypeId, id: TypeId) {
    && |m0| == |m| == |types|
    && forall i :: 0 <= i < |m| ==> if start <= i < id then FwdVerdict(types, m0, i, m[i]) else m[i] == m0[i]
  }

  lemma SameNames(types: seq<BtfType>, m0: seq<nat>, m: seq<nat>, start: TypeId, id: TypeId)
    requires FwdProgress(types, m0, m, start, id)
    ensures forall name, i :: Named(types, m, name, i) <==> Named(types, m0, name, i)
  {
    forall name, i | 0 <= i < |types| && IsComposite(types[i])
      ensures Named(types, m, name, i) <==> Named(types, m0, name, i)
    {
      assert start <= i < id ==> FwdVerdict(types, m0, i, m[i]);
    }
  }

  /** Resolve one forward declaration. */
  method ResolveFwd(types: seq<BtfType>, m: seq<nat>, names: H.Table, id: TypeId,
                    ghost view: map<int, H.Entry>, ghost m0: seq<nat>)
    returns (to: TypeId)
    requires names.Valid() && (forall k :: names.denotes(k) == k)
    requires R.Represents(names.denotes, names.Contents(), view) && R.MapOk(names.denotes, view)
    requires |m0| == |m| == |types| && NamesOk(types, m0, |types|, view)
    requires id < |m| && types[id].info.kind == Fwd && m[id] == id == m0[id]
    ensures to < |types| && FwdVerdict(types, m0, id, to)
  {
    var name := types[id].name;
    var found, value := names.Find(name);
    R.KeyInMap(names.denotes, names.Contents(), view, name);
    if !found {
      return id;
    }
    assert name in view && value == view[name].value;
    if value == 0 {
      return id;
    }
    assert UniquelyNamed(types, m0, name, value);
    var kind := types[value].info.kind;
    if (kind == Struct && FwdKind(types[id]) != Struct) || (kind == Union && FwdKind(types[id]) != Union) {
      return id;
    }
    return value;
  }

  /** Linking a declaration to its definition keeps the canonical map in order. */
  lemma FwdLink(types: seq<BtfType>, m0: seq<nat>, m: seq<nat>, filed: set<TypeId>, start: TypeId, id: TypeId, to: TypeId)
    requires Invariant(types, types, m, filed, start) && FwdProgress(types, m0, m, start, id)
    requires id < |m| && start <= id && to < |m| && types[id].info.kind == Fwd && m[id] == id == m0[id]
    requires FwdVerdict(types, m0, id, to)
    ensures Invariant(types, types, m[id := to], filed, start)
    ensures FwdProgress(types, m0, m[id := to], start, id + 1)
  {
    InvariantFacts(types, types, m, filed, start);
    if to != id {
      SameNames(types, m0, m, start, id);
      assert Named(types, m, types[id].name, to);
      LinkToTerminal(m, id, to);
      DeclAgrees(types, id, to);
      AddLink(types, types, m, filed, start, id, to);
    } else {
      assert m[id := to] == m;
    }
  }

  lemma FwdSkip(types: seq<BtfType>, m0: seq<nat>, m: seq<nat>, start: TypeId, id: TypeId)
    requires FwdProgress(types, m0, m, start, id) && start <= id < |m|
    requires types[id].info.kind != Fwd || m[id] != id
    ensures FwdProgress(types, m0, m, start, id + 1)
  {
  }

  method ResolveFwds(types: seq<BtfType>, m0: seq<nat>, start: TypeId, ghost filed: set<TypeId>) returns (err: int, m: seq<nat>)
    requires Invariant(types, types, m0, filed, start) && |m0| == |types| && 1 <= start <= |types|
    ensures err == 0 || err == -H.ENOMEM
    ensures err == 0 ==> Invariant(types, types, m, filed, start)
    ensures err == 0 ==> FwdProgress(types, m0, m, start, |types|)
  {
    m := m0;
    var names;
    ghost var view;
    names, err, view := FillUniqueNames(types, m0);
    if err != 0 {
      return;
    }
    var id := start;
    while id < |types|
      invariant start <= id <= |types|
      invariant Invariant(types, types, m, filed, start) && FwdProgress(types, m0, m, start, id)
      modifies {}
    {
      if types[id].info.kind == Fwd && m[id] == id {
        var to := ResolveFwd(types, m, names, id, view, m0);
        FwdLink(types, m0, m, filed, start, id, to);
        m := m[id := to];
      } else {
        FwdSkip(types, m0, m, start, id);
      }
      id := id + 1;
    }
    return 0, m;
  }
}
