/** Whole runs of the hash map against a plain map. */
module HashMapRuns {
  import opened HashMap

  /** One call and what it reported. */
  datatype Op =
    | InsertOp(strategy: Strategy, key: int, value: int, err: int, found: Entry)
    | DeleteOp(key: int, ok: bool, found: Entry)
    | FindOp(key: int, ok: bool, value: int)

  ghost predicate OpOk(denotes: int -> int, c: multiset<Entry>, op: Op, c': multiset<Entry>) {
    match op
    case InsertOp(s, key, value, err, found) => InsertOk(denotes, c, s, key, value, err, found, c')
    case DeleteOp(key, ok, found) => DeleteOk(denotes, c, key, ok, found, c')
    case FindOp(key, ok, value) =>
      && c' == c && ok == HasKey(denotes, c, key)
      && (ok ==> exists k :: Entry(k, value) in c && denotes(k) == denotes(key))
  }

  /** A run: contents before each call and after the last. */
  ghost predicate IsRun(denotes: int -> int, cs: seq<multiset<Entry>>, ops: seq<Op>) {
    && |cs| == |ops| + 1
    && cs[0] == multiset{}
    && forall i :: 0 <= i < |ops| ==> OpOk(denotes, cs[i], ops[i], cs[i + 1])
  }

  /** The contents are those of a plain map from denoted keys to entries. */
  ghost predicate Represents(denotes: int -> int, c: multiset<Entry>, m: map<int, Entry>) {
    forall e :: c[e] == if denotes(e.key) in m && m[denotes(e.key)] == e then 1 else 0
  }

  ghost predicate MapOk(denotes: int -> int, m: map<int, Entry>) {
    forall d :: d in m ==> denotes(m[d].key) == d
  }

  /** The same call on a plain map. */
  ghost function MapStep(denotes: int -> int, m: map<int, Entry>, op: Op): map<int, Entry> {
    match op
    case InsertOp(s, key, value, err, _) =>
      var d := denotes(key);
      if err == -ENOMEM then m
      else if d in m then (if s == Add then m else m[d := Entry(key, value)])
      else if s == Update then m
      else m[d := Entry(key, value)]
    case DeleteOp(key, _, _) => m - {denotes(key)}
    case FindOp(_, _, _) => m
  }

  /** The call reported what a plain map would report. */
  ghost predicate Observed(denotes: int -> int, m: map<int, Entry>, op: Op) {
    match op
    case InsertOp(s, key, _, err, found) =>
      var d := denotes(key);
      || (err == -ENOMEM && d !in m && s != Update)
      || (d in m && found == m[d] && err == (if s == Add then -EEXIST else 0))
      || (d !in m && err == (if s == Update then -ENOENT else 0))
    case DeleteOp(key, ok, found) =>
      ok == (denotes(key) in m) && (ok ==> found == m[denotes(key)])
    case FindOp(key, ok, value) =>
      ok == (denotes(key) in m) && (ok ==> value == m[denotes(key)].value)
  }

  lemma KeyInMap(denotes: int -> int, c: multiset<Entry>, m: map<int, Entry>, key: int)
    requires Represents(denotes, c, m) && MapOk(denotes, m)
    ensures HasKey(denotes, c, key) <==> denotes(key) in m
    ensures forall e :: e in c && denotes(e.key) == denotes(key) ==> denotes(key) in m && e == m[denotes(key)]
  {
    var d := denotes(key);
    if d in m {
      assert c[m[d]] == 1;
    }
    if HasKey(denotes, c, key) {
      var e :| e in c && denotes(e.key) == d;
      assert c[e] > 0;
    }
  }

  lemma SwapEntry(denotes: int -> int, c: multiset<Entry>, m: map<int, Entry>, d: int, e: Entry)
    requires Represents(denotes, c, m) && MapOk(denotes, m)
    requires d in m && denotes(e.key) == d
    ensures Represents(denotes, c - multiset{m[d]} + multiset{e}, m[d := e])
  {
    assert c[m[d]] == 1;
  }

  lemma NewEntry(denotes: int -> int, c: multiset<Entry>, m: map<int, Entry>, e: Entry)
    requires Represents(denotes, c, m) && MapOk(denotes, m)
    requires denotes(e.key) !in m
    ensures Represents(denotes, c + multiset{e}, m[denotes(e.key) := e])
  {
  }

  lemma DropKey(denotes: int -> int, c: multiset<Entry>, m: map<int, Entry>, d: int)
    requires Represents(denotes, c, m) && MapOk(denotes, m)
    requires d in m
    ensures Represents(denotes, c - multiset{m[d]}, m - {d})
  {
    assert c[m[d]] == 1;
  }

  /** As long as append is not used, one call refines the plain map. */
  lemma StepRefines(denotes: int -> int, c: multiset<Entry>, m: map<int, Entry>, op: Op, c': multiset<Entry>)
    requires Represents(denotes, c, m) && MapOk(denotes, m)
    requires OpOk(denotes, c, op, c')
    requires op.InsertOp? ==> op.strategy != Append
    ensures Observed(denotes, m, op)
    ensures MapOk(denotes, MapStep(denotes, m, op))
    ensures Represents(denotes, c', MapStep(denotes, m, op))
  {
    hide Represents;
    var d := denotes(op.key);
    KeyInMap(denotes, c, m, op.key);
    match op
    case InsertOp(s, key, value, err, found) =>
      if err == -ENOMEM || (d in m && s == Add) || (d !in m && s == Update) {
      } else if d in m {
        SwapEntry(denotes, c, m, d, Entry(key, value));
      } else {
        NewEntry(denotes, c, m, Entry(key, value));
      }
    case DeleteOp(key, ok, found) =>
      if d in m {
        DropKey(denotes, c, m, d);
      } else {
        assert m - {d} == m;
      }
    case FindOp(key, ok, value) =>
  }

  ghost function MapRun(denotes: int -> int, ops: seq<Op>): map<int, Entry> {
    if ops == [] then map[] else MapStep(denotes, MapRun(denotes, ops[..|ops| - 1]), ops[|ops| - 1])
  }

  lemma EmptyRefines(denotes: int -> int)
    ensures Represents(denotes, multiset{}, map[]) && MapOk(denotes, map[])
  {
  }

  /** Over every run without append the table is a plain map: after each call it
      holds that map's entries, and each call reported what the map would. */
  lemma {:induction false} RunRefines(denotes: int -> int, cs: seq<multiset<Entry>>, ops: seq<Op>)
    requires IsRun(denotes, cs, ops)
    requires forall i :: 0 <= i < |ops| && ops[i].InsertOp? ==> ops[i].strategy != Append
    ensures MapOk(denotes, MapRun(denotes, ops))
    ensures Represents(denotes, cs[|ops|], MapRun(denotes, ops))
    ensures forall i :: 0 <= i < |ops| ==> Observed(denotes, MapRun(denotes, ops[..i]), ops[i])
    decreases |ops|
  {
    hide OpOk;
    hide Represents;
    hide MapOk;
    hide Observed;
    hide MapStep;
    if ops == [] {
      EmptyRefines(denotes);
    } else {
      var n := |ops| - 1;
      RunRefines(denotes, cs[..n + 1], ops[..n]);
      assert forall i :: 0 <= i < n ==> ops[..n][..i] == ops[..i];
      StepRefines(denotes, cs[n], MapRun(denotes, ops[..n]), ops[n], cs[n + 1]);
    }
  }

  /** A call to be made. */
  datatype Request = Insert(strategy: Strategy, key: int, value: int, allocOk: bool) | Delete(key: int) | Find(key: int)

  predicate Answers(op: Op, q: Request) {
    match q
    case Insert(s, key, value, _) => op.InsertOp? && op.strategy == s && op.key == key && op.value == value
    case Delete(key) => op.DeleteOp? && op.key == key
    case Find(key) => op.FindOp? && op.key == key
  }

  method Perform(t: Table, q: Request) returns (op: Op)
    requires t.Valid()
    modifies t
    ensures t.Valid() && Answers(op, q) && OpOk(t.denotes, old(t.Contents()), op, t.Contents())
  {
    match q {
      case Insert(s, key, value, allocOk) =>
        var err, found := t.Insert(key, value, s, allocOk);
        op := InsertOp(s, key, value, err, found);
      case Delete(key) =>
        var ok, found := t.Delete(key);
        op := DeleteOp(key, ok, found);
      case Find(key) =>
        var ok, value := t.Find(key);
        op := FindOp(key, ok, value);
    }
  }

  predicate Appends(q: Request) { q.Insert? && q.strategy == Append }

  /** Calls made on an empty table, one after the other, are a run that ends in its
      contents.  If none of them appends, the table holds what a plain map would hold, and
      has answered what the map would have answered. */
  method Drive(t: Table, qs: seq<Request>) returns (ops: seq<Op>, ghost cs: seq<multiset<Entry>>)
    requires t.Valid() && t.Contents() == multiset{}
    modifies t
    ensures t.Valid() && |ops| == |qs| && forall i :: 0 <= i < |qs| ==> Answers(ops[i], qs[i])
    ensures IsRun(t.denotes, cs, ops) && cs[|ops|] == t.Contents()
    ensures (forall i :: 0 <= i < |qs| ==> !Appends(qs[i])) ==>
              && Represents(t.denotes, t.Contents(), MapRun(t.denotes, ops))
              && forall i :: 0 <= i < |ops| ==> Observed(t.denotes, MapRun(t.denotes, ops[..i]), ops[i])
  {
    hide OpOk;
    hide Represents;
    hide MapOk;
    hide Observed;
    hide MapStep;
    hide MapRun;
    ops, cs := [], [multiset{}];
    for i := 0 to |qs|
      invariant t.Valid() && |ops| == i && forall j :: 0 <= j < i ==> Answers(ops[j], qs[j])
      invariant IsRun(t.denotes, cs, ops) && cs[i] == t.Contents()
    {
      var op := Perform(t, qs[i]);
      ops, cs := ops + [op], cs + [t.Contents()];
    }
    DroveMap(t.denotes, cs, ops, qs);
  }

  lemma DroveMap(denotes: int -> int, cs: seq<multiset<Entry>>, ops: seq<Op>, qs: seq<Request>)
    requires IsRun(denotes, cs, ops) && |ops| == |qs| && forall i :: 0 <= i < |qs| ==> Answers(ops[i], qs[i])
    ensures (forall i :: 0 <= i < |qs| ==> !Appends(qs[i])) ==>
              && Represents(denotes, cs[|ops|], MapRun(denotes, ops))
              && forall i :: 0 <= i < |ops| ==> Observed(denotes, MapRun(denotes, ops[..i]), ops[i])
  {
    hide IsRun;
    hide Represents;
    hide Observed;
    hide MapRun;
    if forall i :: 0 <= i < |qs| ==> !Appends(qs[i]) {
      RunRefines(denotes, cs, ops);
    }
  }
}
