/** The chained, growing hash map: a multimap from long keys to long values. */
module HashMap {

  const ENOENT: int := 2
  const ENOMEM: int := 12
  const EEXIST: int := 17
  const MIN_CAP_BITS: nat := 2
  const WORD_BITS: nat := 64
  const WORD: nat := 0x1_0000_0000_0000_0000
  const GOLDEN: nat := 11400714819323198485

  datatype Entry = Entry(key: int, value: int)

  datatype Strategy = Add | Set | Update | Append

  // ------------------------------------------------------------------
  // Bucket index
  // ------------------------------------------------------------------

  function Pow2(n: nat): (p: nat)
    ensures p >= 1
  {
    if n == 0 then 1 else 2 * Pow2(n - 1)
  }

  /** x >> n */
  function ShiftRight(x: nat, n: nat): nat {
    if n == 0 then x else ShiftRight(x / 2, n - 1)
  }

  lemma {:induction false} ShiftRightBelow(x: nat, n: nat, bits: nat)
    requires x < Pow2(n + bits)
    ensures ShiftRight(x, n) < Pow2(bits)
    decreases n
  {
    if n > 0 {
      assert Pow2(n + bits) == 2 * Pow2((n - 1) + bits);
      ShiftRightBelow(x / 2, n - 1, bits);
    }
  }

  lemma {:induction false} Pow2Sum(a: nat, b: nat)
    ensures Pow2(a + b) == Pow2(a) * Pow2(b)
    decreases a
  {
    if a > 0 {
      Pow2Sum(a - 1, b);
      assert Pow2(a + b) == 2 * Pow2((a - 1) + b);
      assert 2 * (Pow2(a - 1) * Pow2(b)) == (2 * Pow2(a - 1)) * Pow2(b);
    }
  }

  lemma Pow2Word()
    ensures Pow2(WORD_BITS) == WORD
  {
    assert Pow2(8) == 256;
    Pow2Sum(8, 8);
    assert Pow2(16) == 0x1_0000;
    Pow2Sum(16, 16);
    assert Pow2(32) == 0x1_0000_0000;
    Pow2Sum(32, 32);
  }

  lemma {:induction false} Pow2Grows(a: nat, b: nat)
    requires a <= b
    ensures Pow2(a) <= Pow2(b)
    decreases b
  {
    if a < b {
      Pow2Grows(a, b - 1);
    }
  }

  function Scramble(h: nat): (x: nat)
    ensures x < WORD
  {
    (h * GOLDEN) % WORD
  }

  /** The top `bits` bits of the scrambled 64-bit hash: a bucket number. */
  function HashBits(h: nat, bits: nat): (b: nat)
    requires bits <= WORD_BITS
    ensures b < Pow2(bits)
  {
    if bits == 0 then 0
    else
      Pow2Word();
      ShiftRightBelow(Scramble(h), WORD_BITS - bits, bits);
      ShiftRight(Scramble(h), WORD_BITS - bits)
  }

  // ------------------------------------------------------------------
  // Contents of a bucket array
  // ------------------------------------------------------------------

  ghost function Entries(bs: seq<seq<Entry>>): multiset<Entry> {
    if bs == [] then multiset{} else Entries(bs[..|bs| - 1]) + multiset(bs[|bs| - 1])
  }

  lemma {:induction false} EntriesOfEmptyChains(bs: seq<seq<Entry>>)
    requires forall b :: 0 <= b < |bs| ==> bs[b] == []
    ensures Entries(bs) == multiset{}
    decreases |bs|
  {
    if bs != [] {
      EntriesOfEmptyChains(bs[..|bs| - 1]);
    }
  }

  function EmptyBuckets(n: nat): (bs: seq<seq<Entry>>)
    ensures |bs| == n && Entries(bs) == multiset{}
    ensures forall b :: 0 <= b < n ==> bs[b] == []
  {
    var bs := seq(n, _ => []);
    EntriesOfEmptyChains(bs);
    bs
  }

  lemma EntriesPrefix(bs: seq<seq<Entry>>, n: nat)
    requires n < |bs|
    ensures Entries(bs[..n + 1]) == Entries(bs[..n]) + multiset(bs[n])
  {
    assert bs[..n + 1][..n] == bs[..n];
  }

  lemma EntriesLast(bs: seq<seq<Entry>>)
    requires bs != []
    ensures Entries(bs) == Entries(bs[..|bs| - 1]) + multiset(bs[|bs| - 1])
  {
  }

  lemma SwapFirst(all: multiset<Entry>, old': multiset<Entry>, new': multiset<Entry>, last: multiset<Entry>)
    requires old' <= all
    ensures old' <= all + last && (all - old' + new') + last == (all + last) - old' + new'
  {
  }

  lemma SwapLast(all: multiset<Entry>, old': multiset<Entry>, new': multiset<Entry>)
    ensures old' <= all + old' && all + new' == (all + old') - old' + new'
  {
  }

  lemma {:induction false} EntriesUpdate(bs: seq<seq<Entry>>, b: nat, chain: seq<Entry>)
    requires b < |bs|
    ensures multiset(bs[b]) <= Entries(bs)
    ensures Entries(bs[b := chain]) == Entries(bs) - multiset(bs[b]) + multiset(chain)
    decreases |bs|
  {
    var n := |bs| - 1;
    var bs' := bs[b := chain];
    EntriesLast(bs);
    EntriesLast(bs');
    hide Entries;
    if b < n {
      EntriesUpdate(bs[..n], b, chain);
      assert bs'[..n] == bs[..n][b := chain];
      SwapFirst(Entries(bs[..n]), multiset(bs[b]), multiset(chain), multiset(bs[n]));
    } else {
      assert bs'[..n] == bs[..n];
      SwapLast(Entries(bs[..n]), multiset(bs[n]), multiset(chain));
    }
  }

  /** An entry found in no other bucket is counted by its own. */
  lemma {:induction false} EntriesInOneBucket(bs: seq<seq<Entry>>, b: nat, e: Entry)
    requires forall x :: 0 <= x < |bs| && x != b ==> e !in bs[x]
    ensures Entries(bs)[e] == if b < |bs| then multiset(bs[b])[e] else 0
    decreases |bs|
  {
    if bs != [] {
      var n := |bs| - 1;
      EntriesInOneBucket(bs[..n], b, e);
      assert n != b ==> e !in bs[n];
    }
  }

  function SlotOf(hash: int -> nat, denotes: int -> int, key: int, bits: nat): (b: nat)
    requires bits <= WORD_BITS
    ensures b < Pow2(bits)
  {
    HashBits(hash(denotes(key)), bits)
  }

  /** Every entry sits in the bucket of its hash. */
  ghost predicate Placed(hash: int -> nat, denotes: int -> int, bs: seq<seq<Entry>>, bits: nat)
    requires bits <= WORD_BITS
  {
    forall b, i :: 0 <= b < |bs| && 0 <= i < |bs[b]| ==> SlotOf(hash, denotes, bs[b][i].key, bits) == b
  }

  lemma EntriesCount(hash: int -> nat, denotes: int -> int, bs: seq<seq<Entry>>, bits: nat, e: Entry)
    requires bits <= WORD_BITS && Placed(hash, denotes, bs, bits) && |bs| == Pow2(bits)
    ensures Entries(bs)[e] == multiset(bs[SlotOf(hash, denotes, e.key, bits)])[e]
  {
    EntriesInOneBucket(bs, SlotOf(hash, denotes, e.key, bits), e);
  }

  /** Linking an entry at the head of its chain. */
  lemma PushEntry(hash: int -> nat, denotes: int -> int, bs: seq<seq<Entry>>, bits: nat, e: Entry)
    requires bits <= WORD_BITS && Placed(hash, denotes, bs, bits) && |bs| == Pow2(bits)
    ensures var h := SlotOf(hash, denotes, e.key, bits);
            var bs' := bs[h := [e] + bs[h]];
            Placed(hash, denotes, bs', bits) && Entries(bs') == Entries(bs) + multiset{e}
  {
    var h := SlotOf(hash, denotes, e.key, bits);
    EntriesUpdate(bs, h, [e] + bs[h]);
    assert multiset([e] + bs[h]) == multiset{e} + multiset(bs[h]);
    var bs': seq<seq<Entry>> := bs[h := [e] + bs[h]];
    forall b: int, i: int | 0 <= b < |bs'| && 0 <= i < |bs'[b]|
      ensures SlotOf(hash, denotes, bs'[b][i].key, bits) == b
    {
      if b == h && i > 0 {
        assert bs'[b][i] == bs[h][i - 1];
      }
    }
  }

  /** Overwriting an entry by one with an equal key. */
  lemma SetEntry(hash: int -> nat, denotes: int -> int, bs: seq<seq<Entry>>, bits: nat, h: nat, at: nat, e: Entry)
    requires bits <= WORD_BITS && Placed(hash, denotes, bs, bits)
    requires h < |bs| && at < |bs[h]| && denotes(bs[h][at].key) == denotes(e.key)
    ensures var bs' := bs[h := bs[h][at := e]];
            && Placed(hash, denotes, bs', bits)
            && bs[h][at] in Entries(bs)
            && Entries(bs') == Entries(bs) - multiset{bs[h][at]} + multiset{e}
  {
    hide Entries;
    SetContents(bs, h, at, e);
    var chain: seq<Entry> := bs[h][at := e];
    var bs': seq<seq<Entry>> := bs[h := chain];
    assert SlotOf(hash, denotes, bs[h][at].key, bits) == h;
    forall b: int, i: int | 0 <= b < |bs'| && 0 <= i < |bs'[b]|
      ensures SlotOf(hash, denotes, bs'[b][i].key, bits) == b
    {
      if !(b == h && i == at) {
        assert bs'[b][i] == bs[b][i];
      }
    }
  }

  lemma SetContents(bs: seq<seq<Entry>>, h: nat, at: nat, e: Entry)
    requires h < |bs| && at < |bs[h]|
    ensures bs[h][at] in Entries(bs)
    ensures Entries(bs[h := bs[h][at := e]]) == Entries(bs) - multiset{bs[h][at]} + multiset{e}
  {
    EntriesUpdate(bs, h, bs[h][at := e]);
    hide Entries;
    assert bs[h][at] in multiset(bs[h]);
    assert multiset(bs[h][at := e]) == multiset(bs[h]) - multiset{bs[h][at]} + multiset{e};
  }

  /** Unlinking an entry from its chain. */
  lemma DropEntry(hash: int -> nat, denotes: int -> int, bs: seq<seq<Entry>>, bits: nat, h: nat, at: nat)
    requires bits <= WORD_BITS && Placed(hash, denotes, bs, bits)
    requires h < |bs| && at < |bs[h]|
    ensures var bs' := bs[h := bs[h][..at] + bs[h][at + 1..]];
            && Placed(hash, denotes, bs', bits)
            && bs[h][at] in Entries(bs)
            && Entries(bs') == Entries(bs) - multiset{bs[h][at]}
  {
    var rest := bs[h][..at] + bs[h][at + 1..];
    DropContents(bs, h, at);
    forall i | 0 <= i < |rest|
      ensures SlotOf(hash, denotes, rest[i].key, bits) == h
    {
      assert rest[i] == if i < at then bs[h][i] else bs[h][i + 1];
    }
  }

  lemma DropContents(bs: seq<seq<Entry>>, h: nat, at: nat)
    requires h < |bs| && at < |bs[h]|
    ensures var bs' := bs[h := bs[h][..at] + bs[h][at + 1..]];
            bs[h][at] in Entries(bs) && Entries(bs') == Entries(bs) - multiset{bs[h][at]}
  {
    EntriesUpdate(bs, h, bs[h][..at] + bs[h][at + 1..]);
    DropFromChain(bs[h], at);
  }

  lemma DropFromChain(chain: seq<Entry>, at: nat)
    requires at < |chain|
    ensures multiset(chain) == multiset(chain[..at] + chain[at + 1..]) + multiset{chain[at]}
  {
    assert chain == chain[..at] + [chain[at]] + chain[at + 1..];
  }

  // ------------------------------------------------------------------
  // The abstract multimap
  // ------------------------------------------------------------------

  /** `denotes` says what a key stands for (the number itself, or the string a
      pointer key points to); two keys are equal when they denote the same. */
  ghost predicate HasKey(denotes: int -> int, c: multiset<Entry>, key: int) {
    exists e :: e in c && denotes(e.key) == denotes(key)
  }

  /** What one insertion may do to the contents.  `found` is the entry reported
      through old_key and old_value. */
  ghost predicate InsertOk(denotes: int -> int, c: multiset<Entry>, s: Strategy, key: int, value: int,
                           err: int, found: Entry, c': multiset<Entry>)
  {
    if err == -ENOMEM then s != Update && c' == c && (s == Append || !HasKey(denotes, c, key))
    else if s == Append || !HasKey(denotes, c, key) then
      if s == Update then err == -ENOENT && c' == c
      else err == 0 && c' == c + multiset{Entry(key, value)}
    else
      && found in c && denotes(found.key) == denotes(key)
      && (if s == Add then err == -EEXIST && c' == c
          else err == 0 && c' == c - multiset{found} + multiset{Entry(key, value)})
  }

  ghost predicate DeleteOk(denotes: int -> int, c: multiset<Entry>, key: int,
                           ok: bool, found: Entry, c': multiset<Entry>)
  {
    if HasKey(denotes, c, key) then
      ok && found in c && denotes(found.key) == denotes(key) && c' == c - multiset{found}
    else !ok && c' == c
  }

  class Table {
    const hash: int -> nat
    const denotes: int -> int
    var buckets: seq<seq<Entry>>
    var cap: nat
    var capBits: nat
    var sz: nat

    ghost predicate Valid()
      reads this
    {
      && capBits < WORD_BITS
      && |buckets| == cap
      && (if cap == 0 then capBits == 0 else MIN_CAP_BITS <= capBits && cap == Pow2(capBits))
      && Placed(hash, denotes, buckets, capBits)
      && sz == |Entries(buckets)|
      && sz * 4 / 3 <= cap
    }

    ghost function Contents(): multiset<Entry>
      reads this
    {
      Entries(buckets)
    }

    constructor (hash: int -> nat, denotes: int -> int)
      ensures Valid() && Contents() == multiset{}
      ensures this.hash == hash && this.denotes == denotes
    {
      this.hash, this.denotes := hash, denotes;
      buckets, cap, capBits, sz := [], 0, 0, 0;
    }

    predicate Equal(k1: int, k2: int) { denotes(k1) == denotes(k2) }

    /** Position of the first entry of chain h whose key is equal to `key`. */
    method FindEntry(key: int, h: nat) returns (found: bool, at: nat)
      requires Valid()
      requires h == SlotOf(hash, denotes, key, capBits)
      ensures found <==> HasKey(denotes, Contents(), key)
      ensures found ==> h < cap && at < |buckets[h]| && Equal(buckets[h][at].key, key)
      ensures found ==> buckets[h][at] in Contents()
      ensures found ==> forall i :: 0 <= i < at ==> !Equal(buckets[h][i].key, key)
    {
      if cap == 0 {
        return false, 0;
      }
      at := 0;
      while at < |buckets[h]|
        invariant 0 <= at <= |buckets[h]|
        invariant forall i :: 0 <= i < at ==> !Equal(buckets[h][i].key, key)
      {
        if Equal(buckets[h][at].key, key) {
          DropEntry(hash, denotes, buckets, capBits, h, at);
          return true, at;
        }
        at := at + 1;
      }
      if HasKey(denotes, Contents(), key) {
        var e :| e in Contents() && denotes(e.key) == denotes(key);
        EntriesCount(hash, denotes, buckets, capBits, e);
        assert false;
      }
      found := false;
    }

    predicate NeedsToGrow()
      reads this
    {
      cap == 0 || (sz + 1) * 4 / 3 > cap
    }

    /** Double the bucket array. */
    method Grow(allocOk: bool) returns (err: int)
      requires Valid() && NeedsToGrow()
      modifies this
      ensures Valid()
      ensures Contents() == old(Contents()) && sz == old(sz)
      ensures err == 0 || err == -ENOMEM
      ensures err == 0 ==> !NeedsToGrow()
      ensures err != 0 ==> unchanged(this) && (!allocOk || capBits >= WORD_BITS - 1)
    {
      var newCapBits := if capBits + 1 < MIN_CAP_BITS then MIN_CAP_BITS else capBits + 1;
      if !allocOk || newCapBits >= WORD_BITS {
        return -ENOMEM;
      }
      var newCap := Pow2(newCapBits);
      assert newCap >= 4 && (cap > 0 ==> newCap == 2 * cap && cap >= 4) by {
        assert Pow2(2) == 4;
        Pow2Grows(2, newCapBits);
        if cap > 0 {
          Pow2Grows(2, capBits);
        }
      }
      var newBuckets := Relink(newCapBits);
      buckets := newBuckets;
      cap := newCap;
      capBits := newCapBits;
      return 0;
    }

    /** Every entry is moved to the head of its new chain, which reverses the
        order of entries that stay together. */
    method Relink(newCapBits: nat) returns (nb: seq<seq<Entry>>)
      requires Valid() && newCapBits < WORD_BITS
      ensures |nb| == Pow2(newCapBits)
      ensures Placed(hash, denotes, nb, newCapBits)
      ensures Entries(nb) == Contents()
    {
      nb := EmptyBuckets(Pow2(newCapBits));
      var bkt := 0;
      while bkt < cap
        invariant 0 <= bkt <= cap
        invariant |nb| == Pow2(newCapBits)
        invariant Placed(hash, denotes, nb, newCapBits)
        invariant Entries(nb) == Entries(buckets[..bkt])
      {
        EntriesPrefix(buckets, bkt);
        nb := MoveChain(buckets[bkt], newCapBits, nb);
        bkt := bkt + 1;
      }
      assert buckets[..bkt] == buckets;
    }

    method MoveChain(chain: seq<Entry>, newCapBits: nat, into: seq<seq<Entry>>) returns (nb: seq<seq<Entry>>)
      requires newCapBits < WORD_BITS
      requires |into| == Pow2(newCapBits) && Placed(hash, denotes, into, newCapBits)
      ensures |nb| == Pow2(newCapBits)
      ensures Placed(hash, denotes, nb, newCapBits)
      ensures Entries(nb) == Entries(into) + multiset(chain)
    {
      hide Entries;
      nb := into;
      var i := 0;
      while i < |chain|
        invariant 0 <= i <= |chain|
        invariant |nb| == Pow2(newCapBits)
        invariant Placed(hash, denotes, nb, newCapBits)
        invariant Entries(nb) == Entries(into) + multiset(chain[..i])
      {
        var h := SlotOf(hash, denotes, chain[i].key, newCapBits);
        PushEntry(hash, denotes, nb, newCapBits, chain[i]);
        assert chain[..i + 1] == chain[..i] + [chain[i]];
        nb := nb[h := [chain[i]] + nb[h]];
        i := i + 1;
      }
      assert chain[..i] == chain;
    }

    method Insert(key: int, value: int, strategy: Strategy, allocOk: bool)
      returns (err: int, oldEntry: Entry)
      requires Valid()
      modifies this
      ensures Valid()
      ensures InsertOk(denotes, old(Contents()), strategy, key, value, err, oldEntry, Contents())
      ensures allocOk && old(capBits) < WORD_BITS - 1 ==> err != -ENOMEM
    {
      oldEntry := Entry(0, 0);
      var h := SlotOf(hash, denotes, key, capBits);
      var found, at := FindEntry(key, h);
      if strategy != Append && found {
        oldEntry := buckets[h][at];
        if strategy == Set || strategy == Update {
          Overwrite(h, at, Entry(key, value));
          return 0, oldEntry;
        } else {
          return -EEXIST, oldEntry;
        }
      }
      if strategy == Update {
        return -ENOENT, oldEntry;
      }
      err := Link(key, value, allocOk);
    }

    method Overwrite(h: nat, at: nat, e: Entry)
      requires Valid() && h < cap && at < |buckets[h]|
      requires Equal(buckets[h][at].key, e.key)
      modifies this`buckets
      ensures Valid()
      ensures Contents() == old(Contents()) - multiset{old(buckets[h][at])} + multiset{e}
    {
      SetEntry(hash, denotes, buckets, capBits, h, at, e);
      buckets := buckets[h := buckets[h][at := e]];
    }

    /** The inserting half of Insert: grow if need be, then link a new entry. */
    method Link(key: int, value: int, allocOk: bool) returns (err: int)
      requires Valid()
      modifies this
      ensures Valid()
      ensures err == 0 || err == -ENOMEM
      ensures err == 0 ==> Contents() == old(Contents()) + multiset{Entry(key, value)}
      ensures err != 0 ==> Contents() == old(Contents()) && (!allocOk || old(capBits) >= WORD_BITS - 1)
    {
      if NeedsToGrow() {
        err := Grow(allocOk);
        if err != 0 {
          return;
        }
      }
      if !allocOk {
        return -ENOMEM;
      }
      var h := SlotOf(hash, denotes, key, capBits);
      PushEntry(hash, denotes, buckets, capBits, Entry(key, value));
      buckets := buckets[h := [Entry(key, value)] + buckets[h]];
      sz := sz + 1;
      return 0;
    }

    method Find(key: int) returns (found: bool, value: int)
      requires Valid()
      ensures found <==> HasKey(denotes, Contents(), key)
      ensures found ==> exists k :: Entry(k, value) in Contents() && denotes(k) == denotes(key)
    {
      var h := SlotOf(hash, denotes, key, capBits);
      var ok, at := FindEntry(key, h);
      if !ok {
        return false, 0;
      }
      assert buckets[h][at] == Entry(buckets[h][at].key, buckets[h][at].value);
      return true, buckets[h][at].value;
    }

    static lemma OneLess(c: multiset<Entry>, e: Entry, sz: nat, cap: nat)
      requires e in c && sz == |c| && sz * 4 / 3 <= cap
      ensures sz > 0 && |c - multiset{e}| == sz - 1 && (sz - 1) * 4 / 3 <= cap
    {
    }

    method Delete(key: int) returns (ok: bool, oldEntry: Entry)
      requires Valid()
      modifies this
      ensures Valid()
      ensures DeleteOk(denotes, old(Contents()), key, ok, oldEntry, Contents())
    {
      hide Entries;
      var h := SlotOf(hash, denotes, key, capBits);
      var found, at := FindEntry(key, h);
      if !found {
        return false, Entry(0, 0);
      }
      oldEntry := buckets[h][at];
      DropEntry(hash, denotes, buckets, capBits, h, at);
      OneLess(Entries(buckets), oldEntry, sz, cap);
      buckets := buckets[h := buckets[h][..at] + buckets[h][at + 1..]];
      sz := sz - 1;
      return true, oldEntry;
    }

    /** The walk of hashmap__for_each_key_entry: exactly the entries with an equal
        key, each as often as the map holds it. */
    method KeyEntries(key: int) returns (es: seq<Entry>)
      requires Valid()
      ensures forall e :: multiset(es)[e] == if Equal(e.key, key) then Contents()[e] else 0
    {
      es := [];
      var h := SlotOf(hash, denotes, key, capBits);
      if cap == 0 {
        return;
      }
      var chain := buckets[h];
      var i := 0;
      while i < |chain|
        invariant 0 <= i <= |chain|
        invariant forall e :: multiset(es)[e] == if Equal(e.key, key) then multiset(chain[..i])[e] else 0
      {
        assert chain[..i + 1] == chain[..i] + [chain[i]];
        if Equal(chain[i].key, key) {
          es := es + [chain[i]];
        }
        i := i + 1;
      }
      assert chain[..i] == chain;
      forall e
        ensures multiset(es)[e] == if Equal(e.key, key) then Contents()[e] else 0
      {
        EntriesCount(hash, denotes, buckets, capBits, e);
      }
    }
  }
}
