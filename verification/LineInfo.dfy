/** The index of line records of compiled functions: records are split into one range per
    function, and the record of an address is looked up in a range. */
module LineInfo {

  const EINVAL: int := 22
  const ENOENT: int := 2
  const U64: nat := 0x1_0000_0000_0000_0000

  /** Range f + 1 begins where range f ends. */
  predicate Adjacent(idx: seq<nat>, nr: seq<nat>, f: nat) {
    f + 1 < |idx| == |nr| && idx[f + 1] == idx[f] + nr[f]
  }

  /** Ranges of the functions: where each begins in the records, and how many it has. */
  predicate Partition(idx: seq<nat>, nr: seq<nat>, total: nat) {
    && |idx| == |nr| > 0 && idx[0] == 0
    && (forall f :: 0 <= f < |nr| ==> nr[f] > 0)
    && (forall f :: 0 <= f < |idx| - 1 ==> Adjacent(idx, nr, f))
    && idx[|idx| - 1] + nr[|nr| - 1] == total
  }

  predicate Increasing(addrs: seq<nat>, from: nat, to: nat) {
    to <= |addrs| && forall i, j :: from <= i < j < to ==> addrs[i] < addrs[j]
  }

  /** The last record of a range is inside its function; the sum wraps around at 64 bits. */
  predicate Inside(last: nat, start: nat, len: nat) { (last - start + 1) % U64 <= len }

  /** What is known of function f once the next one was found. */
  predicate Dissected(addrs: seq<nat>, funcs: seq<nat>, lens: seq<nat>, f: nat, from: nat, n: nat) {
    && f < |funcs| && f < |lens| && n > 0 && from + n <= |addrs|
    && addrs[from] == funcs[f] && Increasing(addrs, from, from + n)
    && Inside(addrs[from + n - 1], funcs[f], lens[f])
  }

  /** No record of range f but its first has the address of the next function. */
  predicate NextFirst(addrs: seq<nat>, funcs: seq<nat>, idx: seq<nat>, f: nat) {
    f + 1 < |idx| == |funcs| && idx[f + 1] < |addrs| && forall i :: idx[f] < i < idx[f + 1] ==> addrs[i] != funcs[f + 1]
  }

  /** Range f of a split. */
  predicate SplitAt(addrs: seq<nat>, funcs: seq<nat>, lens: seq<nat>, start: seq<nat>, f: nat) {
    && NextFirst(addrs, funcs, start, f) && start[f] < start[f + 1]
    && Dissected(addrs, funcs, lens, f, start[f], start[f + 1] - start[f])
  }

  /** Records can be split: every function begins with the record of its address, the first
      behind the one before. */
  predicate Split(addrs: seq<nat>, funcs: seq<nat>, lens: seq<nat>, start: seq<nat>) {
    && |start| == |funcs| > 0 && start[0] == 0
    && (forall f :: 0 <= f < |start| ==> start[f] < |addrs| && addrs[start[f]] == funcs[f])
    && (forall f :: 0 <= f < |start| - 1 ==> SplitAt(addrs, funcs, lens, start, f))
  }

  /** While searching for function f from record prev on, nothing contradicts a split. */
  predicate Follows(addrs: seq<nat>, funcs: seq<nat>, lens: seq<nat>, start: seq<nat>, f: nat, prev: nat, i: nat) {
    Split(addrs, funcs, lens, start) ==> 0 < f <= |start| && start[f - 1] == prev && (f < |start| ==> i <= start[f])
  }

  lemma FollowsMatch(addrs: seq<nat>, funcs: seq<nat>, lens: seq<nat>, start: seq<nat>, f: nat, prev: nat, i: nat)
    requires Follows(addrs, funcs, lens, start, f, prev, i) && prev < i < |addrs| && 0 < f < |funcs| == |lens|
    ensures addrs[i] == funcs[f] ==> Follows(addrs, funcs, lens, start, f + 1, i, i + 1)
    ensures addrs[i] == funcs[f] && Split(addrs, funcs, lens, start) ==> Inside(addrs[i - 1], funcs[f - 1], lens[f - 1])
    ensures addrs[i] != funcs[f] ==> Follows(addrs, funcs, lens, start, f, prev, i + 1)
    ensures addrs[i] != funcs[f] && Split(addrs, funcs, lens, start) ==> addrs[i - 1] < addrs[i]
  {
    hide Inside;
    if Split(addrs, funcs, lens, start) {
      assert SplitAt(addrs, funcs, lens, start, f - 1);
      assert addrs[start[f]] == funcs[f];
      if f + 1 < |start| {
        assert SplitAt(addrs, funcs, lens, start, f);
      }
    }
  }

  /** The ranges found so far, up to the function that begins at prev. */
  predicate Progress(addrs: seq<nat>, funcs: seq<nat>, lens: seq<nat>, idx: seq<nat>, nr: seq<nat>, f: nat, prev: nat) {
    && 0 < f <= |funcs| == |idx| == |nr| == |lens| && idx[0] == 0 && idx[f - 1] == prev < |addrs|
    && addrs[prev] == funcs[f - 1]
    && (forall g :: 0 <= g < f ==> idx[g] < |addrs| && addrs[idx[g]] == funcs[g])
    && (forall g :: 0 <= g < f - 1 ==> Adjacent(idx, nr, g))
    && (forall g :: 0 <= g < f - 1 ==> Dissected(addrs, funcs, lens, g, idx[g], nr[g]) && NextFirst(addrs, funcs, idx, g))
  }

  lemma ProgressStep(addrs: seq<nat>, funcs: seq<nat>, lens: seq<nat>, idx: seq<nat>, nr: seq<nat>, f: nat, prev: nat, i: nat)
    requires Progress(addrs, funcs, lens, idx, nr, f, prev) && f < |funcs|
    requires prev < i < |addrs| && addrs[i] == funcs[f] && Dissected(addrs, funcs, lens, f - 1, prev, i - prev)
    requires forall k :: prev < k < i ==> addrs[k] != funcs[f]
    ensures Progress(addrs, funcs, lens, idx[f := i], nr[f - 1 := i - prev], f + 1, i)
  {
    hide Dissected;
    var idx', nr' := idx[f := i], nr[f - 1 := i - prev];
    forall g | 0 <= g < f ensures Adjacent(idx', nr', g) {
      if g < f - 1 {
        assert Adjacent(idx, nr, g);
      }
    }
    forall g | 0 <= g < f ensures NextFirst(addrs, funcs, idx', g) {
      if g < f - 1 {
        assert NextFirst(addrs, funcs, idx, g);
      }
    }
  }

  lemma ProgressDone(addrs: seq<nat>, funcs: seq<nat>, lens: seq<nat>, idx: seq<nat>, nr: seq<nat>, prev: nat)
    requires Progress(addrs, funcs, lens, idx, nr, |funcs|, prev)
    ensures var nr' := nr[|funcs| - 1 := |addrs| - prev];
            && Partition(idx, nr', |addrs|)
            && (forall f :: 0 <= f < |funcs| - 1 ==> Dissected(addrs, funcs, lens, f, idx[f], nr'[f]))
            && Split(addrs, funcs, lens, idx)
  {
    hide Increasing;
    hide Inside;
    forall g | 0 <= g < |idx| - 1 ensures SplitAt(addrs, funcs, lens, idx, g) {
      assert Adjacent(idx, nr, g);
      assert Dissected(addrs, funcs, lens, g, idx[g], nr[g]) && NextFirst(addrs, funcs, idx, g);
    }
    var nr' := nr[|funcs| - 1 := |addrs| - prev];
    forall g | 0 <= g < |idx| - 1 ensures Adjacent(idx, nr', g) {
      assert Adjacent(idx, nr, g);
    }
  }

  lemma IncreasingStep(addrs: seq<nat>, from: nat, to: nat)
    requires from < to < |addrs| && Increasing(addrs, from, to) && addrs[to - 1] < addrs[to]
    ensures Increasing(addrs, from, to + 1)
  {
  }

  /** Splits the records: every function begins with the record of its address, and the
      addresses grow in every function but the last, whose records are not looked at. */
  method Dissect(addrs: seq<nat>, funcs: seq<nat>, lens: seq<nat>, idx: array<nat>, nr: array<nat>) returns (err: int)
    requires |addrs| > 0 && |funcs| == |lens| == idx.Length == nr.Length > 0 && idx != nr
    modifies idx, nr
    ensures err == 0 || err == -EINVAL
    ensures err == 0 ==> Partition(idx[..], nr[..], |addrs|)
    ensures err == 0 ==> forall f :: 0 <= f < |funcs| ==> idx[f] < |addrs| && addrs[idx[f]] == funcs[f]
    ensures err == 0 ==> forall f :: 0 <= f < |funcs| - 1 ==> Dissected(addrs, funcs, lens, f, idx[f], nr[f])
    ensures err == 0 <==> exists start :: Split(addrs, funcs, lens, start)
  {
    hide Dissected;
    hide Increasing;
    hide Inside;
    hide Split;
    hide Follows;
    hide Partition;
    hide Adjacent;
    hide NextFirst;
    ghost var start := FindSplit(addrs, funcs, lens);
    FollowsFirst(addrs, funcs, lens, start);
    if funcs[0] != addrs[0] {
      return -EINVAL;
    }
    idx[0] := 0;
    IncreasingOne(addrs, 0);
    var prev: nat, i: nat, f: nat := 0, 1, 1;
    while i < |addrs| && f < |funcs|
      invariant 1 <= i <= |addrs| && prev < i && f <= |funcs|
      invariant Progress(addrs, funcs, lens, idx[..], nr[..], f, prev)
      invariant f < |funcs| ==> Increasing(addrs, prev, i) && forall k :: prev < k < i ==> addrs[k] != funcs[f]
      invariant Follows(addrs, funcs, lens, start, f, prev, i)
    {
      FollowsMatch(addrs, funcs, lens, start, f, prev, i);
      var last := addrs[i - 1];
      if funcs[f] == addrs[i] {
        ghost var idx0, nr0 := idx[..], nr[..];
        idx[f] := i;
        if !Inside(last, funcs[f - 1], lens[f - 1]) {
          return -EINVAL;
        }
        var n: nat := i - prev;
        nr[f - 1] := n;
        IsDissected(addrs, funcs, lens, f - 1, prev, i - prev);
        ProgressStep(addrs, funcs, lens, idx0, nr0, f, prev, i);
        assert idx[..] == idx0[f := i] && nr[..] == nr0[f - 1 := n];
        IncreasingOne(addrs, i);
        prev := i;
        f := f + 1;
      } else if addrs[i] <= last {
        return -EINVAL;
      } else {
        IncreasingStep(addrs, prev, i);
      }
      i := i + 1;
    }
    FollowsEnd(addrs, funcs, lens, start, f, prev, i);
    if f != |funcs| {
      return -EINVAL;
    }
    ghost var nr0 := nr[..];
    var n: nat := |addrs| - prev;
    nr[|funcs| - 1] := n;
    assert nr[..] == nr0[|funcs| - 1 := n];
    ProgressDone(addrs, funcs, lens, idx[..], nr0, prev);
    return 0;
  }

  /** A split, if there is one. */
  ghost function FindSplit(addrs: seq<nat>, funcs: seq<nat>, lens: seq<nat>): (start: seq<nat>)
    ensures Split(addrs, funcs, lens, start) || forall x :: !Split(addrs, funcs, lens, x)
  {
    if x: seq<nat> :| Split(addrs, funcs, lens, x) then x else []
  }

  lemma FollowsFirst(addrs: seq<nat>, funcs: seq<nat>, lens: seq<nat>, start: seq<nat>)
    requires |addrs| > 0 && |funcs| > 0
    ensures Split(addrs, funcs, lens, start) ==> funcs[0] == addrs[0]
    ensures Follows(addrs, funcs, lens, start, 1, 0, 1)
  {
    if Split(addrs, funcs, lens, start) && |start| > 1 {
      assert SplitAt(addrs, funcs, lens, start, 0);
    }
  }

  lemma FollowsEnd(addrs: seq<nat>, funcs: seq<nat>, lens: seq<nat>, start: seq<nat>, f: nat, prev: nat, i: nat)
    requires Follows(addrs, funcs, lens, start, f, prev, i)
    ensures i >= |addrs| && f < |funcs| ==> !Split(addrs, funcs, lens, start)
  {
  }

  lemma IncreasingOne(addrs: seq<nat>, i: nat)
    requires i < |addrs|
    ensures Increasing(addrs, i, i + 1)
  {
  }

  lemma IsDissected(addrs: seq<nat>, funcs: seq<nat>, lens: seq<nat>, f: nat, from: nat, n: nat)
    requires f < |funcs| && f < |lens| && n > 0 && from + n <= |addrs| && addrs[from] == funcs[f]
    requires Increasing(addrs, from, from + n) && Inside(addrs[from + n - 1], funcs[f], lens[f])
    ensures Dissected(addrs, funcs, lens, f, from, n)
  {
  }

  /** The record in a range whose successor is the first one above the address. */
  predicate Covers(addrs: seq<nat>, from: nat, to: nat, addr: nat, r: nat) {
    && from <= r < to <= |addrs|
    && (forall k :: from <= k <= r ==> addrs[k] <= addr)
    && (r + 1 < to ==> addr < addrs[r + 1])
  }

  /** Where addresses grow, that is the greatest record at or below the address. */
  lemma CoversGreatest(addrs: seq<nat>, from: nat, to: nat, addr: nat, r: nat)
    requires Covers(addrs, from, to, addr, r) && Increasing(addrs, from, to)
    ensures addrs[r] <= addr
    ensures forall k :: from <= k < to ==> (addrs[k] <= addr <==> k <= r)
  {
    forall k | r < k < to ensures addr < addrs[k] {
      if k > r + 1 {
        assert addrs[r + 1] < addrs[k];
      }
    }
  }

  /** Looks an address up in a function, after the first skip records; negative if it is not there. */
  method Find(addrs: seq<nat>, idx: array<nat>, nr: array<nat>, addr: nat, f: nat, skip: nat) returns (r: int)
    requires Partition(idx[..], nr[..], |addrs|)
    ensures f >= idx.Length || skip >= nr[f] ==> r == -ENOENT
    ensures f < idx.Length && skip < nr[f] ==>
              var from := idx[f] + skip;
              && from < idx[f] + nr[f] <= |addrs|
              && if addr < addrs[from] then r == -ENOENT else r >= 0 && Covers(addrs, from, idx[f] + nr[f], addr, r)
  {
    if f >= idx.Length {
      return -ENOENT;
    }
    if skip >= nr[f] {
      return -ENOENT;
    }
    RangeFits(idx[..], nr[..], |addrs|, f);
    var from := idx[f] + skip;
    if addr < addrs[from] {
      return -ENOENT;
    }
    var n := nr[f] - skip;
    var i := 0;
    while i < n
      invariant i <= n
      invariant i == 0 || forall k :: from <= k < from + i ==> addrs[k] <= addr
    {
      if addr < addrs[from + i] {
        break;
      }
      i := i + 1;
    }
    return from + i - 1;
  }

  lemma {:induction false} RangeFits(idx: seq<nat>, nr: seq<nat>, total: nat, f: nat)
    requires Partition(idx, nr, total) && f < |idx|
    ensures idx[f] + nr[f] <= total
    decreases |idx| - f
  {
    if f < |idx| - 1 {
      assert Adjacent(idx, nr, f);
      RangeFits(idx, nr, total, f + 1);
    }
  }
}
