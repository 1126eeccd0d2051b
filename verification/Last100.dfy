/** The short history of messages a peer has seen (p2p/peer.go:20-42): a ring of a hundred hashes and
    a set of the hashes in it. A hash is 32 bytes, read as a number. */
module Last100 {
  import opened Sets

  type Hash = nat
  const ZERO: Hash := 0
  const SIZE := 100

  datatype History = History(msgs: set<Hash>, order: seq<Hash>, n: nat)

  ghost predicate Shaped(h: History) {
    |h.order| == SIZE && h.n < SIZE
  }

  function Empty(): History {
    History({}, seq(SIZE, _ => ZERO), 0)
  }

  /** The oldest hash leaves the set and its place in the ring goes to the new one. */
  function Added(h: History, hash: Hash): (r: History)
    requires Shaped(h)
    ensures Shaped(r)
  {
    History(h.msgs - {h.order[h.n]} + {hash}, h.order[h.n := hash], (h.n + 1) % SIZE)
  }

  class Last100 {
    var msgs: set<Hash>
    var msgOrder: seq<Hash>
    var n: nat
    ghost var added: seq<Hash>   // every hash ever added, oldest first

    ghost predicate Valid()
      reads this
    {
      History(msgs, msgOrder, n) == After(added)
    }

    constructor ()
      ensures Valid() && added == []
    {
      msgs, msgOrder, n := {}, seq(SIZE, _ => ZERO), 0;
      added := [];
    }

    method Add(hash: Hash)
      requires Valid()
      modifies this
      ensures Valid() && added == old(added) + [hash]
    {
      var previous := msgOrder[n];
      msgs := msgs - {previous};
      msgOrder := msgOrder[n := hash];
      msgs := msgs + {hash};
      n := (n + 1) % SIZE;
      added := added + [hash];
      assert added[..|added| - 1] == old(added);
    }

    /** Whether a hash is known: after whatever additions, if it was added and no older addition of it
        has been overwritten since it was last added; while only new hashes are added, if it is among
        the last hundred. */
    method Get(hash: Hash) returns (seen: bool)
      requires Valid()
      ensures seen <==> Remembered(added, hash)
      ensures OnlyNew(added) ==> (seen <==> AmongLast(added, hash))
    {
      RemembersExactly(added, hash);
      if OnlyNew(added) {
        RemembersExactlyLast(added, hash);
      }
      seen := hash in msgs;
    }
  }

  // ---------------------------------------------------------------- whole runs

  function After(hashes: seq<Hash>): (r: History)
    ensures Shaped(r)
  {
    if hashes == [] then Empty() else Added(After(hashes[..|hashes| - 1]), hashes[|hashes| - 1])
  }

  /** The ring place `d` steps behind place `n`. */
  function Back(n: int, d: int): int {
    if d <= n then n - d else n - d + SIZE
  }

  /** Going back from the write position the ring has the hashes added last, newest first; places not
      written yet are zero. */
  ghost predicate RingOf(hashes: seq<Hash>, h: History) {
    && Shaped(h)
    && (|hashes| < SIZE ==> h.n == |hashes| && forall i :: |hashes| <= i < SIZE ==> h.order[i] == ZERO)
    && forall d :: 1 <= d <= SIZE && d <= |hashes| ==> h.order[Back(h.n, d)] == hashes[|hashes| - d]
  }

  lemma RingStep(hashes: seq<Hash>, h: History, x: Hash)
    requires RingOf(hashes, h)
    ensures RingOf(hashes + [x], Added(h, x))
  {
    var after, longer := Added(h, x), hashes + [x];
    forall d | 1 <= d <= SIZE && d <= |longer|
      ensures after.order[Back(after.n, d)] == longer[|longer| - d]
    {
      if d == 1 {
        assert Back(after.n, 1) == h.n;
      } else {
        assert Back(after.n, d) == Back(h.n, d - 1) != h.n;
        assert longer[|longer| - d] == hashes[|hashes| - (d - 1)];
      }
    }
  }

  lemma {:induction false} AfterIsRing(hashes: seq<Hash>)
    ensures RingOf(hashes, After(hashes))
    decreases |hashes|
  {
    if hashes != [] {
      var before, x := hashes[..|hashes| - 1], hashes[|hashes| - 1];
      AfterIsRing(before);
      RingStep(before, After(before), x);
      assert before + [x] == hashes;
    }
  }

  /** For any run at all, the set is part of the ring, so it never has more than a hundred hashes. */
  lemma {:induction false} SetIsPartOfRing(hashes: seq<Hash>)
    ensures var h := After(hashes);
            (forall x :: x in h.msgs ==> x in h.order) && |h.msgs| <= SIZE
    decreases |hashes|
  {
    if hashes != [] {
      var before := After(hashes[..|hashes| - 1]);
      var hash := hashes[|hashes| - 1];
      SetIsPartOfRing(hashes[..|hashes| - 1]);
      var after := After(hashes);
      forall x | x in after.msgs
        ensures x in after.order
      {
        if x == hash {
          assert after.order[before.n] == x;
        } else {
          var i :| 0 <= i < SIZE && before.order[i] == x;
          assert after.order[i] == x;
        }
      }
    }
    var h := After(hashes);
    PartOfSequence(h.msgs, h.order);
  }

  lemma {:induction false} PartOfSequence(s: set<Hash>, q: seq<Hash>)
    requires forall x :: x in s ==> x in q
    ensures |s| <= |q|
    decreases |q|
  {
    if q == [] {
      assert s == {};
    } else {
      var last := q[|q| - 1];
      var rest := s - {last};
      forall x | x in rest ensures x in q[..|q| - 1] {
        var i :| 0 <= i < |q| && q[i] == x;
        assert q[..|q| - 1][i] == x;
      }
      PartOfSequence(rest, q[..|q| - 1]);
      assert s <= rest + {last};
      SubsetSize(s, rest + {last});
    }
  }

  /** Hash `x` is among the last `SIZE` added. */
  ghost predicate AmongLast(hashes: seq<Hash>, x: Hash) {
    exists i :: 0 <= i < |hashes| && |hashes| - SIZE <= i && hashes[i] == x
  }

  /** The discipline of broadcasting: only hashes that are not zero and not remembered are added. */
  ghost predicate OnlyNew(hashes: seq<Hash>) {
    forall i :: 0 <= i < |hashes| ==> IsNew(hashes, i)
  }

  ghost predicate IsNew(hashes: seq<Hash>, i: nat)
    requires i < |hashes|
  {
    hashes[i] != ZERO && hashes[i] !in After(hashes[..i]).msgs
  }

  /** The hash the next addition drops: the one added a hundred additions ago, or a zero. */
  function Dropped(hashes: seq<Hash>): Hash {
    if |hashes| < SIZE then ZERO else hashes[|hashes| - SIZE]
  }

  lemma NextDropped(hashes: seq<Hash>)
    ensures After(hashes).order[After(hashes).n] == Dropped(hashes)
  {
    AfterIsRing(hashes);
    var n := After(hashes).n;
    assert Back(n, SIZE) == n;
  }

  lemma OnlyNewPrefix(hashes: seq<Hash>, n: nat)
    requires OnlyNew(hashes) && n <= |hashes|
    ensures OnlyNew(hashes[..n])
  {
    forall i | 0 <= i < n
      ensures IsNew(hashes[..n], i)
    {
      assert IsNew(hashes, i);
      assert hashes[..n][..i] == hashes[..i];
    }
  }

  /** While only new hashes are added, exactly the last hundred are remembered. */
  lemma {:induction false} RemembersExactlyLast(hashes: seq<Hash>, x: Hash)
    requires OnlyNew(hashes)
    ensures x in After(hashes).msgs <==> AmongLast(hashes, x)
    decreases |hashes|, 1
  {
    if hashes != [] {
      var before, y := hashes[..|hashes| - 1], hashes[|hashes| - 1];
      OnlyNewPrefix(hashes, |hashes| - 1);
      RemembersExactlyLast(before, x);
      NextDropped(before);
      assert x in After(hashes).msgs <==> x == y || (x in After(before).msgs && x != Dropped(before));
      if |hashes| > SIZE && x == Dropped(before) {
        DroppedIsGone(hashes, x);
      }
      forall i | 0 <= i < |hashes| ensures hashes[i] != ZERO {
        assert IsNew(hashes, i);
      }
      WindowMoves(hashes, x);
    }
  }

  /** A hash that reaches the end of the ring does not occur again in it. */
  lemma {:induction false} DroppedIsGone(hashes: seq<Hash>, x: Hash)
    requires OnlyNew(hashes) && |hashes| > SIZE && x == hashes[|hashes| - 1 - SIZE]
    ensures forall j :: |hashes| - SIZE <= j < |hashes| - 1 ==> hashes[j] != x
    decreases |hashes|, 0
  {
    var i := |hashes| - 1 - SIZE;
    forall j | |hashes| - SIZE <= j < |hashes| - 1
      ensures hashes[j] != x
    {
      var upTo := hashes[..j];
      OnlyNewPrefix(hashes, j);
      RemembersExactlyLast(upTo, x);
      assert upTo[i] == x;
      assert AmongLast(upTo, x);
      assert IsNew(hashes, j);
    }
  }

  /** The window of the last hundred loses the hash dropped and gains the one added. */
  lemma WindowMoves(hashes: seq<Hash>, x: Hash)
    requires hashes != [] && (forall i :: 0 <= i < |hashes| ==> hashes[i] != ZERO)
    requires |hashes| > SIZE && x == hashes[|hashes| - 1 - SIZE] ==>
               forall j :: |hashes| - SIZE <= j < |hashes| - 1 ==> hashes[j] != x
    ensures var before := hashes[..|hashes| - 1];
            AmongLast(hashes, x) <==> x == hashes[|hashes| - 1] || (AmongLast(before, x) && x != Dropped(before))
  {
    var before := hashes[..|hashes| - 1];
    AmongLastNext(hashes, x);
    if AmongLast(before, x) && x != Dropped(before) {
      var i :| 0 <= i < |before| && |before| - SIZE <= i && before[i] == x;
      assert |hashes| - SIZE <= i;
    }
    if i :| 0 <= i < |before| && |hashes| - SIZE <= i && before[i] == x {
      assert hashes[i] == x && x != ZERO;
      assert AmongLast(before, x);
    }
  }

  lemma AmongLastNext(hashes: seq<Hash>, x: Hash)
    requires hashes != []
    ensures var before := hashes[..|hashes| - 1];
            AmongLast(hashes, x) <==>
              || x == hashes[|hashes| - 1]
              || (exists i :: 0 <= i < |before| && |hashes| - SIZE <= i && before[i] == x)
  {
    var before := hashes[..|hashes| - 1];
    if x == hashes[|hashes| - 1] {
      assert AmongLast(hashes, x);
    }
    if i :| 0 <= i < |before| && |hashes| - SIZE <= i && before[i] == x {
      assert hashes[i] == x;
    }
    if AmongLast(hashes, x) {
      var i :| 0 <= i < |hashes| && |hashes| - SIZE <= i && hashes[i] == x;
      if i < |before| {
        assert before[i] == x;
      }
    }
  }

  // ---------------------------------------------------------------- without the discipline

  /** The hash at a place of the run; the ring starts out as if a hundred zeros had been added. */
  function At(hashes: seq<Hash>, i: int): Hash
    requires i < |hashes|
  {
    if i < 0 then ZERO else hashes[i]
  }

  ghost predicate LastAt(hashes: seq<Hash>, x: Hash, j: int) {
    0 <= j < |hashes| && hashes[j] == x && forall k :: j < k < |hashes| ==> hashes[k] != x
  }

  /** No place overwritten since the addition at `j` held `x`. */
  ghost predicate NotDroppedSince(hashes: seq<Hash>, x: Hash, j: int) {
    forall i :: j - SIZE < i < |hashes| - SIZE ==> At(hashes, i) != x
  }

  ghost predicate Remembered(hashes: seq<Hash>, x: Hash) {
    exists j :: LastAt(hashes, x, j) && NotDroppedSince(hashes, x, j)
  }

  /** The exact condition, for every run: a hash is remembered if and only if it was added and, since it
      was last added, none of its older additions (nor an initial zero) has been overwritten. */
  lemma {:induction false} RemembersExactly(hashes: seq<Hash>, x: Hash)
    ensures x in After(hashes).msgs <==> Remembered(hashes, x)
    decreases |hashes|
  {
    if hashes != [] {
      var before, y := hashes[..|hashes| - 1], hashes[|hashes| - 1];
      RemembersExactly(before, x);
      NextDropped(before);
      if x == y {
        assert LastAt(hashes, x, |hashes| - 1) && NotDroppedSince(hashes, x, |hashes| - 1);
      } else {
        RememberedNext(hashes, x);
      }
    }
  }

  /** One more addition of another hash forgets `x` exactly if it overwrites an addition of `x`. */
  lemma RememberedNext(hashes: seq<Hash>, x: Hash)
    requires hashes != [] && x != hashes[|hashes| - 1]
    ensures var before := hashes[..|hashes| - 1];
            Remembered(hashes, x) <==> Remembered(before, x) && x != Dropped(before)
  {
    var before := hashes[..|hashes| - 1];
    assert Dropped(before) == At(before, |before| - SIZE) == At(hashes, |hashes| - 1 - SIZE);
    if Remembered(hashes, x) {
      var j :| LastAt(hashes, x, j) && NotDroppedSince(hashes, x, j);
      forall i | j - SIZE < i < |before| - SIZE ensures At(before, i) != x {
        assert At(hashes, i) != x;
      }
      assert LastAt(before, x, j) && NotDroppedSince(before, x, j);
    }
    if Remembered(before, x) && x != Dropped(before) {
      var j :| LastAt(before, x, j) && NotDroppedSince(before, x, j);
      forall i | j - SIZE < i < |hashes| - SIZE ensures At(hashes, i) != x {
        if i < |before| - SIZE {
          assert At(before, i) != x;
        }
      }
      assert LastAt(hashes, x, j) && NotDroppedSince(hashes, x, j);
    }
  }

  /** A run after which a hash is among the last hundred added and yet forgotten: it is added twice, and
      the ring then comes round to its first place. */
  lemma RepeatedIsForgotten()
    ensures var hashes := [5, 5] + seq(99, _ => 7);
            AmongLast(hashes, 5) && 5 !in After(hashes).msgs && !OnlyNew(hashes)
  {
    var hashes: seq<Hash> := [5, 5] + seq(99, _ => 7);
    assert hashes[1] == 5;
    assert AmongLast(hashes, 5);
    RemembersExactly(hashes, 5);
    assert At(hashes, 0) == 5;
    forall j | LastAt(hashes, 5, j)
      ensures !NotDroppedSince(hashes, 5, j)
    {
      assert j == 1;
    }
    if OnlyNew(hashes) {
      RemembersExactlyLast(hashes, 5);
    }
  }
}
