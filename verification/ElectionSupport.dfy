/** Ordering servers and choosing the volunteer (elections/support.go).

    A chain ID is 32 bytes; it is read as the number those bytes spell, so that comparing the
    bytes is comparing the numbers. */
module ElectionSupport {
  import opened Words

  type Hash = nat

  datatype Server = Server(chainID: Hash, name: string)

  // ---------------------------------------------------------------- sorting

  ghost predicate Sorted(s: seq<Server>) {
    forall i, j :: 0 <= i <= j < |s| ==> s[i].chainID <= s[j].chainID
  }

  ghost predicate StrictlySorted(s: seq<Server>) {
    forall i, j :: 0 <= i < j < |s| ==> s[i].chainID < s[j].chainID
  }

  /** Positions from `from` on hold the largest servers, in order. */
  ghost predicate SettledFrom(s: seq<Server>, from: int)
    requires 0 <= from <= |s|
  {
    forall i, j :: 0 <= i <= j < |s| && from <= j ==> s[i].chainID <= s[j].chainID
  }

  /** Among the first `j + 1` positions the last one holds the largest server. */
  ghost predicate LargestAt(s: seq<Server>, j: int)
    requires 0 <= j < |s|
  {
    forall i :: 0 <= i <= j ==> s[i].chainID <= s[j].chainID
  }

  /** A list after comparing, and if need be swapping, positions `j` and `j + 1`. */
  ghost function Swapped(s: seq<Server>, j: nat): (r: seq<Server>)
    requires j + 1 < |s|
    ensures |r| == |s| && multiset(r) == multiset(s)
  {
    if s[j].chainID > s[j + 1].chainID then s[j := s[j + 1]][j + 1 := s[j]] else s
  }

  /** One comparison of the inner loop. */
  method CompareAndSwap(serv: array<Server>, j: nat) returns (swapped: bool)
    requires j + 1 < serv.Length
    modifies serv
    ensures swapped <==> old(serv[j].chainID > serv[j + 1].chainID)
    ensures serv[..] == Swapped(old(serv[..]), j)
  {
    ghost var was := serv[..];
    swapped := false;
    if serv[j].chainID > serv[j + 1].chainID {
      var s := serv[j];
      serv[j] := serv[j + 1];
      serv[j + 1] := s;
      swapped := true;
    }
    assert serv[..] == Swapped(was, j);
  }

  /** The inner loop at position `j`, on a list that began as `was`. */
  ghost predicate Passing(was: seq<Server>, now: seq<Server>, n: int, j: int, allgood: bool) {
    && 0 <= j < n <= |now| == |was|
    && multiset(now) == multiset(was)
    && SettledFrom(now, n)
    && LargestAt(now, j)
    && (allgood ==> now == was && Sorted(now[..j + 1]))
    && (!allgood ==> !Sorted(was))
  }

  lemma PassingStep(was: seq<Server>, now: seq<Server>, n: int, j: int, allgood: bool)
    requires Passing(was, now, n, j, allgood) && j + 1 < n
    ensures Passing(was, Swapped(now, j), n, j + 1, allgood && now[j].chainID <= now[j + 1].chainID)
  {
    var next := Swapped(now, j);
    if now[j].chainID <= now[j + 1].chainID {
      assert now[..j + 2] == now[..j + 1] + [now[j + 1]];
    }
    forall i, k | 0 <= i <= k < |next| && n <= k
      ensures next[i].chainID <= next[k].chainID
    {
      assert next[k] == now[k];
      assert next[i] == now[i] || next[i] == now[j] || next[i] == now[j + 1];
    }
  }

  lemma PassingEnd(was: seq<Server>, now: seq<Server>, n: int, allgood: bool)
    requires Passing(was, now, n, n - 1, allgood)
    ensures SettledFrom(now, n - 1)
    ensures allgood ==> Sorted(now)
  {
    if allgood {
      forall i, k | 0 <= i <= k < |now|
        ensures now[i].chainID <= now[k].chainID
      {
        if k < n {
          assert now[..n][i].chainID <= now[..n][k].chainID;
        }
      }
    }
  }

  /** One pass of the inner loop moves the largest of the first `n` servers to the end, keeps what
      is already settled, and reports whether it met no inversion. */
  method Pass(serv: array<Server>, n: nat) returns (allgood: bool)
    requires 1 <= n <= serv.Length && SettledFrom(serv[..], n)
    modifies serv
    ensures multiset(serv[..]) == old(multiset(serv[..]))
    ensures SettledFrom(serv[..], n - 1)
    ensures allgood ==> serv[..] == old(serv[..]) && Sorted(serv[..])
    ensures !allgood ==> !Sorted(old(serv[..]))
  {
    ghost var was := serv[..];
    allgood := true;
    for j := 0 to n - 1
      invariant Passing(was, serv[..], n, j, allgood)
    {
      PassingStep(was, serv[..], n, j, allgood);
      var swapped := CompareAndSwap(serv, j);
      if swapped {
        allgood := false;
      }
    }
    PassingEnd(was, serv[..], n, allgood);
  }

  /** The early-exit bubble sort: a sorted permutation, and whether anything moved. */
  method Sort(serv: array<Server>) returns (changed: bool)
    modifies serv
    ensures Sorted(serv[..])
    ensures multiset(serv[..]) == old(multiset(serv[..]))
    ensures changed <==> !Sorted(old(serv[..]))
    ensures !changed ==> serv[..] == old(serv[..])
  {
    ghost var was := serv[..];
    changed := false;
    var i := 0;
    while i < serv.Length - 1
      invariant 0 <= i <= serv.Length
      invariant multiset(serv[..]) == multiset(was)
      invariant SettledFrom(serv[..], serv.Length - i)
      invariant !changed ==> serv[..] == was
      invariant changed ==> !Sorted(was)
      invariant i > 0 ==> changed
    {
      var allgood := Pass(serv, serv.Length - i);
      if allgood {
        return;
      }
      changed := true;
      i := i + 1;
    }
  }

  /** Inserting into a sorted list: the reference for "append, then sort". */
  function Insert(s: seq<Server>, x: Server): (r: seq<Server>)
    ensures |r| == |s| + 1
  {
    if s == [] then [x]
    else if x.chainID < s[0].chainID then [x] + s
    else [s[0]] + Insert(s[1..], x)
  }

  predicate HasId(s: seq<Server>, id: Hash) {
    exists i :: 0 <= i < |s| && s[i].chainID == id
  }

  lemma {:induction false} InsertElements(s: seq<Server>, x: Server)
    ensures multiset(Insert(s, x)) == multiset(s) + multiset{x}
    decreases |s|
  {
    if s != [] {
      assert s == [s[0]] + s[1..];
      InsertElements(s[1..], x);
    }
  }

  lemma {:induction false} InsertStaysAbove(s: seq<Server>, x: Server, low: Hash)
    requires low < x.chainID && forall i :: 0 <= i < |s| ==> low < s[i].chainID
    ensures forall i :: 0 <= i < |Insert(s, x)| ==> low < Insert(s, x)[i].chainID
    decreases |s|
  {
    if s != [] {
      InsertStaysAbove(s[1..], x, low);
    }
  }

  lemma {:induction false} InsertStrictlySorted(s: seq<Server>, x: Server)
    requires StrictlySorted(s) && !HasId(s, x.chainID)
    ensures StrictlySorted(Insert(s, x))
    decreases |s|
  {
    if s != [] {
      if s[0].chainID <= x.chainID {
        assert s[0].chainID != x.chainID;
        var t := s[1..];
        assert !HasId(t, x.chainID) by {
          forall i | 0 <= i < |t| ensures t[i].chainID != x.chainID {
            assert s[i + 1].chainID != x.chainID;
          }
        }
        InsertStrictlySorted(t, x);
        InsertStaysAbove(t, x, s[0].chainID);
      }
    }
  }

  /** The first elements of a sorted and a strictly sorted list of the same elements agree. */
  lemma SameFirst(s: seq<Server>, t: seq<Server>)
    requires Sorted(s) && StrictlySorted(t) && multiset(s) == multiset(t) && s != [] && t != []
    ensures s[0] == t[0]
  {
    assert s[0] in multiset(t) && t[0] in multiset(s);
    var k :| 0 <= k < |t| && t[k] == s[0];
    var l :| 0 <= l < |s| && s[l] == t[0];
    assert s[0].chainID <= s[l].chainID;
    forall i | 0 < i < |t|
      ensures t[0].chainID < t[i].chainID
    {
    }
  }

  lemma RestElements(s: seq<Server>)
    requires s != []
    ensures s == [s[0]] + s[1..]
    ensures multiset(s[1..]) == multiset(s) - multiset{s[0]}
  {
    var rest := s[1..];
    assert s == [s[0]] + rest;
    assert multiset(s) == multiset([s[0]]) + multiset(rest);
  }

  /** A sorted list with the elements of a strictly sorted one is that list. */
  lemma {:induction false} SortedUnique(s: seq<Server>, t: seq<Server>)
    requires Sorted(s) && StrictlySorted(t) && multiset(s) == multiset(t)
    ensures s == t
    decreases |s|
  {
    SameSize(s, t);
    if s != [] {
      SameFirst(s, t);
      RestElements(s);
      RestElements(t);
      SortedUnique(s[1..], t[1..]);
    }
  }

  lemma SameSize(s: seq<Server>, t: seq<Server>)
    requires multiset(s) == multiset(t)
    ensures |s| == |t|
  {
    assert |multiset(s)| == |s| && |multiset(t)| == |t|;
  }

  // ---------------------------------------------------------------- priorities

  /** The bytes hashed in front of a chain ID. */
  function Prefix(dbheight: int, minute: int, serverIdx: int): seq<Byte> {
    [ToByte(dbheight / 0x100_0000), ToByte(dbheight / 0x1_0000), ToByte(dbheight / 0x100), ToByte(dbheight),
     ToByte(minute), ToByte(serverIdx / 0x100), ToByte(serverIdx)]
  }

  /** The prefix spells the height in four bytes, the minute in one and the index in two; so elections that
      differ in height, minute or index (within these widths) hash different bytes. */
  lemma PrefixTells(dbheight: int, minute: int, serverIdx: int, dbheight': int, minute': int, serverIdx': int)
    ensures var p := Prefix(dbheight, minute, serverIdx);
            && |p| == 7 && Spell4(p[0], p[1], p[2], p[3]) == dbheight % 0x1_0000_0000
            && p[4] == minute % 0x100 && Spell2(p[5], p[6]) == serverIdx % 0x1_0000
    ensures Prefix(dbheight, minute, serverIdx) == Prefix(dbheight', minute', serverIdx') <==>
              && dbheight % 0x1_0000_0000 == dbheight' % 0x1_0000_0000
              && minute % 0x100 == minute' % 0x100 && serverIdx % 0x1_0000 == serverIdx' % 0x1_0000
  {
    FourBytes(dbheight);
    FourBytes(dbheight');
    TwoBytes(serverIdx);
    TwoBytes(serverIdx');
    var p, q := Prefix(dbheight, minute, serverIdx), Prefix(dbheight', minute', serverIdx');
    Spell4Unique(p[0], p[1], p[2], p[3], q[0], q[1], q[2], q[3]);
    Spell2Unique(p[5], p[6], q[5], q[6]);
  }

  /** The hash of a prefix followed by a chain ID. */
  type Sha = (seq<Byte>, Hash) -> Hash

  ghost predicate CollisionFreeOn(sha: Sha, prefix: seq<Byte>) {
    forall a, b :: sha(prefix, a) == sha(prefix, b) ==> a == b
  }

  method Order(sha: Sha, servers: seq<Server>, dbheight: int, minute: int, serverIdx: int)
    returns (priority: seq<Hash>)
    ensures |priority| == |servers|
    ensures forall i :: 0 <= i < |servers| ==>
              priority[i] == sha(Prefix(dbheight, minute, serverIdx), servers[i].chainID)
  {
    priority := [];
    for k := 0 to |servers|
      invariant |priority| == k
      invariant forall i :: 0 <= i < k ==>
                  priority[i] == sha(Prefix(dbheight, minute, serverIdx), servers[i].chainID)
    {
      var data: seq<Byte> := [];
      data := data + [ToByte(dbheight / 0x100_0000), ToByte(dbheight / 0x1_0000), ToByte(dbheight / 0x100), ToByte(dbheight)];
      data := data + [ToByte(minute)];
      data := data + [ToByte(serverIdx / 0x100), ToByte(serverIdx)];
      assert data == Prefix(dbheight, minute, serverIdx);
      priority := priority + [sha(data, servers[k].chainID)];
    }
  }

  /** The first index of the largest priority; 0 for an empty list. */
  method MaxIdx(priority: seq<Hash>) returns (idx: nat)
    ensures priority == [] ==> idx == 0
    ensures priority != [] ==> idx < |priority|
    ensures forall i :: 0 <= i < |priority| ==> priority[i] <= priority[idx]
    ensures forall i :: 0 <= i < idx ==> priority[i] < priority[idx]
  {
    idx := 0;
    for i := 0 to |priority|
      invariant idx == 0 || idx < i
      invariant forall k :: 0 <= k < i ==> priority[k] <= priority[idx]
      invariant forall k :: 0 <= k < idx ==> priority[k] < priority[idx]
    {
      if priority[i] > priority[idx] {
        idx := i;
      }
    }
  }

  /** `idx` is the position of the highest priority. */
  ghost predicate Chosen(sha: Sha, prefix: seq<Byte>, servers: seq<Server>, idx: nat) {
    idx < |servers| &&
    forall i :: 0 <= i < |servers| ==> sha(prefix, servers[i].chainID) <= sha(prefix, servers[idx].chainID)
  }

  /** Nodes that hold the same audit servers, in whatever order, choose the same server. */
  lemma SameChoice(sha: Sha, prefix: seq<Byte>, s: seq<Server>, t: seq<Server>, i: nat, j: nat)
    requires CollisionFreeOn(sha, prefix)
    requires multiset(s) == multiset(t)
    requires Chosen(sha, prefix, s, i) && Chosen(sha, prefix, t, j)
    ensures s[i].chainID == t[j].chainID
  {
    assert s[i] in multiset(t) && t[j] in multiset(s);
    var k :| 0 <= k < |t| && t[k] == s[i];
    var l :| 0 <= l < |s| && s[l] == t[j];
    assert sha(prefix, t[k].chainID) <= sha(prefix, t[j].chainID);
    assert sha(prefix, s[l].chainID) <= sha(prefix, s[i].chainID);
  }
}
