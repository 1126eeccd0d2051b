/** Simulated networks: linking two nodes (engine/SimPeer.go:66-82, 166-206) and the "tree" topology
    (engine/NetStart.go:496-511). Nodes are numbered; each has a name and a list of peers. */
module SimNetwork {

  datatype SimPeer = SimPeer(fromName: string, toName: string)

  /** The source's comparison; its first case asks for the other peer's origin twice. */
  predicate Equals(f: SimPeer, f2: SimPeer) {
    || (f.fromName == f2.fromName && f.toName == f2.fromName)
    || (f.fromName == f2.toName && f.toName == f2.fromName)
  }

  /** So a peer equals its reverse, but itself only if it leads back to where it comes from. */
  lemma EqualsItselfIff(f: SimPeer)
    ensures Equals(f, SimPeer(f.toName, f.fromName))
    ensures Equals(f, f) <==> f.fromName == f.toName
  {
  }

  type Peers = seq<seq<SimPeer>>

  ghost predicate DistinctNames(names: seq<string>) {
    forall i, j :: 0 <= i < j < |names| ==> names[i] != names[j]
  }

  /** Node `i` has a peer that leads to node `j`. */
  ghost predicate Linked(names: seq<string>, peers: Peers, i: int, j: int) {
    0 <= i < |names| == |peers| && 0 <= j < |names| && SimPeer(names[i], names[j]) in peers[i]
  }

  /** The peer leads from node `i` to another node. */
  ghost predicate LeadsFrom(names: seq<string>, i: int, p: SimPeer)
    requires 0 <= i < |names|
  {
    p.fromName == names[i] && exists j :: 0 <= j < |names| && j != i && p.toName == names[j]
  }

  ghost predicate NoRepeats(ps: seq<SimPeer>) {
    forall k, l :: 0 <= k < l < |ps| ==> ps[k] != ps[l]
  }

  ghost predicate GoodPeers(names: seq<string>, peers: Peers, i: int)
    requires 0 <= i < |names| == |peers|
  {
    NoRepeats(peers[i]) && forall k :: 0 <= k < |peers[i]| ==> LeadsFrom(names, i, peers[i][k])
  }

  /** Peer lists without repetitions and links to self, and every link goes both ways. */
  ghost predicate WellLinked(names: seq<string>, peers: Peers) {
    && DistinctNames(names) && |peers| == |names|
    && (forall i :: 0 <= i < |names| ==> GoodPeers(names, peers, i))
    && (forall i, j :: Linked(names, peers, i, j) ==> Linked(names, peers, j, i))
  }

  // ---------------------------------------------------------------- adding a link

  /** The peer lists with a link between two nodes in both of them. */
  function WithLink(names: seq<string>, peers: Peers, i1: int, i2: int): Peers
    requires 0 <= i1 < |names| == |peers| && 0 <= i2 < |names| && i1 != i2
  {
    peers[i1 := peers[i1] + [SimPeer(names[i1], names[i2])]][i2 := peers[i2] + [SimPeer(names[i2], names[i1])]]
  }

  /** The comparison of all pairs of peers finds out whether the link is there. */
  lemma EqualPairMeansLinked(names: seq<string>, peers: Peers, i1: int, i2: int)
    requires WellLinked(names, peers) && 0 <= i1 < |names| && 0 <= i2 < |names| && i1 != i2
    ensures (exists k, l :: 0 <= k < |peers[i1]| && 0 <= l < |peers[i2]| && Equals(peers[i1][k], peers[i2][l]))
       <==> Linked(names, peers, i1, i2)
  {
    assert names[i1] != names[i2];
    assert GoodPeers(names, peers, i1) && GoodPeers(names, peers, i2);
    if k, l :| 0 <= k < |peers[i1]| && 0 <= l < |peers[i2]| && Equals(peers[i1][k], peers[i2][l]) {
      assert LeadsFrom(names, i1, peers[i1][k]) && LeadsFrom(names, i2, peers[i2][l]);
      assert peers[i1][k] == SimPeer(names[i1], names[i2]);
    }
    if Linked(names, peers, i1, i2) {
      assert Linked(names, peers, i2, i1);
      var k :| 0 <= k < |peers[i1]| && peers[i1][k] == SimPeer(names[i1], names[i2]);
      var l :| 0 <= l < |peers[i2]| && peers[i2][l] == SimPeer(names[i2], names[i1]);
      assert Equals(peers[i1][k], peers[i2][l]);
    }
  }

  lemma WithLinkLinks(names: seq<string>, peers: Peers, i1: int, i2: int, a: int, b: int)
    requires DistinctNames(names) && |peers| == |names|
    requires 0 <= i1 < |names| && 0 <= i2 < |names| && i1 != i2
    ensures Linked(names, WithLink(names, peers, i1, i2), a, b) <==>
              Linked(names, peers, a, b) || (a == i1 && b == i2) || (a == i2 && b == i1)
  {
    if 0 <= a < |names| && 0 <= b < |names| {
      assert names[a] == names[i1] ==> a == i1;
      assert names[b] == names[i1] ==> b == i1;
      assert names[a] == names[i2] ==> a == i2;
      assert names[b] == names[i2] ==> b == i2;
    }
  }

  lemma WithLinkGood(names: seq<string>, peers: Peers, i1: int, i2: int, i: int)
    requires WellLinked(names, peers) && 0 <= i1 < |names| && 0 <= i2 < |names| && i1 != i2
    requires !Linked(names, peers, i1, i2) && 0 <= i < |names|
    ensures GoodPeers(names, WithLink(names, peers, i1, i2), i)
  {
    assert GoodPeers(names, peers, i);
    assert !Linked(names, peers, i2, i1);
  }

  lemma WithLinkWellLinked(names: seq<string>, peers: Peers, i1: int, i2: int)
    requires WellLinked(names, peers) && 0 <= i1 < |names| && 0 <= i2 < |names| && i1 != i2
    requires !Linked(names, peers, i1, i2)
    ensures WellLinked(names, WithLink(names, peers, i1, i2))
  {
    var after := WithLink(names, peers, i1, i2);
    forall i | 0 <= i < |names|
      ensures GoodPeers(names, after, i)
    {
      WithLinkGood(names, peers, i1, i2, i);
    }
    forall a, b | Linked(names, after, a, b)
      ensures Linked(names, after, b, a)
    {
      WithLinkLinks(names, peers, i1, i2, a, b);
      WithLinkLinks(names, peers, i1, i2, b, a);
    }
  }

  /** A pair of nodes a link can join. */
  predicate Joinable(n: nat, i1: int, i2: int) {
    0 <= i1 < n && 0 <= i2 < n && i1 != i2
  }

  class Network {
    const names: seq<string>
    var peers: Peers

    ghost predicate Valid()
      reads this
    {
      WellLinked(names, peers)
    }

    constructor (names: seq<string>)
      requires DistinctNames(names)
      ensures Valid() && this.names == names
      ensures forall i, j :: !Linked(names, peers, i, j)
    {
      this.names := names;
      peers := seq(|names|, _ => []);
    }

    /** Links two nodes once; out-of-range nodes and a node with itself are ignored. */
    method AddSimPeer(i1: int, i2: int)
      requires Valid()
      modifies this
      ensures Valid()
      ensures forall a, b :: Linked(names, peers, a, b) <==>
                old(Linked(names, peers, a, b))
                || (Joinable(|names|, i1, i2) && ((a == i1 && b == i2) || (a == i2 && b == i1)))
    {
      if i1 < 0 || i2 < 0 || i1 >= |peers| || i2 >= |peers| || i1 == i2 {
        return;
      }
      var exists_ := HasEqualPair(peers[i1], peers[i2]);
      EqualPairMeansLinked(names, peers, i1, i2);
      if exists_ {
        return;
      }
      WithLinkWellLinked(names, peers, i1, i2);
      forall a, b
        ensures Linked(names, WithLink(names, peers, i1, i2), a, b) <==>
                  Linked(names, peers, a, b) || (a == i1 && b == i2) || (a == i2 && b == i1)
      {
        WithLinkLinks(names, peers, i1, i2, a, b);
      }
      var peer12 := SimPeer(names[i1], names[i2]);
      var peer21 := SimPeer(names[i2], names[i1]);
      peers := peers[i1 := peers[i1] + [peer12]];
      peers := peers[i2 := peers[i2] + [peer21]];
    }

    /** The "tree" topology: rows of 1, 2, 3, ... nodes, each node linked to the two below it. */
    method BuildTree()
      requires Valid()
      modifies this
      ensures Valid()
      ensures forall a, b :: old(Linked(names, peers, a, b)) ==> Linked(names, peers, a, b)
      ensures forall k :: 1 <= k < |names| ==> HasParent(names, peers, k)
    {
      var index := 0;
      var row := 1;
      var i := 0;
      var n := |names|;
      while true
        invariant Valid() && (i > 0 ==> index < n)
        invariant 0 <= i && index == Triangle(i) && row == Triangle(i + 1)
        invariant forall a, b :: old(Linked(names, peers, a, b)) ==> Linked(names, peers, a, b)
        invariant forall k :: 1 <= k < row && k < n ==> HasParent(names, peers, k)
        decreases n - index
      {
        var j := 0;
        while j <= i
          invariant Valid() && 0 <= j <= i + 1 && (i + j > 0 ==> index < n)
          invariant index == Triangle(i) + j && row == Triangle(i + 1) + j
          invariant forall a, b :: old(Linked(names, peers, a, b)) ==> Linked(names, peers, a, b)
          invariant forall k :: 1 <= k < (if j > 0 then row + 1 else row) && k < n ==> HasParent(names, peers, k)
          decreases i + 1 - j
        {
          TriangleGrows(i);
          ghost var before := peers;
          AddSimPeer(index, row);
          AddSimPeer(index, row + 1);
          forall k | 1 <= k < row + 2 && k < n
            ensures HasParent(names, peers, k)
          {
            if k < (if j > 0 then row + 1 else row) {
              KeepsParent(names, before, peers, k);
            } else {
              assert Linked(names, peers, index, k) && index < k;
            }
          }
          row := row + 1;
          index := index + 1;
          if index >= n {
            return;
          }
          j := j + 1;
        }
        row := row + 1;
        i := i + 1;
      }
    }
  }

  method HasEqualPair(ps: seq<SimPeer>, qs: seq<SimPeer>) returns (found: bool)
    ensures found <==> exists k, l :: 0 <= k < |ps| && 0 <= l < |qs| && Equals(ps[k], qs[l])
  {
    for k := 0 to |ps|
      invariant forall a, b :: 0 <= a < k && 0 <= b < |qs| ==> !Equals(ps[a], qs[b])
    {
      for l := 0 to |qs|
        invariant forall b :: 0 <= b < l ==> !Equals(ps[k], qs[b])
      {
        if Equals(ps[k], qs[l]) {
          return true;
        }
      }
    }
    return false;
  }

  // ---------------------------------------------------------------- the tree

  /** The number of nodes in the first `i` rows. */
  function Triangle(i: nat): nat {
    if i == 0 then 0 else Triangle(i - 1) + i
  }

  lemma TriangleGrows(i: nat)
    ensures Triangle(i + 1) == Triangle(i) + i + 1
    ensures Triangle(i + 2) == Triangle(i + 1) + i + 2
  {
  }

  ghost predicate HasParent(names: seq<string>, peers: Peers, k: int) {
    exists p :: 0 <= p < k && Linked(names, peers, p, k)
  }

  lemma KeepsParent(names: seq<string>, before: Peers, after: Peers, k: int)
    requires HasParent(names, before, k)
    requires forall a, b :: Linked(names, before, a, b) ==> Linked(names, after, a, b)
    ensures HasParent(names, after, k)
  {
    var p :| 0 <= p < k && Linked(names, before, p, k);
    assert Linked(names, after, p, k);
  }

  /** Every two consecutive nodes are linked. */
  ghost predicate IsPath(names: seq<string>, peers: Peers, path: seq<int>) {
    path != [] && forall i :: 0 <= i < |path| - 1 ==> Linked(names, peers, path[i], path[i + 1])
  }

  ghost predicate Connected(names: seq<string>, peers: Peers, a: int, b: int) {
    exists path :: IsPath(names, peers, path) && path[0] == a && path[|path| - 1] == b
  }

  /** Every node reaches node 0. */
  lemma {:induction false} ReachesRoot(names: seq<string>, peers: Peers, k: int)
    requires WellLinked(names, peers) && 0 <= k < |names|
    requires forall c :: 1 <= c < |names| ==> HasParent(names, peers, c)
    ensures Connected(names, peers, k, 0)
    decreases k
  {
    if k == 0 {
      assert IsPath(names, peers, [0]);
    } else {
      assert HasParent(names, peers, k);
      var p :| 0 <= p < k && Linked(names, peers, p, k);
      ReachesRoot(names, peers, p);
      var path :| IsPath(names, peers, path) && path[0] == p && path[|path| - 1] == 0;
      var longer := [k] + path;
      assert Linked(names, peers, k, p);
      forall i | 0 <= i < |longer| - 1
        ensures Linked(names, peers, longer[i], longer[i + 1])
      {
        if i > 0 {
          assert Linked(names, peers, path[i - 1], path[(i - 1) + 1]);
        }
      }
      assert IsPath(names, peers, longer);
    }
  }

  lemma ConnectedSymmetric(names: seq<string>, peers: Peers, a: int, b: int)
    requires WellLinked(names, peers) && Connected(names, peers, a, b)
    ensures Connected(names, peers, b, a)
  {
    var path :| IsPath(names, peers, path) && path[0] == a && path[|path| - 1] == b;
    var n := |path|;
    var back := seq(n, i requires 0 <= i < n => path[n - 1 - i]);
    forall i | 0 <= i < n - 1
      ensures Linked(names, peers, back[i], back[i + 1])
    {
      var k := n - 2 - i;
      assert Linked(names, peers, path[k], path[k + 1]);
    }
    assert IsPath(names, peers, back);
  }

  lemma ConnectedTransitive(names: seq<string>, peers: Peers, a: int, b: int, c: int)
    requires Connected(names, peers, a, b) && Connected(names, peers, b, c)
    ensures Connected(names, peers, a, c)
  {
    var p :| IsPath(names, peers, p) && p[0] == a && p[|p| - 1] == b;
    var q :| IsPath(names, peers, q) && q[0] == b && q[|q| - 1] == c;
    var whole := p + q[1..];
    forall i | 0 <= i < |whole| - 1
      ensures Linked(names, peers, whole[i], whole[i + 1])
    {
      if i >= |p| - 1 {
        var k := i - (|p| - 1);
        assert Linked(names, peers, q[k], q[k + 1]);
      }
    }
    assert IsPath(names, peers, whole);
  }

  /** A network in which every node but the first is linked to an earlier one is connected; so is
      every tree the builder makes. */
  lemma TreeIsConnected(names: seq<string>, peers: Peers, a: int, b: int)
    requires WellLinked(names, peers) && 0 <= a < |names| && 0 <= b < |names|
    requires forall c :: 1 <= c < |names| ==> HasParent(names, peers, c)
    ensures Connected(names, peers, a, b)
  {
    ReachesRoot(names, peers, a);
    ReachesRoot(names, peers, b);
    ConnectedSymmetric(names, peers, b, 0);
    ConnectedTransitive(names, peers, a, 0, b);
  }
}
