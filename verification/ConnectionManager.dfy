/** The connection manager (p2p/connectionManager.go): connections by peer hash, an index of the
    hashes by address, and a count per direction, all kept in step. */
module ConnectionManager {

  /** The fixed part of a connection: an identity of its own, its peer and its direction. */
  datatype Conn = Conn(id: nat, hash: string, address: string, outgoing: bool)

  datatype Manager = Manager(connections: map<string, Conn>, byAddress: map<string, set<string>>,
                             outgoingCount: int, incomingCount: int)

  // ---------------------------------------------------------------- agreement of the four parts

  function HashesAt(connections: map<string, Conn>, address: string): set<string> {
    set h | h in connections && connections[h].address == address
  }

  function HashesGoing(connections: map<string, Conn>, outgoing: bool): set<string> {
    set h | h in connections && connections[h].outgoing == outgoing
  }

  ghost predicate KeyedByHash(connections: map<string, Conn>) {
    forall h :: h in connections ==> connections[h].hash == h
  }

  /** The index is exactly the grouping by address, without empty groups. */
  ghost predicate GroupedByAddress(m: Manager) {
    && (forall a :: a in m.byAddress ==> m.byAddress[a] == HashesAt(m.connections, a) && m.byAddress[a] != {})
    && (forall h :: h in m.connections ==> m.connections[h].address in m.byAddress)
  }

  ghost predicate Counted(m: Manager) {
    && m.outgoingCount == |HashesGoing(m.connections, true)|
    && m.incomingCount == |HashesGoing(m.connections, false)|
  }

  ghost predicate Agrees(m: Manager) {
    KeyedByHash(m.connections) && GroupedByAddress(m) && Counted(m)
  }

  lemma IndexedIffConnected(m: Manager, address: string)
    requires GroupedByAddress(m)
    ensures address in m.byAddress <==> HashesAt(m.connections, address) != {}
  {
    if address !in m.byAddress {
      forall h | h in m.connections ensures m.connections[h].address != address {
        assert m.connections[h].address in m.byAddress;
      }
    }
  }

  // ---------------------------------------------------------------- adding and removing

  function Indexed(byAddress: map<string, set<string>>, c: Conn): map<string, set<string>> {
    byAddress[c.address := (if c.address in byAddress then byAddress[c.address] else {}) + {c.hash}]
  }

  function Unindexed(byAddress: map<string, set<string>>, c: Conn): map<string, set<string>> {
    if c.address !in byAddress then byAddress
    else if byAddress[c.address] - {c.hash} == {} then byAddress - {c.address}
    else byAddress[c.address := byAddress[c.address] - {c.hash}]
  }

  function Bump(m: Manager, outgoing: bool, delta: int): Manager {
    if outgoing then m.(outgoingCount := m.outgoingCount + delta) else m.(incomingCount := m.incomingCount + delta)
  }

  function Added(m: Manager, c: Conn): Manager
    requires c.hash !in m.connections
  {
    Bump(m, c.outgoing, 1).(connections := m.connections[c.hash := c], byAddress := Indexed(m.byAddress, c))
  }

  /** The entry under the connection's hash goes, whatever connection it is; the direction and the
      address are taken from the argument. */
  function Removed(m: Manager, c: Conn): Manager {
    if c.hash !in m.connections then m
    else Bump(m, c.outgoing, -1).(connections := m.connections - {c.hash}, byAddress := Unindexed(m.byAddress, c))
  }

  lemma AddedGoing(connections: map<string, Conn>, c: Conn, outgoing: bool)
    requires c.hash !in connections
    ensures |HashesGoing(connections[c.hash := c], outgoing)|
         == |HashesGoing(connections, outgoing)| + if c.outgoing == outgoing then 1 else 0
  {
    var before, after := HashesGoing(connections, outgoing), HashesGoing(connections[c.hash := c], outgoing);
    if c.outgoing == outgoing {
      assert after == before + {c.hash};
    } else {
      assert after == before;
    }
  }

  lemma RemovedGoing(connections: map<string, Conn>, hash: string, outgoing: bool)
    requires hash in connections
    ensures |HashesGoing(connections - {hash}, outgoing)|
         == |HashesGoing(connections, outgoing)| - if connections[hash].outgoing == outgoing then 1 else 0
  {
    var before, after := HashesGoing(connections, outgoing), HashesGoing(connections - {hash}, outgoing);
    if connections[hash].outgoing == outgoing {
      assert after == before - {hash};
    } else {
      assert after == before;
    }
  }

  lemma AddedAgrees(m: Manager, c: Conn)
    requires Agrees(m) && c.hash !in m.connections
    ensures Agrees(Added(m, c))
  {
    AddedGoing(m.connections, c, true);
    AddedGoing(m.connections, c, false);
    AddedGrouped(m, c);
  }

  lemma AddedGrouped(m: Manager, c: Conn)
    requires GroupedByAddress(m) && c.hash !in m.connections
    ensures GroupedByAddress(Added(m, c))
  {
    var n := Added(m, c);
    forall a | a in n.byAddress
      ensures n.byAddress[a] == HashesAt(n.connections, a)
    {
      if a == c.address {
        if a !in m.byAddress {
          forall h | h in m.connections ensures m.connections[h].address != a {
            assert m.connections[h].address in m.byAddress;
          }
        }
        assert HashesAt(n.connections, a) == HashesAt(m.connections, a) + {c.hash};
      } else {
        assert HashesAt(n.connections, a) == HashesAt(m.connections, a);
      }
    }
  }

  /** Removing keeps the parts in step if and only if the connection given agrees in direction and
      address with the one kept under its hash. */
  lemma RemovedAgreesIff(m: Manager, c: Conn)
    requires Agrees(m)
    ensures Agrees(Removed(m, c)) <==>
              (c.hash in m.connections ==>
                 m.connections[c.hash].outgoing == c.outgoing && m.connections[c.hash].address == c.address)
  {
    if c.hash in m.connections {
      var kept := m.connections[c.hash];
      RemovedGoing(m.connections, c.hash, true);
      RemovedGoing(m.connections, c.hash, false);
      if kept.outgoing == c.outgoing && kept.address == c.address {
        RemovedGrouped(m, c);
      } else if kept.outgoing == c.outgoing {
        StrayAddress(m, c);
      }
    }
  }

  lemma RemovedGrouped(m: Manager, c: Conn)
    requires GroupedByAddress(m) && c.hash in m.connections && m.connections[c.hash].address == c.address
    ensures GroupedByAddress(Removed(m, c))
  {
    var n := Removed(m, c);
    assert c.address in m.byAddress;
    forall a | a in n.byAddress
      ensures n.byAddress[a] == HashesAt(n.connections, a)
    {
      if a == c.address {
        assert HashesAt(n.connections, a) == HashesAt(m.connections, a) - {c.hash};
      } else {
        assert HashesAt(n.connections, a) == HashesAt(m.connections, a);
      }
    }
    forall h | h in n.connections
      ensures n.connections[h].address in n.byAddress
    {
      assert h in HashesAt(m.connections, m.connections[h].address);
    }
  }

  /** With a wrong address the hash stays in the index although its connection is gone. */
  lemma StrayAddress(m: Manager, c: Conn)
    requires GroupedByAddress(m) && c.hash in m.connections && m.connections[c.hash].address != c.address
    ensures !GroupedByAddress(Removed(m, c))
  {
    var n, a := Removed(m, c), m.connections[c.hash].address;
    assert a in m.byAddress && c.hash in HashesAt(m.connections, a);
    assert a in n.byAddress && n.byAddress[a] == m.byAddress[a];
    assert c.hash !in HashesAt(n.connections, a);
  }

  // ---------------------------------------------------------------- the manager object

  class ConnectionManager {
    var connections: map<string, Conn>
    var connectionsByAddress: map<string, set<string>>
    var outgoingCount: int
    var incomingCount: int

    ghost function View(): Manager
      reads this
    {
      Manager(connections, connectionsByAddress, outgoingCount, incomingCount)
    }

    ghost predicate Valid()
      reads this
    {
      Agrees(View())
    }

    constructor ()
      ensures Valid() && View() == Manager(map[], map[], 0, 0)
    {
      connections, connectionsByAddress := map[], map[];
      outgoingCount, incomingCount := 0, 0;
    }

    /** Whether some connection goes to the address. */
    method ConnectedTo(address: string) returns (present: bool)
      ensures present <==> address in connectionsByAddress
      ensures Valid() ==> (present <==> HashesAt(connections, address) != {})
    {
      if Valid() {
        IndexedIffConnected(View(), address);
      }
      present := address in connectionsByAddress;
    }

    /** A second connection under one hash is a panic in the source. */
    method Add(c: Conn)
      requires Valid() && c.hash !in connections
      modifies this
      ensures Valid() && View() == Added(old(View()), c)
    {
      AddedAgrees(View(), c);
      if c.outgoing {
        outgoingCount := outgoingCount + 1;
      } else {
        incomingCount := incomingCount + 1;
      }
      connections := connections[c.hash := c];
      AddToConnectionsByAddress(c);
    }

    method Remove(c: Conn)
      requires Valid()
      modifies this
      ensures View() == Removed(old(View()), c)
      ensures c.hash in old(connections) && old(connections)[c.hash] == c ==> Valid()
      ensures c.hash !in old(connections) ==> Valid()
    {
      RemovedAgreesIff(View(), c);
      if c.hash !in connections {
        return;
      }
      if c.outgoing {
        outgoingCount := outgoingCount - 1;
      } else {
        incomingCount := incomingCount - 1;
      }
      connections := connections - {c.hash};
      RemoveFromConnectionsByAddress(c);
    }

    method AddToConnectionsByAddress(c: Conn)
      modifies this`connectionsByAddress
      ensures connectionsByAddress == Indexed(old(connectionsByAddress), c)
    {
      if c.address !in connectionsByAddress {
        connectionsByAddress := connectionsByAddress[c.address := {}];
      }
      connectionsByAddress := connectionsByAddress[c.address := connectionsByAddress[c.address] + {c.hash}];
    }

    method RemoveFromConnectionsByAddress(c: Conn)
      modifies this`connectionsByAddress
      ensures connectionsByAddress == Unindexed(old(connectionsByAddress), c)
    {
      if c.address !in connectionsByAddress {
        return;
      }
      connectionsByAddress := connectionsByAddress[c.address := connectionsByAddress[c.address] - {c.hash}];
      if connectionsByAddress[c.address] == {} {
        connectionsByAddress := connectionsByAddress - {c.address};
        assert connectionsByAddress == old(connectionsByAddress) - {c.address};
      }
    }
  }
}
