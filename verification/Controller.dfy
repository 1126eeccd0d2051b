/** The controller's handling of connections and dials (p2p/controller.go). The command channel is
    the sequence of the commands in it; BlockFreeChannelSend drops the oldest when it is nearly full. */
module Controller {
  import opened Channels
  import opened ConnectionManager
  import opened Options
  import Peering = Connection

  datatype Peer = Peer(hash: string, address: string)

  datatype Command =
    | DialPeer(peer: Peer, persistent: bool)
    | AddPeer(peer: Peer)                        // an accepted connection, with the peer made for it
    | Shutdown
    | AdjustPeerQuality(peerHash: string, adjustment: int)
    | Ban(peerHash: string)
    | Disconnect(peerHash: string)

  /** What the controller tells a connection, by the connection's id. */
  datatype Notice = ShutdownNow(id: nat) | AdjustQuality(id: nat, delta: int)

  const BANNED_QUALITY_SCORE := -2147000000

  // ---------------------------------------------------------------- one command

  /** A new connection replaces one with the same hash. */
  function Taken(m: Manager, c: Conn): (r: Manager)
    requires KeyedByHash(m.connections)
    ensures KeyedByHash(r.connections)
  {
    if c.hash in m.connections then Added(Removed(m, m.connections[c.hash]), c) else Added(m, c)
  }

  /** What a command does to the connections; `id` names the connection it makes. */
  function Effect(m: Manager, command: Command, id: nat): (r: Manager)
    requires KeyedByHash(m.connections)
    ensures KeyedByHash(r.connections)
  {
    if command.DialPeer? || command.AddPeer? then Taken(m, ConnFor(command, id)) else m
  }

  /** A connection that is replaced is told to shut down. */
  function ToldReplaced(m: Manager, c: Conn): seq<Notice> {
    if c.hash in m.connections then [ShutdownNow(m.connections[c.hash].id)] else []
  }

  /** What a command has the controller tell: only a connection that is registered under the hash the
      command names, and only one notice. */
  function Told(m: Manager, command: Command, id: nat): seq<Notice> {
    if command.DialPeer? || command.AddPeer? then ToldReplaced(m, ConnFor(command, id))
    else if command.Shutdown? || command.peerHash !in m.connections then []
    else
      var c := m.connections[command.peerHash];
      match command
      case AdjustPeerQuality(_, adjustment) => [AdjustQuality(c.id, adjustment)]
      case Ban(_) => [AdjustQuality(c.id, BANNED_QUALITY_SCORE)]
      case Disconnect(_) => [ShutdownNow(c.id)]
  }

  /** A dialed connection goes out, an accepted one comes in. */
  function ConnFor(command: Command, id: nat): Conn
    requires command.DialPeer? || command.AddPeer?
  {
    Conn(id, command.peer.hash, command.peer.address, command.DialPeer?)
  }

  function NextId(command: Command, id: nat): nat {
    if command.DialPeer? || command.AddPeer? then id + 1 else id
  }

  function EffectAll(m: Manager, commands: seq<Command>, id: nat): Manager
    requires KeyedByHash(m.connections)
    decreases |commands|
  {
    if commands == [] then m
    else EffectAll(Effect(m, commands[0], id), commands[1..], NextId(commands[0], id))
  }

  lemma TakenAgrees(m: Manager, c: Conn)
    requires Agrees(m)
    ensures Agrees(Taken(m, c))
  {
    if c.hash in m.connections {
      RemovedAgreesIff(m, m.connections[c.hash]);
      AddedAgrees(Removed(m, m.connections[c.hash]), c);
    } else {
      AddedAgrees(m, c);
    }
  }

  /** The new connection is there, every other is untouched, and at most one more goes out. */
  lemma TakenConnections(m: Manager, c: Conn)
    requires KeyedByHash(m.connections)
    ensures Taken(m, c).connections == m.connections[c.hash := c]
    ensures Taken(m, c).outgoingCount <= m.outgoingCount + if c.outgoing then 1 else 0
  {
    if c.hash in m.connections {
      assert (m.connections - {c.hash})[c.hash := c] == m.connections[c.hash := c];
    }
  }

  /** A dial or an accepted connection registers one connection under the hash of its peer, with the peer's
      address and the right direction; every other command leaves the connections alone. */
  lemma CommandRegisters(m: Manager, command: Command, id: nat)
    requires KeyedByHash(m.connections)
    ensures match command
            case DialPeer(peer, _) =>
              Effect(m, command, id).connections == m.connections[peer.hash := Conn(id, peer.hash, peer.address, true)]
            case AddPeer(peer) =>
              Effect(m, command, id).connections == m.connections[peer.hash := Conn(id, peer.hash, peer.address, false)]
            case _ => Effect(m, command, id) == m
  {
    if command.DialPeer? || command.AddPeer? {
      TakenConnections(m, ConnFor(command, id));
    }
  }

  /** Who is told what by a command, and why. */
  predicate NoticeFor(command: Command, c: Conn, n: Notice) {
    && n.id == c.id
    && match n
       case ShutdownNow(_) =>
         command == Disconnect(c.hash) || ((command.DialPeer? || command.AddPeer?) && command.peer.hash == c.hash)
       case AdjustQuality(_, delta) =>
         command == AdjustPeerQuality(c.hash, delta) || (command == Ban(c.hash) && delta == -2147000000)
  }

  lemma ToldExactly(m: Manager, command: Command, id: nat, n: Notice)
    requires KeyedByHash(m.connections)
    ensures n in Told(m, command, id) <==> exists h :: h in m.connections && NoticeFor(command, m.connections[h], n)
    ensures |Told(m, command, id)| <= 1
  {
    if n in Told(m, command, id) {
      var h := if command.DialPeer? || command.AddPeer? then command.peer.hash else command.peerHash;
      assert NoticeFor(command, m.connections[h], n);
    }
  }

  /** A ban ends a connection, unless its score is so low already that the sum wraps around, or higher than
      the score of a ban can undo. */
  lemma BanEndsIff(s: Peering.Settings, c: Peering.Conn)
    requires -0x8000_0000 <= c.quality < 0x8000_0000 && s.minimumQuality <= 483648
    ensures Peering.TakeCommand(s, c, Some(Peering.AdjustPeerQuality(BANNED_QUALITY_SCORE))) ==
              (if -483648 <= c.quality < s.minimumQuality + 2147000000
               then Peering.WentShutdown(c.(quality := c.quality - 2147000000))
               else c.(quality := (c.quality - 2147000000) + if c.quality < -483648 then 0x1_0000_0000 else 0))
  {
  }

  /** How many connections the commands make. */
  function Connects(commands: seq<Command>): nat {
    if commands == [] then 0
    else (if commands[0].DialPeer? || commands[0].AddPeer? then 1 else 0) + Connects(commands[1..])
  }

  /** The commands take effect one after the other, each new connection with an id of its own. */
  lemma {:induction false} LastCommandLast(m: Manager, commands: seq<Command>, command: Command, id: nat)
    requires KeyedByHash(m.connections)
    ensures KeyedByHash(EffectAll(m, commands, id).connections)
    ensures EffectAll(m, commands + [command], id)
         == Effect(EffectAll(m, commands, id), command, id + Connects(commands))
    decreases |commands|
  {
    if commands == [] {
      assert [command][1..] == [];
      assert EffectAll(m, [command], id) == EffectAll(Effect(m, command, id), [], NextId(command, id));
    } else {
      assert (commands + [command])[1..] == commands[1..] + [command];
      LastCommandLast(Effect(m, commands[0], id), commands[1..], command, NextId(commands[0], id));
    }
  }

  // ---------------------------------------------------------------- filling outgoing slots

  /** The peers to dial: the first ones we are not connected to, as many as there are slots. */
  function ToDial(m: Manager, peers: seq<Peer>, slots: nat): (r: seq<Peer>)
    ensures |r| <= slots
    decreases |peers|
  {
    if peers == [] || slots == 0 then []
    else if peers[0].address in m.byAddress then ToDial(m, peers[1..], slots)
    else [peers[0]] + ToDial(m, peers[1..], slots - 1)
  }

  function Unconnected(m: Manager, peers: seq<Peer>): nat {
    if peers == [] then 0
    else (if HashesAt(m.connections, peers[0].address) == {} then 1 else 0) + Unconnected(m, peers[1..])
  }

  /** As many peers are dialed as are missing, or as there are that we have no connection to. */
  lemma {:induction false} DialsAllItCan(m: Manager, peers: seq<Peer>, slots: nat)
    requires Agrees(m)
    ensures |ToDial(m, peers, slots)| == if Unconnected(m, peers) < slots then Unconnected(m, peers) else slots
    ensures forall p :: p in ToDial(m, peers, slots) ==> p in peers && HashesAt(m.connections, p.address) == {}
    decreases |peers|
  {
    if peers != [] {
      IndexedIffConnected(m, peers[0].address);
      DialsAllItCan(m, peers[1..], slots);
      if slots > 0 {
        DialsAllItCan(m, peers[1..], slots - 1);
      }
    }
  }

  /** And a channel with room takes them all, in order, behind what is in it. */
  lemma {:induction false} RoomForAll(size: nat, queue: seq<Command>, peers: seq<Peer>)
    requires HighWaterMark(size) >= 1 && |queue| + |peers| <= HighWaterMark(size)
    ensures Dialed(size, queue, peers) == queue + seq(|peers|, i requires 0 <= i < |peers| => DialPeer(peers[i], false))
    decreases |peers|
  {
    if peers != [] {
      var more := queue + [DialPeer(peers[0], false)];
      assert Sent(size, queue, DialPeer(peers[0], false)) == more;
      RoomForAll(size, more, peers[1..]);
    }
  }

  /** So after managing, with enough known peers and room in the channel, exactly as many connections go out
      or are about to as are wanted. */
  lemma ManagingFillsUp(m: Manager, wanted: nat, size: nat, peers: seq<Peer>)
    requires Agrees(m) && m.outgoingCount <= wanted
    requires 1 <= HighWaterMark(size) && wanted <= HighWaterMark(size)
    requires Unconnected(m, peers) >= wanted - m.outgoingCount
    ensures m.outgoingCount + Dials(Managed(m, wanted, size, [], peers)) == wanted
  {
    if wanted > m.outgoingCount {
      var chosen := ToDial(m, peers, wanted - m.outgoingCount);
      DialsAllItCan(m, peers, wanted - m.outgoingCount);
      RoomForAll(size, [], chosen);
      AllDials(Dialed(size, [], chosen));
    }
  }

  lemma {:induction false} AllDials(queue: seq<Command>)
    requires forall i :: 0 <= i < |queue| ==> queue[i].DialPeer?
    ensures Dials(queue) == |queue|
    decreases |queue|
  {
    if queue != [] {
      AllDials(queue[1..]);
    }
  }

  /** Sending the dial commands one after the other. */
  function Dialed(size: nat, queue: seq<Command>, peers: seq<Peer>): seq<Command>
    requires HighWaterMark(size) >= 1
    decreases |peers|
  {
    if peers == [] then queue else Dialed(size, Sent(size, queue, DialPeer(peers[0], false)), peers[1..])
  }

  function Dials(queue: seq<Command>): nat {
    if queue == [] then 0 else (if queue[0].DialPeer? then 1 else 0) + Dials(queue[1..])
  }

  lemma {:induction false} DialsConcat(a: seq<Command>, b: seq<Command>)
    ensures Dials(a + b) == Dials(a) + Dials(b)
    decreases |a|
  {
    if a == [] {
      assert a + b == b;
    } else {
      assert (a + b)[1..] == a[1..] + b;
      DialsConcat(a[1..], b);
    }
  }

  /** Sending adds at most the command sent; what is dropped only lowers the number of dials. */
  lemma SentDials(size: nat, queue: seq<Command>, command: Command)
    requires HighWaterMark(size) >= 1
    ensures Dials(Sent(size, queue, command)) <= Dials(queue) + if command.DialPeer? then 1 else 0
  {
    var r := Cleared(size, queue);
    var dropped := queue[..|queue| - |r|];
    assert queue == dropped + r;
    DialsConcat(dropped, r);
    DialsConcat(r, [command]);
    assert [command][1..] == [];
  }

  lemma {:induction false} DialedDials(size: nat, queue: seq<Command>, peers: seq<Peer>)
    requires HighWaterMark(size) >= 1
    ensures Dials(Dialed(size, queue, peers)) <= Dials(queue) + |peers|
    decreases |peers|
  {
    if peers != [] {
      SentDials(size, queue, DialPeer(peers[0], false));
      DialedDials(size, Sent(size, queue, DialPeer(peers[0], false)), peers[1..]);
    }
  }

  /** Peer management: dial as many peers as are missing. */
  function Managed(m: Manager, wanted: nat, size: nat, queue: seq<Command>, peers: seq<Peer>): seq<Command>
    requires HighWaterMark(size) >= 1
  {
    if wanted > m.outgoingCount then
      Dialed(size, queue, ToDial(m, peers, wanted - m.outgoingCount))
    else queue
  }

  // ---------------------------------------------------------------- the controller object

  class Controller {
    const connections: ConnectionManager
    const commandChannel: Channel<Command>
    var nextId: nat
    var keepRunning: bool
    var lastPeerManagement: int
    var told: seq<Notice>   // everything sent to connections, in order

    ghost predicate Valid()
      reads connections, commandChannel
    {
      connections.Valid() && commandChannel.Valid() && HighWaterMark(commandChannel.capacity) >= 1
    }

    constructor (channelSize: nat)
      requires HighWaterMark(channelSize) >= 1
      ensures Valid() && fresh(connections) && fresh(commandChannel)
      ensures connections.View() == Manager(map[], map[], 0, 0)
      ensures commandChannel.items == [] && commandChannel.capacity == channelSize
      ensures keepRunning && told == [] && lastPeerManagement == 0
    {
      connections := new ConnectionManager();
      commandChannel := new Channel(channelSize);
      nextId, keepRunning, lastPeerManagement, told := 0, true, 0, [];
    }

    /** The duplicate-peer panic of Add is out of reach: an old connection is removed first. */
    method HandleNewConnection(c: Conn)
      requires Valid()
      modifies this`told, connections
      ensures Valid()
      ensures connections.View() == Taken(old(connections.View()), c)
      ensures told == old(told) + ToldReplaced(old(connections.View()), c)
    {
      TakenAgrees(connections.View(), c);
      if c.hash in connections.connections {
        var oldConnection := connections.connections[c.hash];
        connections.Remove(oldConnection);
        told := told + [ShutdownNow(oldConnection.id)];
      }
      connections.Add(c);
    }

    method HandleCommand(command: Command)
      requires Valid()
      modifies this, connections
      ensures Valid() && lastPeerManagement == old(lastPeerManagement)
      ensures connections.View() == Effect(old(connections.View()), command, old(nextId))
      ensures told == old(told) + Told(old(connections.View()), command, old(nextId))
      ensures keepRunning == (old(keepRunning) && !command.Shutdown?)
      ensures nextId == NextId(command, old(nextId))
    {
      if command.DialPeer? || command.AddPeer? {
        var connection := Conn(nextId, command.peer.hash, command.peer.address, command.DialPeer?);
        nextId := nextId + 1;
        HandleNewConnection(connection);
      } else if command.Shutdown? {
        keepRunning := false;
      } else if command.peerHash in connections.connections {
        var connection := connections.connections[command.peerHash];
        match command
        case AdjustPeerQuality(_, adjustment) => told := told + [AdjustQuality(connection.id, adjustment)];
        case Ban(_) => told := told + [AdjustQuality(connection.id, BANNED_QUALITY_SCORE)];
        case Disconnect(_) => told := told + [ShutdownNow(connection.id)];
      }
    }

    /** The command loop: handles everything in the channel. */
    method DrainCommands()
      requires Valid()
      modifies this, connections, commandChannel
      ensures Valid() && commandChannel.items == []
      ensures connections.View() == EffectAll(old(connections.View()), old(commandChannel.items), old(nextId))
    {
      ghost var target := EffectAll(connections.View(), commandChannel.items, nextId);
      while commandChannel.items != []
        invariant Valid()
        invariant target == EffectAll(connections.View(), commandChannel.items, nextId)
        decreases |commandChannel.items|
      {
        var command := commandChannel.items[0];
        commandChannel.items := commandChannel.items[1..];
        HandleCommand(command);
      }
    }

    /** The closed connection is the one registered under its hash, or none is. */
    method HandleConnectionClosed(c: Conn)
      requires Valid()
      requires c.hash in connections.connections ==> connections.connections[c.hash] == c
      modifies connections
      ensures Valid()
      ensures connections.View() == Removed(old(connections.View()), c)
    {
      connections.Remove(c);
    }

    method SendDial(peer: Peer, persistent: bool)
      requires commandChannel.Valid() && HighWaterMark(commandChannel.capacity) >= 1
      modifies commandChannel
      ensures commandChannel.Valid()
      ensures commandChannel.items == Sent(commandChannel.capacity, old(commandChannel.items), DialPeer(peer, persistent))
    {
      var removed, blocked := commandChannel.BlockFreeChannelSend(DialPeer(peer, persistent));
    }

    method FillOutgoingSlots(peers: seq<Peer>, openSlots: nat)
      requires commandChannel.Valid() && HighWaterMark(commandChannel.capacity) >= 1
      modifies commandChannel
      ensures commandChannel.Valid()
      ensures commandChannel.items == Dialed(commandChannel.capacity, old(commandChannel.items),
                                             ToDial(connections.View(), peers, openSlots))
    {
      var newPeers := 0;
      ghost var m, size := connections.View(), commandChannel.capacity;
      ghost var target := DialRestWhole(size, commandChannel.items, m, peers, openSlots);
      for i := 0 to |peers|
        invariant commandChannel.Valid() && 0 <= newPeers <= openSlots
        invariant target == DialRest(size, commandChannel.items, m, peers, i, openSlots - newPeers)
      {
        newPeers := DialIfOpen(peers[i], newPeers, openSlots);
      }
    }

    /** One turn of the filling loop. */
    method DialIfOpen(peer: Peer, newPeers: nat, openSlots: nat) returns (n: nat)
      requires commandChannel.Valid() && HighWaterMark(commandChannel.capacity) >= 1
      modifies commandChannel
      ensures commandChannel.Valid()
      ensures if peer.address !in connections.connectionsByAddress && newPeers < openSlots
              then n == newPeers + 1
                && commandChannel.items == Sent(commandChannel.capacity, old(commandChannel.items), DialPeer(peer, false))
              else n == newPeers && commandChannel.items == old(commandChannel.items)
    {
      n := newPeers;
      var connected := connections.ConnectedTo(peer.address);
      if !connected && newPeers < openSlots {
        n := newPeers + 1;
        SendDial(peer, false);
      }
    }

    /** Once per interval, dials the peers that are missing. */
    method ManagePeers(wanted: nat, peers: seq<Peer>, peerSaveInterval: int, now: int)
      requires Valid()
      modifies this`lastPeerManagement, commandChannel
      ensures Valid()
      ensures var due := peerSaveInterval < now - old(lastPeerManagement);
              && lastPeerManagement == (if due then now else old(lastPeerManagement))
              && commandChannel.items == if due then Managed(connections.View(), wanted, commandChannel.capacity,
                                                             old(commandChannel.items), peers)
                                         else old(commandChannel.items)
    {
      var managementDuration := now - lastPeerManagement;
      if peerSaveInterval < managementDuration {
        lastPeerManagement := now;
        var outgoingCount := connections.outgoingCount;
        if wanted > outgoingCount {
          FillOutgoingSlots(peers, wanted - outgoingCount);
        }
      }
    }
  }

  /** The filling loop from its `i`-th turn on. */
  function DialRest(size: nat, queue: seq<Command>, m: Manager, peers: seq<Peer>, i: nat, slots: nat): seq<Command>
    requires HighWaterMark(size) >= 1 && i <= |peers|
    decreases |peers| - i
  {
    if i == |peers| then queue
    else if peers[i].address !in m.byAddress && slots > 0
    then DialRest(size, Sent(size, queue, DialPeer(peers[i], false)), m, peers, i + 1, slots - 1)
    else DialRest(size, queue, m, peers, i + 1, slots)
  }

  lemma DialedFirst(size: nat, queue: seq<Command>, peer: Peer, rest: seq<Peer>)
    requires HighWaterMark(size) >= 1
    ensures Dialed(size, queue, [peer] + rest) == Dialed(size, Sent(size, queue, DialPeer(peer, false)), rest)
  {
    assert ([peer] + rest)[1..] == rest;
  }

  lemma {:induction false} DialRestIsDialed(size: nat, queue: seq<Command>, m: Manager, peers: seq<Peer>, i: nat, slots: nat)
    requires HighWaterMark(size) >= 1 && i <= |peers|
    ensures DialRest(size, queue, m, peers, i, slots) == Dialed(size, queue, ToDial(m, peers[i..], slots))
    decreases |peers| - i
  {
    if i < |peers| {
      assert peers[i..][1..] == peers[i + 1..];
      if peers[i].address !in m.byAddress && slots > 0 {
        DialedFirst(size, queue, peers[i], ToDial(m, peers[i + 1..], slots - 1));
        DialRestIsDialed(size, Sent(size, queue, DialPeer(peers[i], false)), m, peers, i + 1, slots - 1);
      } else {
        DialRestIsDialed(size, queue, m, peers, i + 1, slots);
      }
    }
  }

  lemma DialRestWhole(size: nat, queue: seq<Command>, m: Manager, peers: seq<Peer>, slots: nat)
    returns (target: seq<Command>)
    requires HighWaterMark(size) >= 1
    ensures target == DialRest(size, queue, m, peers, 0, slots)
    ensures target == Dialed(size, queue, ToDial(m, peers, slots))
  {
    target := DialRest(size, queue, m, peers, 0, slots);
    DialRestIsDialed(size, queue, m, peers, 0, slots);
    assert peers[0..] == peers;
  }

  // ---------------------------------------------------------------- whole runs

  /** The run loop drains the commands, then routes messages, then manages peers. */
  datatype Phase = Draining | Drained
  datatype Ctl = Ctl(manager: Manager, queue: seq<Command>, phase: Phase, nextId: nat)

  /** What can happen: another goroutine posts a command that is not a dial; the loop handles the
      next command, finds the channel empty, learns that a connection is closed, or manages peers
      (with the candidates discovery offers, when the time has come). */
  datatype Event =
    | Post(command: Command)
    | Handle
    | DrainDone
    | ConnectionClosed(hash: string)
    | Manage(due: bool, peers: seq<Peer>)

  predicate Enabled(s: Ctl, e: Event) {
    match e
    case Post(command) => !command.DialPeer?
    case Handle => s.phase == Draining && s.queue != []
    case DrainDone => s.phase == Draining && s.queue == []
    case ConnectionClosed(hash) => s.phase == Drained && hash in s.manager.connections
    case Manage(_, _) => s.phase == Drained
  }

  function Step(wanted: nat, size: nat, s: Ctl, e: Event): Ctl
    requires HighWaterMark(size) >= 1 && KeyedByHash(s.manager.connections) && Enabled(s, e)
  {
    match e
    case Post(command) => s.(queue := Sent(size, s.queue, command))
    case Handle =>
      s.(manager := Effect(s.manager, s.queue[0], s.nextId), queue := s.queue[1..], nextId := NextId(s.queue[0], s.nextId))
    case DrainDone => s.(phase := Drained)
    case ConnectionClosed(hash) => s.(manager := Removed(s.manager, s.manager.connections[hash]))
    case Manage(due, peers) =>
      s.(queue := if due then Managed(s.manager, wanted, size, s.queue, peers) else s.queue, phase := Draining)
  }

  /** The manager's parts agree, the outgoing connections and the dials under way do not exceed the
      wanted number, and no dial is queued while the loop is not draining. */
  ghost predicate Bounded(wanted: nat, s: Ctl) {
    && Agrees(s.manager)
    && s.manager.outgoingCount + Dials(s.queue) <= wanted
    && (s.phase == Drained ==> Dials(s.queue) == 0)
  }

  lemma HandleBounded(wanted: nat, size: nat, s: Ctl)
    requires HighWaterMark(size) >= 1 && Bounded(wanted, s) && Enabled(s, Handle)
    ensures Bounded(wanted, Step(wanted, size, s, Handle))
  {
    var command := s.queue[0];
    if command.DialPeer? || command.AddPeer? {
      TakenAgrees(s.manager, ConnFor(command, s.nextId));
      TakenConnections(s.manager, ConnFor(command, s.nextId));
    }
  }

  lemma ManageBounded(wanted: nat, size: nat, s: Ctl, e: Event)
    requires HighWaterMark(size) >= 1 && Bounded(wanted, s) && e.Manage? && Enabled(s, e)
    ensures Bounded(wanted, Step(wanted, size, s, e))
  {
    var m := s.manager;
    if wanted > m.outgoingCount {
      DialedDials(size, s.queue, ToDial(m, e.peers, wanted - m.outgoingCount));
    }
  }

  lemma StepBounded(wanted: nat, size: nat, s: Ctl, e: Event)
    requires HighWaterMark(size) >= 1 && Bounded(wanted, s) && Enabled(s, e)
    ensures Bounded(wanted, Step(wanted, size, s, e))
  {
    match e
    case Post(command) => SentDials(size, s.queue, command);
    case Handle => HandleBounded(wanted, size, s);
    case DrainDone =>
    case ConnectionClosed(hash) => RemovedAgreesIff(s.manager, s.manager.connections[hash]);
    case Manage(_, _) => ManageBounded(wanted, size, s, e);
  }

  /** A run: every state is the step from the one before. */
  ghost predicate IsRun(wanted: nat, size: nat, states: seq<Ctl>, events: seq<Event>)
    requires HighWaterMark(size) >= 1
  {
    && |states| == |events| + 1
    && states[0] == Ctl(Manager(map[], map[], 0, 0), [], Draining, 0)
    && forall n :: 0 <= n < |events| ==>
         && KeyedByHash(states[n].manager.connections) && Enabled(states[n], events[n])
         && states[n + 1] == Step(wanted, size, states[n], events[n])
  }

  /** In every run in which only peer management dials, at every point, the connections agree with
      their index and counts, and the outgoing connections plus the queued dials never exceed the
      number of peers wanted. */
  lemma {:induction false} OutgoingNeverExceedsWanted(wanted: nat, size: nat, states: seq<Ctl>, events: seq<Event>, n: nat)
    requires HighWaterMark(size) >= 1 && IsRun(wanted, size, states, events)
    requires n < |states|
    ensures Bounded(wanted, states[n])
    decreases n
  {
    if n == 0 {
      assert HashesGoing(map[], true) == {} && HashesGoing(map[], false) == {};
    } else {
      OutgoingNeverExceedsWanted(wanted, size, states, events, n - 1);
      StepBounded(wanted, size, states[n - 1], events[n - 1]);
      assert states[(n - 1) + 1] == Step(wanted, size, states[n - 1], events[n - 1]);
    }
  }

  /** Different connections have different ids, all of them given out. */
  ghost predicate IdsDistinct(m: Manager, next: nat) {
    && (forall h :: h in m.connections ==> m.connections[h].id < next)
    && (forall g, h :: g in m.connections && h in m.connections && g != h ==> m.connections[g].id != m.connections[h].id)
  }

  lemma StepIds(wanted: nat, size: nat, s: Ctl, e: Event)
    requires HighWaterMark(size) >= 1 && KeyedByHash(s.manager.connections) && Enabled(s, e)
    requires IdsDistinct(s.manager, s.nextId)
    ensures var t := Step(wanted, size, s, e); IdsDistinct(t.manager, t.nextId)
  {
    if e.Handle? {
      CommandRegisters(s.manager, s.queue[0], s.nextId);
    }
  }

  /** So, in every run, a notice reaches one connection only. */
  lemma {:induction false} NoticesReachOne(wanted: nat, size: nat, states: seq<Ctl>, events: seq<Event>, n: nat)
    requires HighWaterMark(size) >= 1 && IsRun(wanted, size, states, events)
    requires n < |states|
    ensures IdsDistinct(states[n].manager, states[n].nextId)
    decreases n
  {
    if n > 0 {
      NoticesReachOne(wanted, size, states, events, n - 1);
      StepIds(wanted, size, states[n - 1], events[n - 1]);
      assert states[(n - 1) + 1] == Step(wanted, size, states[n - 1], events[n - 1]);
    }
  }
}
