/** A peer connection's state machine (p2p/connection.go). One iteration of the run loop is one
    step; what the loop finds in its channels, the clock and the outcome of dialing are inputs. */
module Connection {
  import opened Options
  import opened Parcels

  datatype ConnState = Initialized | Online | Offline | ShuttingDown | Closed

  /** The package's settings (p2p/protocol.go); the redial limit and the scores are variables there. */
  datatype Settings = Settings(maxRedialAttempts: nat, pingInterval: nat, minimumQuality: int,
                               nodeID: nat, network: uint32, versionMinimum: uint16)

  /** A connection: `wired` says that the encoder and the decoder are set. */
  datatype Conn = Conn(state: ConnState, attempts: int, outgoing: bool, persistent: bool, quality: int,
                       lastContact: int, timeLastPing: int, wired: bool)

  datatype Command = ShutdownNow | UpdatingPeer(quality: int) | AdjustPeerQuality(delta: int) | GoOfflineNow

  datatype Verdict = ParcelValid | InvalidPeerDemerit | InvalidDisconnectPeer

  /** A 32-bit sum. */
  function Wrap32(x: int): int {
    (x + 0x8000_0000) % 0x1_0000_0000 - 0x8000_0000
  }

  // ---------------------------------------------------------------- the steps as functions

  function WentOnline(c: Conn, now: int): Conn {
    c.(state := Online, attempts := 0, lastContact := now, timeLastPing := now, wired := true)
  }

  function WentOffline(c: Conn): Conn {
    c.(state := Offline, attempts := 0, wired := false)
  }

  function WentShutdown(c: Conn): Conn {
    WentOffline(c).(state := ShuttingDown)
  }

  function Judge(s: Settings, crc: Bytes -> uint32, p: Parcel): Verdict {
    if p.header.nodeID == s.nodeID then InvalidDisconnectPeer
    else if p.header.network != s.network then InvalidDisconnectPeer
    else if p.header.version < s.versionMinimum then InvalidDisconnectPeer
    else if p.header.length != ToUint32(|p.payload|) then InvalidPeerDemerit
    else if p.header.crc32 != crc(p.payload) then InvalidPeerDemerit
    else ParcelValid
  }

  /** A valid parcel earns a point; an application message earns another. */
  function Earned(quality: int, kind: ParcelType): int {
    var merited := if 2147483000 > quality then Wrap32(quality + 1) else quality;
    if kind.Message? || kind.MessagePart? then Wrap32(merited + 1) else merited
  }

  function TakeParcel(s: Settings, crc: Bytes -> uint32, c: Conn, p: Parcel, now: int): Conn {
    match Judge(s, crc, p)
    case InvalidDisconnectPeer =>
      WentShutdown(if p.header.nodeID == s.nodeID then c.(quality := Wrap32(s.minimumQuality - 50)) else c)
    case InvalidPeerDemerit => c
    case ParcelValid => c.(lastContact := now, attempts := 0, quality := Earned(c.quality, p.header.kind))
  }

  function TakeParcels(s: Settings, crc: Bytes -> uint32, c: Conn, ps: seq<Parcel>, now: int): Conn
    decreases |ps|
  {
    if ps == [] then c else TakeParcels(s, crc, TakeParcel(s, crc, c, ps[0], now), ps[1..], now)
  }

  function TakeCommand(s: Settings, c: Conn, command: Option<Command>): Conn {
    match command
    case None => c
    case Some(ShutdownNow) => WentShutdown(c)
    case Some(UpdatingPeer(q)) => if q < c.quality then c.(quality := q) else c
    case Some(AdjustPeerQuality(delta)) =>
      var adjusted := c.(quality := Wrap32(c.quality + delta));
      if s.minimumQuality > adjusted.quality then WentShutdown(adjusted) else adjusted
    case Some(GoOfflineNow) => WentOffline(c)
  }

  predicate PingDue(s: Settings, c: Conn, now: int) {
    s.pingInterval < now - c.lastContact && s.pingInterval < now - c.timeLastPing
  }

  function Pinged(s: Settings, c: Conn, now: int): Conn {
    if !PingDue(s, c, now) then c
    else if s.maxRedialAttempts < c.attempts then WentOffline(c)
    else c.(timeLastPing := now, attempts := c.attempts + 1)
  }

  /** The outcome of every dial the loop may make. */
  type Dials = nat -> bool

  ghost predicate SomeDialWorks(dials: Dials, tries: nat) {
    exists k: nat :: k < tries && dials(k)
  }

  /** How often a connection with these failed attempts may dial before giving up; one that is
      not offline gives up at once. */
  function TriesLeft(s: Settings, c: Conn): nat {
    if c.state == Offline && c.attempts <= s.maxRedialAttempts then s.maxRedialAttempts + 1 - c.attempts else 1
  }

  ghost predicate CanDial(c: Conn, dials: Dials) {
    c.persistent ==> exists k: nat :: dials(k)
  }

  /** A persistent connection dials until it succeeds; any other gives up in time. */
  ghost function Dialed(s: Settings, c: Conn, dials: Dials, now: int): Conn {
    if c.persistent || SomeDialWorks(dials, TriesLeft(s, c)) then WentOnline(c, now) else WentShutdown(c)
  }

  /** The dials a connection makes before it is online or gives up: up to the first that works, or all
      it may make. */
  ghost predicate MadeDials(s: Settings, c: Conn, dials: Dials, n: nat) {
    && n > 0
    && (forall k: nat :: k + 1 < n ==> !dials(k))
    && (if dials(n - 1) then c.persistent || n <= TriesLeft(s, c) else !c.persistent && n == TriesLeft(s, c))
  }

  predicate TooPoor(s: Settings, c: Conn) {
    s.minimumQuality > c.quality && !c.persistent
  }

  ghost function Acted(s: Settings, c: Conn, dials: Dials, now: int): Conn {
    match c.state
    case Initialized => if TooPoor(s, c) then WentShutdown(c) else Dialed(s, c.(state := Offline), dials, now)
    case Online => var pinged := Pinged(s, c, now); if TooPoor(s, pinged) then WentShutdown(pinged) else pinged
    case Offline => if c.outgoing then Dialed(s, c, dials, now) else WentShutdown(c)
    case ShuttingDown => c.(state := Closed)
    case Closed => c
  }

  /** The dials made while acting on the state. */
  ghost predicate PassDials(s: Settings, c: Conn, dials: Dials, n: nat) {
    if c.state == Initialized && !TooPoor(s, c) then MadeDials(s, c.(state := Offline), dials, n)
    else if c.state == Offline && c.outgoing then MadeDials(s, c, dials, n)
    else n == 0
  }

  /** What one iteration finds. */
  datatype Input = Input(errors: nat, command: Option<Command>, parcels: seq<Parcel>, now: int, dials: Dials)

  /** The connection after the channels have been read, before the state is acted on. */
  function Informed(s: Settings, crc: Bytes -> uint32, c: Conn, i: Input): Conn {
    var afterErrors := if i.errors > 0 then WentOffline(c) else c;
    TakeParcels(s, crc, TakeCommand(s, afterErrors, i.command), i.parcels, i.now)
  }

  ghost function Iterate(s: Settings, crc: Bytes -> uint32, c: Conn, i: Input): Conn {
    if c.state == Closed then c else Acted(s, Informed(s, crc, c, i), i.dials, i.now)
  }

  // ---------------------------------------------------------------- the connection object

  class Connection {
    var state: ConnState
    var attempts: int
    var isOutGoing: bool
    var isPersistent: bool
    var quality: int
    var lastContact: int
    var timeLastPing: int
    var wired: bool
    ghost var dialCount: nat

    function View(): Conn
      reads this
    {
      Conn(state, attempts, isOutGoing, isPersistent, quality, lastContact, timeLastPing, wired)
    }

    /** Init: we have a peer and will dial it. */
    constructor Outgoing(quality: int, persistent: bool)
      ensures View() == Conn(Initialized, 0, true, persistent, quality, 0, 0, false)
    {
      state, attempts, isOutGoing, isPersistent := Initialized, 0, true, persistent;
      this.quality, lastContact, timeLastPing, wired := quality, 0, 0, false;
      dialCount := 0;
    }

    /** InitWithConn: a peer has dialed us. */
    constructor Incoming(quality: int, now: int)
      ensures View() == WentOnline(Conn(Initialized, 0, false, false, quality, 0, 0, false), now)
    {
      state, attempts, isOutGoing, isPersistent := Initialized, 0, false, false;
      this.quality, lastContact, timeLastPing, wired := quality, 0, 0, false;
      dialCount := 0;
      new;
      var left := GoOnline(now, 0);
    }

    /** Going online throws pending errors away. */
    method GoOnline(now: int, errors: nat) returns (errorsLeft: nat)
      modifies this
      ensures View() == WentOnline(old(View()), now) && errorsLeft == 0 && dialCount == old(dialCount)
    {
      wired := true;
      attempts := 0;
      timeLastPing := now;
      lastContact := now;
      state := Online;
      errorsLeft := HandleNetErrors(true, errors);
    }

    method GoOffline()
      modifies this
      ensures View() == WentOffline(old(View())) && dialCount == old(dialCount)
    {
      wired := false;
      state := Offline;
      attempts := 0;
    }

    method GoShutdown()
      modifies this
      ensures View() == WentShutdown(old(View())) && dialCount == old(dialCount)
    {
      GoOffline();
      wired := false;
      state := ShuttingDown;
    }

    /** Reads the error channel empty; unless told to toss the errors, goes offline once. */
    method HandleNetErrors(toss: bool, errors: nat) returns (errorsLeft: nat)
      modifies this
      ensures errorsLeft == 0
      ensures View() == if !toss && errors > 0 then WentOffline(old(View())) else old(View())
      ensures dialCount == old(dialCount)
    {
      var done := false;
      errorsLeft := errors;
      while errorsLeft > 0
        invariant errorsLeft <= errors && (done <==> errorsLeft < errors)
        invariant View() == if !toss && done then WentOffline(old(View())) else old(View())
        invariant dialCount == old(dialCount)
      {
        errorsLeft := errorsLeft - 1;
        if !toss && !done {
          GoOffline();
        }
        done := true;
      }
    }

    method HandleCommand(s: Settings, command: Option<Command>)
      modifies this
      ensures View() == TakeCommand(s, old(View()), command) && dialCount == old(dialCount)
    {
      match command
      case None =>
      case Some(ShutdownNow) => GoShutdown();
      case Some(UpdatingPeer(q)) =>
        if q < quality {
          quality := q;
        }
      case Some(AdjustPeerQuality(delta)) =>
        quality := Wrap32(quality + delta);
        if s.minimumQuality > quality {
          GoShutdown();
        }
      case Some(GoOfflineNow) => GoOffline();
    }

    /** Loopback parcels also cost the peer its score. */
    method ParcelValidity(s: Settings, crc: Bytes -> uint32, parcel: Parcel) returns (v: Verdict)
      modifies this
      ensures v == Judge(s, crc, parcel)
      ensures View() == if parcel.header.nodeID == s.nodeID then old(View()).(quality := Wrap32(s.minimumQuality - 50))
                        else old(View())
      ensures dialCount == old(dialCount)
    {
      if parcel.header.nodeID == s.nodeID {
        quality := Wrap32(s.minimumQuality - 50);
        return InvalidDisconnectPeer;
      } else if parcel.header.network != s.network {
        return InvalidDisconnectPeer;
      } else if parcel.header.version < s.versionMinimum {
        return InvalidDisconnectPeer;
      } else if parcel.header.length != ToUint32(|parcel.payload|) {
        return InvalidPeerDemerit;
      } else if parcel.header.crc32 != crc(parcel.payload) {
        return InvalidPeerDemerit;
      }
      return ParcelValid;
    }

    method HandleParcel(s: Settings, crc: Bytes -> uint32, parcel: Parcel, now: int)
      modifies this
      ensures View() == TakeParcel(s, crc, old(View()), parcel, now) && dialCount == old(dialCount)
    {
      var validity := ParcelValidity(s, crc, parcel);
      match validity
      case InvalidDisconnectPeer =>
        attempts := s.maxRedialAttempts + 50;
        GoShutdown();
      case InvalidPeerDemerit =>
      case ParcelValid =>
        lastContact := now;
        attempts := 0;
        if 2147483000 > quality {
          quality := Wrap32(quality + 1);
        }
        if parcel.header.kind.Message? || parcel.header.kind.MessagePart? {
          quality := Wrap32(quality + 1);
        }
    }

    method PingPeer(s: Settings, now: int)
      modifies this
      ensures View() == Pinged(s, old(View()), now) && dialCount == old(dialCount)
    {
      var durationLastContact := now - lastContact;
      var durationLastPing := now - timeLastPing;
      if s.pingInterval < durationLastContact && s.pingInterval < durationLastPing {
        if s.maxRedialAttempts < attempts {
          GoOffline();
          return;
        } else {
          timeLastPing := now;
          attempts := attempts + 1;
        }
      }
    }

    /** Dials until it connects or shuts down, counting its dials. */
    method DialLoop(s: Settings, dials: Dials, now: int)
      requires CanDial(View(), dials)
      modifies this
      ensures View() == Dialed(s, old(View()), dials, now)
      ensures dialCount > old(dialCount) && MadeDials(s, old(View()), dials, dialCount - old(dialCount))
    {
      ghost var enough: nat := 0;
      if isPersistent {
        enough :| dials(enough);
      }
      ghost var was := View();
      var tried := 0;
      while true
        invariant View() == was.(attempts := attempts)
        invariant attempts == if was.persistent then was.attempts else was.attempts + tried
        invariant forall k: nat :: k < tried ==> !dials(k)
        invariant was.persistent ==> tried <= enough
        invariant !was.persistent ==> tried < TriesLeft(s, was)
        invariant dialCount == old(dialCount) + tried
        decreases if was.persistent then enough - tried else TriesLeft(s, was) - tried
      {
        dialCount := dialCount + 1;
        if dials(tried) {
          var left := GoOnline(now, 0);
          return;
        }
        tried := tried + 1;
        if isPersistent {
        } else if state == Offline {
          attempts := attempts + 1;
          if s.maxRedialAttempts < attempts {
            GoShutdown();
            return;
          }
        } else {
          GoShutdown();
          return;
        }
      }
    }

    /** The first half of a pass: errors, one command, all parcels. */
    method ReadChannels(s: Settings, crc: Bytes -> uint32, input: Input)
      modifies this
      ensures View() == Informed(s, crc, old(View()), input) && dialCount == old(dialCount)
    {
      var left := HandleNetErrors(false, input.errors);
      HandleCommand(s, input.command);
      ghost var was := View();
      for i := 0 to |input.parcels|
        invariant TakeParcels(s, crc, was, input.parcels, input.now)
               == TakeParcels(s, crc, View(), input.parcels[i..], input.now)
        invariant dialCount == old(dialCount)
      {
        HandleParcel(s, crc, input.parcels[i], input.now);
      }
    }

    /** The second half of a pass: what the state calls for. */
    method ActOnState(s: Settings, dials: Dials, now: int) returns (notified: bool)
      requires CanDial(View(), dials)
      modifies this
      ensures View() == Acted(s, old(View()), dials, now)
      ensures dialCount >= old(dialCount) && PassDials(s, old(View()), dials, dialCount - old(dialCount))
      ensures notified <==> old(state) == ShuttingDown
    {
      notified := false;
      match state
      case Initialized =>
        if s.minimumQuality > quality && !isPersistent {
          GoShutdown();
        } else {
          state := Offline;
          DialLoop(s, dials, now);
        }
      case Online =>
        PingPeer(s, now);
        if s.minimumQuality > quality && !isPersistent {
          GoShutdown();
        }
      case Offline =>
        if isOutGoing {
          DialLoop(s, dials, now);
        } else {
          GoShutdown();
        }
      case ShuttingDown =>
        state := Closed;
        notified := true;
      case Closed =>
    }

    /** One pass through the run loop; the controller is told when the connection is closed. */
    method RunLoopIteration(s: Settings, crc: Bytes -> uint32, input: Input) returns (notified: bool)
      requires state != Closed
      requires CanDial(View(), input.dials)
      modifies this
      ensures View() == Iterate(s, crc, old(View()), input)
      ensures dialCount >= old(dialCount)
      ensures PassDials(s, Informed(s, crc, old(View()), input), input.dials, dialCount - old(dialCount))
      ensures notified <==> state == Closed
    {
      InformedKeeps(s, crc, View(), input);
      ReadChannels(s, crc, input);
      notified := ActOnState(s, input.dials, input.now);
    }
  }

  // ---------------------------------------------------------------- what every pass keeps

  /** Reading the channels does not close a connection or change its kind. */
  lemma InformedKeeps(s: Settings, crc: Bytes -> uint32, c: Conn, i: Input)
    requires c.state != Closed
    ensures var d := Informed(s, crc, c, i);
            d.state != Closed && d.persistent == c.persistent && d.outgoing == c.outgoing
  {
    var afterErrors := if i.errors > 0 then WentOffline(c) else c;
    TakeCommandKeeps(s, afterErrors, i.command);
    TakeParcelsKeeps(s, crc, TakeCommand(s, afterErrors, i.command), i.parcels, i.now);
  }

  lemma TakeCommandKeeps(s: Settings, c: Conn, command: Option<Command>)
    requires c.state != Closed
    ensures var d := TakeCommand(s, c, command);
            d.state != Closed && d.persistent == c.persistent && d.outgoing == c.outgoing
  {
  }

  lemma {:induction false} TakeParcelsKeeps(s: Settings, crc: Bytes -> uint32, c: Conn, ps: seq<Parcel>, now: int)
    requires c.state != Closed
    ensures var d := TakeParcels(s, crc, c, ps, now);
            d.state != Closed && d.persistent == c.persistent && d.outgoing == c.outgoing
    decreases |ps|
  {
    if ps != [] {
      TakeParcelsKeeps(s, crc, TakeParcel(s, crc, c, ps[0], now), ps[1..], now);
    }
  }

  /** Attempts are counted only while online and never exceed the limit by more than one; the
      encoder and decoder are there exactly while online. */
  ghost predicate Sound(s: Settings, c: Conn) {
    && 0 <= c.attempts <= s.maxRedialAttempts + 1
    && (c.state != Online ==> c.attempts == 0)
    && (c.wired <==> c.state == Online)
  }

  lemma {:induction false} TakeParcelsSound(s: Settings, crc: Bytes -> uint32, c: Conn, ps: seq<Parcel>, now: int)
    requires Sound(s, c)
    ensures Sound(s, TakeParcels(s, crc, c, ps, now))
    decreases |ps|
  {
    if ps != [] {
      TakeParcelsSound(s, crc, TakeParcel(s, crc, c, ps[0], now), ps[1..], now);
    }
  }

  lemma IterateSound(s: Settings, crc: Bytes -> uint32, c: Conn, i: Input)
    requires Sound(s, c)
    ensures Sound(s, Iterate(s, crc, c, i))
  {
    var afterErrors := if i.errors > 0 then WentOffline(c) else c;
    TakeCommandSound(s, afterErrors, i.command);
    TakeParcelsSound(s, crc, TakeCommand(s, afterErrors, i.command), i.parcels, i.now);
    ActedSound(s, Informed(s, crc, c, i), i.dials, i.now);
  }

  lemma TakeCommandSound(s: Settings, c: Conn, command: Option<Command>)
    requires Sound(s, c)
    ensures Sound(s, TakeCommand(s, c, command))
  {
  }

  lemma ActedSound(s: Settings, c: Conn, dials: Dials, now: int)
    requires Sound(s, c)
    ensures Sound(s, Acted(s, c, dials, now))
  {
  }

  /** The connection after a run of passes. */
  ghost function After(s: Settings, crc: Bytes -> uint32, c: Conn, inputs: seq<Input>): Conn
    decreases |inputs|
  {
    if inputs == [] then c else After(s, crc, Iterate(s, crc, c, inputs[0]), inputs[1..])
  }

  /** A connection as Init or InitWithConn leaves it. */
  ghost predicate Fresh(c: Conn) {
    || (exists quality, persistent :: c == Conn(Initialized, 0, true, persistent, quality, 0, 0, false))
    || (exists quality, now :: c == WentOnline(Conn(Initialized, 0, false, false, quality, 0, 0, false), now))
  }

  lemma {:induction false} RunSound(s: Settings, crc: Bytes -> uint32, c: Conn, inputs: seq<Input>)
    requires Sound(s, c)
    ensures Sound(s, After(s, crc, c, inputs))
    decreases |inputs|
  {
    if inputs != [] {
      IterateSound(s, crc, c, inputs[0]);
      RunSound(s, crc, Iterate(s, crc, c, inputs[0]), inputs[1..]);
    }
  }

  /** At every pass boundary of every run of a fresh connection the invariant holds. */
  lemma FreshRunSound(s: Settings, crc: Bytes -> uint32, c: Conn, inputs: seq<Input>)
    requires Fresh(c)
    ensures Sound(s, After(s, crc, c, inputs))
  {
    RunSound(s, crc, c, inputs);
  }

  // ---------------------------------------------------------------- giving up on a silent peer

  /** Nothing arrives and no dial works. */
  ghost predicate Quiet(i: Input) {
    i.errors == 0 && i.command == None && i.parcels == [] && forall k: nat :: !i.dials(k)
  }

  /** Every pass is quiet and the clock advances by at least one unit per pass. */
  ghost predicate QuietRun(inputs: seq<Input>, start: int)
    decreases |inputs|
  {
    inputs == [] || (Quiet(inputs[0]) && start < inputs[0].now && QuietRun(inputs[1..], inputs[0].now))
  }

  function Max(a: int, b: int): int { if a < b then b else a }

  /** How long until the next ping is due, at most. */
  function Wait(s: Settings, c: Conn, now: int): nat {
    Max(0, s.pingInterval + 1 - (now - Max(c.lastContact, c.timeLastPing)))
  }

  /** The ranking function: what is left to do before the connection is closed, with every ping
      still to send counted with a full ping interval. */
  function Rank(s: Settings, c: Conn, now: int): nat {
    match c.state
    case Closed => 0
    case ShuttingDown => 1
    case Initialized => 2
    case Offline => 2
    case Online =>
      3 + Max(0, s.maxRedialAttempts + 1 - c.attempts) * (s.pingInterval + 2) + Wait(s, c, now)
  }

  /** A quiet pass only acts on the state. */
  lemma QuietIterate(s: Settings, crc: Bytes -> uint32, c: Conn, i: Input)
    requires Quiet(i) && !c.persistent && c.state != Closed
    ensures c.state == Online ==>
              var pinged := Pinged(s, c, i.now);
              Iterate(s, crc, c, i) == if TooPoor(s, pinged) then WentShutdown(pinged) else pinged
    ensures c.state == ShuttingDown ==> Iterate(s, crc, c, i) == c.(state := Closed)
    ensures c.state in {Initialized, Offline} ==> Iterate(s, crc, c, i).state == ShuttingDown
  {
  }

  /** Every quiet pass of a connection that is not persistent lowers the rank. */
  lemma RankDecreases(s: Settings, crc: Bytes -> uint32, c: Conn, i: Input, now: int)
    requires Quiet(i) && !c.persistent && c.state != Closed && now < i.now
    ensures Rank(s, Iterate(s, crc, c, i), i.now) < Rank(s, c, now)
    ensures !Iterate(s, crc, c, i).persistent
  {
    QuietIterate(s, crc, c, i);
    if c.state == Online {
      var d := Pinged(s, c, i.now);
      if PingDue(s, c, i.now) {
        if s.maxRedialAttempts >= c.attempts {
          assert Wait(s, d, i.now) == s.pingInterval + 1;
          RankOfPing(s.maxRedialAttempts + 1 - c.attempts, s.pingInterval);
        }
      } else {
        assert Wait(s, c, i.now) < Wait(s, c, now);
      }
    }
  }

  lemma RankOfPing(pings: nat, interval: nat)
    requires pings > 0
    ensures pings * (interval + 2) == (pings - 1) * (interval + 2) + interval + 2
  {
  }

  /** A connection that is not persistent, whose dials all fail and which hears nothing more, is
      closed after at most as many passes as its rank says. */
  lemma {:induction false} SilentPeerIsClosed(s: Settings, crc: Bytes -> uint32, c: Conn, inputs: seq<Input>, start: int)
    requires !c.persistent && QuietRun(inputs, start)
    requires |inputs| >= Rank(s, c, start)
    ensures After(s, crc, c, inputs).state == Closed
    decreases |inputs|
  {
    if c.state == Closed {
      ClosedStays(s, crc, c, inputs);
    } else {
      RankDecreases(s, crc, c, inputs[0], start);
      SilentPeerIsClosed(s, crc, Iterate(s, crc, c, inputs[0]), inputs[1..], inputs[0].now);
    }
  }

  lemma {:induction false} ClosedStays(s: Settings, crc: Bytes -> uint32, c: Conn, inputs: seq<Input>)
    requires c.state == Closed
    ensures After(s, crc, c, inputs) == c
    decreases |inputs|
  {
    if inputs != [] {
      ClosedStays(s, crc, c, inputs[1..]);
    }
  }

  /** The bound in numbers: pings with their intervals, and three more passes. */
  lemma RankBound(s: Settings, c: Conn, now: int)
    requires Sound(s, c) && c.lastContact <= now && c.timeLastPing <= now
    ensures Rank(s, c, now) <= (s.maxRedialAttempts + 2) * (s.pingInterval + 2) + 2
  {
    var pings := s.maxRedialAttempts + 1 - c.attempts;
    assert pings * (s.pingInterval + 2) <= (s.maxRedialAttempts + 1) * (s.pingInterval + 2) by {
      assert 0 <= pings <= s.maxRedialAttempts + 1;
    }
    assert (s.maxRedialAttempts + 2) * (s.pingInterval + 2)
        == (s.maxRedialAttempts + 1) * (s.pingInterval + 2) + s.pingInterval + 2;
  }

  /** Pings sent and dials made in one pass of a quiet run. */
  ghost function PingsIn(s: Settings, c: Conn, i: Input): nat {
    if c.state == Online && PingDue(s, c, i.now) && c.attempts <= s.maxRedialAttempts then 1 else 0
  }

  ghost function DialsIn(s: Settings, c: Conn): nat {
    if c.state == Initialized && !TooPoor(s, c) then TriesLeft(s, c.(state := Offline))
    else if c.state == Offline && c.outgoing then TriesLeft(s, c)
    else 0
  }

  /** A quiet pass makes exactly these dials. */
  lemma QuietPassDials(s: Settings, crc: Bytes -> uint32, c: Conn, i: Input, n: nat)
    requires Quiet(i) && !c.persistent
    requires PassDials(s, Informed(s, crc, c, i), i.dials, n)
    ensures n == DialsIn(s, c)
  {
    assert Informed(s, crc, c, i) == c;
  }

  ghost function PingsOf(s: Settings, crc: Bytes -> uint32, c: Conn, inputs: seq<Input>): nat
    decreases |inputs|
  {
    if inputs == [] then 0
    else PingsIn(s, c, inputs[0]) + PingsOf(s, crc, Iterate(s, crc, c, inputs[0]), inputs[1..])
  }

  ghost function DialsOf(s: Settings, crc: Bytes -> uint32, c: Conn, inputs: seq<Input>): nat
    decreases |inputs|
  {
    if inputs == [] then 0
    else DialsIn(s, c) + DialsOf(s, crc, Iterate(s, crc, c, inputs[0]), inputs[1..])
  }

  /** What a quiet connection may still cost. */
  function PingBudget(s: Settings, c: Conn): nat {
    if c.state == Online then Max(0, s.maxRedialAttempts + 1 - c.attempts) else 0
  }

  function DialBudget(s: Settings, c: Conn): nat {
    if c.state in {Closed, ShuttingDown} then 0 else s.maxRedialAttempts + 1
  }

  /** A silent peer costs at most the missing pings and one round of dials, where the dials are those
      every quiet pass makes. */
  lemma {:induction false} SilentPeerCosts(s: Settings, crc: Bytes -> uint32, c: Conn, inputs: seq<Input>, start: int)
    requires !c.persistent && Sound(s, c) && QuietRun(inputs, start)
    ensures PingsOf(s, crc, c, inputs) <= PingBudget(s, c)
    ensures DialsOf(s, crc, c, inputs) <= DialBudget(s, c)
    decreases |inputs|
  {
    if inputs != [] {
      var d := Iterate(s, crc, c, inputs[0]);
      IterateSound(s, crc, c, inputs[0]);
      if c.state != Closed {
        QuietIterate(s, crc, c, inputs[0]);
        RankDecreases(s, crc, c, inputs[0], start);
      }
      assert PingsIn(s, c, inputs[0]) + PingBudget(s, d) <= PingBudget(s, c);
      assert DialsIn(s, c) + DialBudget(s, d) <= DialBudget(s, c);
      SilentPeerCosts(s, crc, d, inputs[1..], inputs[0].now);
    }
  }

  // ---------------------------------------------------------------- keeping a live peer

  function Messages(ps: seq<Parcel>): (n: nat)
    ensures n <= |ps|
  {
    if ps == [] then 0
    else (if ps[0].header.kind in {Message, MessagePart} then 1 else 0) + Messages(ps[1..])
  }

  ghost predicate AllValid(s: Settings, crc: Bytes -> uint32, ps: seq<Parcel>) {
    forall k :: 0 <= k < |ps| ==> Judge(s, crc, ps[k]) == ParcelValid
  }

  lemma ValidParcelEarns(s: Settings, crc: Bytes -> uint32, c: Conn, p: Parcel, now: int)
    requires Judge(s, crc, p) == ParcelValid && -0x8000_0000 <= c.quality && c.quality + 2 <= 2147483000
    ensures TakeParcel(s, crc, c, p, now)
         == c.(lastContact := now, attempts := 0, quality := c.quality + 1 + Messages([p]))
  {
  }

  /** Valid parcels earn a point each, and messages another, as long as the score is far from the largest
      number; the peer counts as heard from, and nothing else changes. */
  lemma {:induction false} ValidParcelsEarn(s: Settings, crc: Bytes -> uint32, c: Conn, ps: seq<Parcel>, now: int)
    requires ps != [] && AllValid(s, crc, ps) && -0x8000_0000 <= c.quality && c.quality + 2 * |ps| <= 2147483000
    ensures TakeParcels(s, crc, c, ps, now)
         == c.(lastContact := now, attempts := 0, quality := c.quality + |ps| + Messages(ps))
    decreases |ps|
  {
    var rest := ps[1..];
    assert Judge(s, crc, ps[0]) == ParcelValid;
    ValidParcelEarns(s, crc, c, ps[0], now);
    if rest != [] {
      assert AllValid(s, crc, rest);
      ValidParcelsEarn(s, crc, TakeParcel(s, crc, c, ps[0], now), rest, now);
    }
  }

  /** A pass in which the peer is heard from and nothing goes wrong. */
  ghost predicate Lively(s: Settings, crc: Bytes -> uint32, i: Input) {
    i.errors == 0 && i.command == None && i.parcels != [] && AllValid(s, crc, i.parcels)
  }

  function ParcelsIn(inputs: seq<Input>): nat {
    if inputs == [] then 0 else |inputs[0].parcels| + ParcelsIn(inputs[1..])
  }

  /** A peer that is heard from in every pass stays online, is never pinged and only gains points. */
  lemma {:induction false} LivePeerStays(s: Settings, crc: Bytes -> uint32, c: Conn, inputs: seq<Input>)
    requires c.state == Online && s.minimumQuality <= c.quality && -0x8000_0000 <= c.quality
    requires forall k :: 0 <= k < |inputs| ==> Lively(s, crc, inputs[k])
    requires c.quality + 2 * ParcelsIn(inputs) <= 2147483000
    ensures var d := After(s, crc, c, inputs);
            && d.state == Online && d.timeLastPing == c.timeLastPing && c.quality + |inputs| <= d.quality
            && (inputs != [] ==> d.attempts == 0 && d.lastContact == inputs[|inputs| - 1].now)
    decreases |inputs|
  {
    if inputs != [] {
      var i, rest := inputs[0], inputs[1..];
      assert Lively(s, crc, i);
      ValidParcelsEarn(s, crc, c, i.parcels, i.now);
      var d := Iterate(s, crc, c, i);
      assert d == Informed(s, crc, c, i);
      LivePeerStays(s, crc, d, rest);
    }
  }

  /** A connection that has just come online is pinged once the interval has passed, and has all its pings. */
  lemma OnlineStartsAfresh(s: Settings, c: Conn, now: int, later: int)
    ensures PingDue(s, WentOnline(c, now), later) <==> later - now > s.pingInterval
    ensures PingBudget(s, WentOnline(c, now)) == s.maxRedialAttempts + 1
  {
  }

  /** A ping is not repeated before the interval has passed. */
  lemma PingIsNotRepeated(s: Settings, c: Conn, now: int, later: int)
    requires PingDue(s, c, now) && c.attempts <= s.maxRedialAttempts && later - now <= s.pingInterval
    ensures !PingDue(s, Pinged(s, c, now), later)
  {
  }

  /** A connection to ourselves ends with a score below the minimum. */
  lemma OwnParcelEnds(s: Settings, crc: Bytes -> uint32, c: Conn, p: Parcel, now: int)
    requires OriginOf(p).nodeID == s.nodeID && -0x8000_0000 + 50 <= s.minimumQuality < 0x8000_0000
    ensures var d := TakeParcel(s, crc, c, p, now);
            d.state == ShuttingDown && d.quality < s.minimumQuality && (TooPoor(s, d) <==> !c.persistent)
  {
  }

  /** What discovery knows of a peer can only lower the score of its connection. */
  lemma UpdateOnlyLowers(s: Settings, c: Conn, q: int)
    ensures var d := TakeCommand(s, c, Some(UpdatingPeer(q)));
            d.quality <= c.quality && d.quality <= q && d.quality in {q, c.quality} && d == c.(quality := d.quality)
  {
  }

  /** When acting on the state gives a connection up: a persistent one only if it is offline and came in. */
  lemma GivesUpIff(s: Settings, c: Conn, dials: Dials, now: int)
    ensures var gone := Acted(s, c, dials, now).state == ShuttingDown;
            && (c.persistent ==> (gone <==> c.state == Offline && !c.outgoing))
            && (!c.persistent ==>
                  (gone <==>
                     || (c.state in {Initialized, Online} && c.quality < s.minimumQuality)
                     || (c.state == Offline && !c.outgoing)
                     || (c.state == Offline && !SomeDialWorks(dials, TriesLeft(s, c)))
                     || (c.state == Initialized && !SomeDialWorks(dials, TriesLeft(s, c.(state := Offline))))))
  {
  }

  // ---------------------------------------------------------------- meaning of a verdict

  /** What a verdict means: a parcel disconnects the peer exactly if it is our own, of another network or of
      too old a version; of the rest, those are valid whose header describes the payload. */
  lemma VerdictsExactly(s: Settings, net: Network, p: Parcel)
    ensures Judge(s, net.crc, p) == ParcelValid <==> Acceptable(s, p) && Describes(net, p)
    ensures Judge(s, net.crc, p) == InvalidDisconnectPeer <==> !Acceptable(s, p)
  {
  }

  ghost predicate Acceptable(s: Settings, p: Parcel) {
    OriginOf(p).nodeID != s.nodeID && OriginOf(p).network == s.network && s.versionMinimum <= p.header.version
  }

  /** A parcel damaged on the way is not taken: another payload under the same header is refused, if its
      length (modulo the width of the field) or its checksum differs. */
  lemma DamagedIsRefused(s: Settings, net: Network, p: Parcel, payload: Bytes)
    requires Judge(s, net.crc, p) == ParcelValid
    requires ToUint32(|payload|) != ToUint32(|p.payload|) || net.crc(payload) != net.crc(p.payload)
    ensures Judge(s, net.crc, p.(payload := payload)) == InvalidPeerDemerit
  {
  }

  /** What the assembler makes of parts of one origin is valid to every other node of the network, and so
      are the parts. */
  lemma AssembledIsValid(s: Settings, net: Network, parcels: seq<Parcel>, origin: Origin)
    requires parcels != [] && forall i :: 0 <= i < |parcels| ==> OriginOf(parcels[i]) == origin
    requires origin.nodeID != s.nodeID && origin.network == s.network && s.versionMinimum <= PROTOCOL_VERSION
    ensures Judge(s, net.crc, Reassembled(net, parcels)) == ParcelValid
  {
    ReassembledKeepsOrigin(net, parcels, origin);
    VerdictsExactly(s, net, Reassembled(net, parcels));
  }

  /** A parcel a node makes for a network is valid to every other node of that network that runs
      the same checksum and accepts its version. */
  lemma OwnParcelsAreValid(s: Settings, net: Network, payload: Bytes, nodeID: nat)
    requires nodeID != s.nodeID && s.versionMinimum <= PROTOCOL_VERSION
    ensures var p := NewParcel(net, s.network, payload);
            Judge(s, net.crc, p.(header := p.header.(nodeID := nodeID))) == ParcelValid
  {
  }

  // ---------------------------------------------------------------- what the comments promise

  /** A parcel that disconnects the peer. */
  ghost predicate Disconnects(s: Settings, crc: Bytes -> uint32, ps: seq<Parcel>) {
    exists k :: 0 <= k < |ps| && Judge(s, crc, ps[k]) == InvalidDisconnectPeer
  }

  /** A command that shuts the connection down. */
  predicate ShutsDown(s: Settings, quality: int, command: Option<Command>) {
    && command.Some?
    && (command.value.ShutdownNow?
        || (command.value.AdjustPeerQuality? && s.minimumQuality > Wrap32(quality + command.value.delta)))
  }

  /** Parcels shut a connection down if one of them disconnects, and leave its state alone otherwise. */
  lemma {:induction false} ParcelsDecideState(s: Settings, crc: Bytes -> uint32, c: Conn, ps: seq<Parcel>, now: int)
    ensures TakeParcels(s, crc, c, ps, now).state == if Disconnects(s, crc, ps) then ShuttingDown else c.state
    decreases |ps|
  {
    if ps != [] {
      var d := TakeParcel(s, crc, c, ps[0], now);
      ParcelsDecideState(s, crc, d, ps[1..], now);
      if Disconnects(s, crc, ps[1..]) {
        var k :| 0 <= k < |ps[1..]| && Judge(s, crc, ps[1..][k]) == InvalidDisconnectPeer;
        assert Judge(s, crc, ps[k + 1]) == InvalidDisconnectPeer;
      } else {
        forall k | 1 <= k < |ps|
          ensures Judge(s, crc, ps[k]) != InvalidDisconnectPeer
        {
          assert Judge(s, crc, ps[1..][k - 1]) != InvalidDisconnectPeer;
        }
      }
    }
  }

  /** A connection that is shutting down is closed by the next pass if and only if nothing brings it back
      offline in that pass, or something shuts it down again: a pending error or a command to go offline
      does bring it back, unless a command or a parcel of the same pass shuts it down after that. */
  lemma ShutdownIsFinalIff(s: Settings, crc: Bytes -> uint32, c: Conn, i: Input)
    requires c.state == ShuttingDown
    ensures Iterate(s, crc, c, i).state == Closed <==>
              || Disconnects(s, crc, i.parcels)
              || ShutsDown(s, c.quality, i.command)
              || (i.errors == 0 && i.command != Some(GoOfflineNow))
  {
    var afterErrors := if i.errors > 0 then WentOffline(c) else c;
    var afterCommand := TakeCommand(s, afterErrors, i.command);
    assert afterCommand.state == ShuttingDown <==>
      ShutsDown(s, c.quality, i.command) || (i.errors == 0 && i.command != Some(GoOfflineNow));
    ParcelsDecideState(s, crc, afterCommand, i.parcels, i.now);
  }

  /** A pending error brings a connection that is shutting down back to offline, and an outgoing one
      may then dial and be online again. */
  lemma ShuttingDownIsNotFinal(s: Settings, crc: Bytes -> uint32, c: Conn, i: Input)
    requires c.state == ShuttingDown && c.outgoing
    requires i.errors > 0 && i.command == None && i.parcels == [] && i.dials(0)
    ensures Iterate(s, crc, c, i).state == Online
  {
    var d := WentOffline(c);
    assert Informed(s, crc, c, i) == d;
    assert SomeDialWorks(i.dials, TriesLeft(s, d));
  }

  /** An initialized connection dials exactly once if and only if its first dial works, or it is not
      persistent and no redial is allowed; otherwise it goes on dialing. */
  lemma InitializedDialsOnceIff(s: Settings, c: Conn, dials: Dials, n: nat)
    requires c.state == Initialized && c.attempts == 0 && !TooPoor(s, c)
    requires PassDials(s, c, dials, n)
    ensures n == 1 <==> dials(0) || (!c.persistent && s.maxRedialAttempts == 0)
    ensures !c.persistent && !SomeDialWorks(dials, s.maxRedialAttempts + 1) ==> n == s.maxRedialAttempts + 1
  {
    assert n > 1 ==> !dials(0);
    if !c.persistent && !SomeDialWorks(dials, s.maxRedialAttempts + 1) {
      var last: nat := n - 1;
      assert !dials(last);
    }
  }

  /** A dial that fails where one redial is allowed is followed by a second one. */
  lemma InitializedDialsTwice(s: Settings, c: Conn)
    requires s.maxRedialAttempts == 1 && s.minimumQuality <= 0
    requires c == Conn(Initialized, 0, true, false, 0, 0, 0, false)
    ensures PassDials(s, c, _ => false, 2) && !PassDials(s, c, _ => false, 1)
  {
  }
}
