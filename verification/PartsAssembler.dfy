/** The parts assembler (p2p/parts_assembler.go): joins message parts that arrive in any order,
    repeated, mixed with the parts of other messages, and forgets messages that stall. */
module PartsAssembler {
  import opened Options
  import opened Parcels

  /** Ten minutes, in nanoseconds. */
  const MAX_TIME_WAITING_FOR_REASSEMBLY: int := 600_000_000_000

  datatype PartialMessage = PartialMessage(parts: seq<Option<Parcel>>, firstPartReceived: int,
                                           mostRecentPartReceived: int)

  type Messages = map<string, PartialMessage>

  // ---------------------------------------------------------------- what is stored

  ghost predicate PartStored(appHash: string, parts: seq<Option<Parcel>>, i: nat)
    requires i < |parts|
  {
    parts[i].Some? ==>
      && parts[i].value.header.partNo == i
      && parts[i].value.header.partsTotal == |parts|
      && parts[i].value.header.appHash == appHash
  }

  ghost predicate SomePresent(parts: seq<Option<Parcel>>) {
    exists i :: 0 <= i < |parts| && parts[i].Some?
  }

  predicate AllPresent(parts: seq<Option<Parcel>>) {
    forall i :: 0 <= i < |parts| ==> parts[i].Some?
  }

  /** Part `i` is kept at index `i`; something has arrived and something is missing. */
  ghost predicate WellStored(appHash: string, partial: PartialMessage) {
    && |partial.parts| < 0x1_0000
    && (forall i :: 0 <= i < |partial.parts| ==> PartStored(appHash, partial.parts, i))
    && SomePresent(partial.parts)
    && !AllPresent(partial.parts)
  }

  ghost predicate WellFormed(m: Messages) {
    forall h :: h in m ==> WellStored(h, m[h])
  }

  // ---------------------------------------------------------------- one arrival

  function Lookup(m: Messages, h: string): Option<PartialMessage> {
    if h in m then Some(m[h]) else None
  }

  predicate ValidPart(parcel: Parcel, partial: Option<PartialMessage>) {
    && parcel.header.partsTotal > 0
    && parcel.header.partNo < parcel.header.partsTotal
    && (partial.Some? ==> parcel.header.partsTotal == ToUint16(|partial.value.parts|))
  }

  function CreateNewPartialMessage(parcel: Parcel, now: int): PartialMessage {
    PartialMessage(seq(parcel.header.partsTotal, _ => None), now, 0)
  }

  /** The partial message with one more part in it. */
  function WithPart(partial: Option<PartialMessage>, parcel: Parcel, now: int): PartialMessage
    requires partial.Some? ==> |partial.value.parts| < 0x1_0000
    requires ValidPart(parcel, partial)
  {
    var p := partial.GetOr(CreateNewPartialMessage(parcel, now));
    PartialMessage(p.parts[parcel.header.partNo := Some(parcel)], p.firstPartReceived, now)
  }

  function Present(parts: seq<Option<Parcel>>): (ps: seq<Parcel>)
    requires AllPresent(parts)
    ensures |ps| == |parts| && forall i :: 0 <= i < |parts| ==> ps[i] == parts[i].value
  {
    seq(|parts|, i requires 0 <= i < |parts| => parts[i].value)
  }

  predicate Stale(partial: PartialMessage, sweep: int) {
    sweep - partial.mostRecentPartReceived > MAX_TIME_WAITING_FOR_REASSEMBLY
  }

  /** The messages that have not stalled. */
  function Swept(m: Messages, sweep: Clock): Messages {
    map h | h in m && !Stale(m[h], sweep(h)) :: m[h]
  }

  /** The clock of a cleanup, which reads the time anew for each stored message. */
  type Clock = string -> int

  /** A part arriving at time `now`, with the clock of the cleanup that follows it. */
  datatype Arrival = Arrival(parcel: Parcel, now: int, sweep: Clock)
  datatype Step = Step(messages: Messages, out: Option<Parcel>)

  predicate Accepts(m: Messages, parcel: Parcel) {
    ValidPart(parcel, Lookup(m, parcel.header.appHash))
  }

  /** What one arrival does: an invalid part changes nothing; a part that completes its message
      delivers it and forgets it; any other part is stored. Then stalled messages go. */
  function Handle(net: Network, m: Messages, a: Arrival): Step
    requires WellFormed(m)
  {
    var h := a.parcel.header.appHash;
    if !Accepts(m, a.parcel) then Step(m, None)
    else
      var partial := WithPart(Lookup(m, h), a.parcel, a.now);
      if AllPresent(partial.parts)
      then Step(Swept(m - {h}, a.sweep), Some(Reassembled(net, Present(partial.parts))))
      else Step(Swept(m[h := partial], a.sweep), None)
  }

  lemma WithPartStored(h: string, partial: Option<PartialMessage>, parcel: Parcel, now: int)
    requires partial.Some? ==> WellStored(h, partial.value)
    requires ValidPart(parcel, partial) && parcel.header.appHash == h
    ensures var q := WithPart(partial, parcel, now);
            && 0 < |q.parts| == parcel.header.partsTotal < 0x1_0000
            && (forall i :: 0 <= i < |q.parts| ==> PartStored(h, q.parts, i))
            && SomePresent(q.parts)
            && q.mostRecentPartReceived == now
            && q.firstPartReceived == if partial.Some? then partial.value.firstPartReceived else now
  {
    var q := WithPart(partial, parcel, now);
    var before := partial.GetOr(CreateNewPartialMessage(parcel, now)).parts;
    forall i | 0 <= i < |q.parts|
      ensures PartStored(h, q.parts, i)
    {
      assert PartStored(h, before, i);
    }
    assert q.parts[parcel.header.partNo].Some?;
  }

  /** The store stays well formed, and a delivered message was never empty. */
  lemma HandleKeepsWellFormed(net: Network, m: Messages, a: Arrival)
    requires WellFormed(m)
    ensures WellFormed(Handle(net, m, a).messages)
  {
    var h := a.parcel.header.appHash;
    if Accepts(m, a.parcel) {
      WithPartStored(h, Lookup(m, h), a.parcel, a.now);
    }
  }

  // ---------------------------------------------------------------- the assembler

  lemma DropUpdated(m: Messages, h: string, partial: PartialMessage)
    ensures m[h := partial] - {h} == m - {h}
  {
  }

  class PartsAssembler {
    var messages: Messages

    ghost predicate Valid()
      reads this
    {
      WellFormed(messages)
    }

    constructor ()
      ensures Valid() && messages == map[]
    {
      messages := map[];
    }

    /** Returns the assembled message, or nothing. */
    method HandlePart(net: Network, parcel: Parcel, now: int, sweep: Clock) returns (fullParcel: Option<Parcel>)
      requires Valid()
      modifies this
      ensures Valid()
      ensures Step(messages, fullParcel) == old(Handle(net, messages, Arrival(parcel, now, sweep)))
    {
      HandleKeepsWellFormed(net, messages, Arrival(parcel, now, sweep));
      var appHash := parcel.header.appHash;
      var valid := ValidateParcelPart(parcel, Lookup(messages, appHash));
      if !valid {
        return None;
      }
      WithPartStored(appHash, Lookup(messages, appHash), parcel, now);
      DropUpdated(messages, appHash, WithPart(Lookup(messages, appHash), parcel, now));
      var partial := StorePart(parcel, now);
      fullParcel := TryReassemblingMessage(net, partial);
      if fullParcel.Some? {
        messages := messages - {appHash};
      }
      CleanupOldPartialMessages(sweep);
    }

    /** The middle of HandlePart: finds or makes the partial message and puts the part into it. */
    method StorePart(parcel: Parcel, now: int) returns (partial: PartialMessage)
      requires Valid() && Accepts(messages, parcel)
      modifies this
      ensures partial == old(WithPart(Lookup(messages, parcel.header.appHash), parcel, now))
      ensures messages == old(messages)[parcel.header.appHash := partial]
    {
      var appHash := parcel.header.appHash;
      if appHash in messages {
        partial := messages[appHash];
      } else {
        partial := CreateNewPartialMessage(parcel, now);
        messages := messages[appHash := partial];
      }
      partial := partial.(parts := partial.parts[parcel.header.partNo := Some(parcel)]);
      partial := partial.(mostRecentPartReceived := now);
      messages := messages[appHash := partial];
    }

    /** Deletes exactly the messages that have waited too long since their last part. */
    method CleanupOldPartialMessages(sweep: Clock)
      modifies this
      ensures messages == Swept(old(messages), sweep)
    {
      var todo := messages.Keys;
      ghost var was := messages;
      while todo != {}
        invariant todo <= was.Keys
        invariant messages.Keys <= was.Keys
        invariant forall h :: h in was ==> (h in messages <==> h in todo || !Stale(was[h], sweep(h)))
        invariant forall h :: h in messages ==> messages[h] == was[h]
        decreases |todo|
      {
        var appHash :| appHash in todo;
        if Stale(messages[appHash], sweep(appHash)) {
          messages := messages - {appHash};
        }
        todo := todo - {appHash};
      }
    }
  }

  /** The checks in the order the source makes them. */
  method ValidateParcelPart(parcel: Parcel, partial: Option<PartialMessage>) returns (isValid: bool)
    ensures isValid <==> ValidPart(parcel, partial)
  {
    if parcel.header.partsTotal <= 0 {
      return false;
    }
    if parcel.header.partNo >= parcel.header.partsTotal {
      return false;
    }
    if partial.Some? && parcel.header.partsTotal != ToUint16(|partial.value.parts|) {
      return false;
    }
    return true;
  }

  method TryReassemblingMessage(net: Network, partial: PartialMessage) returns (r: Option<Parcel>)
    requires partial.parts != []
    ensures r.Some? <==> AllPresent(partial.parts)
    ensures r.Some? ==> r.value == Reassembled(net, Present(partial.parts))
  {
    var parcels: seq<Parcel> := [];
    for i := 0 to |partial.parts|
      invariant |parcels| == i
      invariant forall k :: 0 <= k < i ==> partial.parts[k] == Some(parcels[k])
    {
      if partial.parts[i] == None {
        return None;
      }
      parcels := parcels + [partial.parts[i].value];
    }
    assert parcels == Present(partial.parts);
    var p := ReassembleParcel(net, parcels);
    return Some(p);
  }

  // ---------------------------------------------------------------- whole runs

  /** The store after a run. */
  ghost function After(net: Network, arrivals: seq<Arrival>): (m: Messages)
    ensures WellFormed(m)
  {
    if arrivals == [] then map[]
    else
      var m := After(net, arrivals[..|arrivals| - 1]);
      var a := arrivals[|arrivals| - 1];
      HandleKeepsWellFormed(net, m, a);
      Handle(net, m, a).messages
  }

  /** What the `n`-th arrival of a run makes the assembler return. */
  ghost function Output(net: Network, arrivals: seq<Arrival>, n: nat): Option<Parcel>
    requires n < |arrivals|
  {
    Handle(net, After(net, arrivals[..n]), arrivals[n]).out
  }

  /** A message: its application hash and payload. */
  datatype Message = Message(appHash: string, payload: Bytes)

  ghost predicate IsPartOf(net: Network, msg: Message, p: Parcel)
    requires net.maxPayload > 0
  {
    && p.header.appHash == msg.appHash
    && p.header.partsTotal == PartCount(net, msg.payload)
    && p.header.partNo < PartCount(net, msg.payload)
    && p.payload == Chunk(net, msg.payload, p.header.partNo)
  }

  predicate Concerns(msg: Message, a: Arrival) {
    a.parcel.header.appHash == msg.appHash
  }

  /** Nobody else uses the message's application hash. */
  ghost predicate OnlyPartsOf(net: Network, msg: Message, arrivals: seq<Arrival>)
    requires net.maxPayload > 0
  {
    forall n :: 0 <= n < |arrivals| && Concerns(msg, arrivals[n]) ==> IsPartOf(net, msg, arrivals[n].parcel)
  }

  /** The reference: the parts of a message received since it was last delivered or dropped, and
      when the last of them came. */
  datatype Progress = Progress(received: set<nat>, last: int)

  predicate Complete(received: set<nat>, count: nat) {
    forall i: nat :: i < count ==> i in received
  }

  /** How far a message is after one more arrival, given whether the assembler took the part. */
  function Advance(msg: Message, count: nat, pr: Progress, a: Arrival, accepted: bool): Progress {
    if !accepted then pr
    else
      var next := if Concerns(msg, a) then Progress(pr.received + {a.parcel.header.partNo as nat}, a.now) else pr;
      if Complete(next.received, count)
         || a.sweep(msg.appHash) - next.last > MAX_TIME_WAITING_FOR_REASSEMBLY
      then Progress({}, next.last) else next
  }

  ghost function Track(net: Network, msg: Message, arrivals: seq<Arrival>): Progress
    requires net.maxPayload > 0
  {
    if arrivals == [] then Progress({}, 0)
    else
      var before := arrivals[..|arrivals| - 1];
      var a := arrivals[|arrivals| - 1];
      Advance(msg, PartCount(net, msg.payload), Track(net, msg, before), a,
              Accepts(After(net, before), a.parcel))
  }

  /** The stored parts are exactly the received ones, each at its own index. */
  ghost predicate Holds(net: Network, msg: Message, parts: seq<Option<Parcel>>, received: set<nat>)
    requires net.maxPayload > 0
  {
    && |parts| == PartCount(net, msg.payload)
    && forall i :: 0 <= i < |parts| ==>
         && (parts[i].Some? <==> i in received)
         && (parts[i].Some? ==> IsPartOf(net, msg, parts[i].value) && parts[i].value.header.partNo == i)
  }

  /** The store has exactly what the reference says of the message. */
  ghost predicate Mirrors(net: Network, msg: Message, m: Messages, pr: Progress)
    requires net.maxPayload > 0
  {
    var h := msg.appHash;
    && !Complete(pr.received, PartCount(net, msg.payload))
    && (h in m <==> pr.received != {})
    && (h in m ==> m[h].mostRecentPartReceived == pr.last && Holds(net, msg, m[h].parts, pr.received))
  }

  /** Storing a part of the message adds its number to the received ones. */
  lemma StoringAdds(net: Network, msg: Message, m: Messages, pr: Progress, a: Arrival)
    requires net.maxPayload > 0 && PartCount(net, msg.payload) < 0x1_0000
    requires WellFormed(m) && Mirrors(net, msg, m, pr)
    requires IsPartOf(net, msg, a.parcel)
    ensures Accepts(m, a.parcel)
    ensures Holds(net, msg, WithPart(Lookup(m, msg.appHash), a.parcel, a.now).parts,
                  pr.received + {a.parcel.header.partNo as nat})
  {
  }

  lemma HoldsAll(net: Network, msg: Message, parts: seq<Option<Parcel>>, received: set<nat>)
    requires net.maxPayload > 0 && Holds(net, msg, parts, received)
    ensures AllPresent(parts) <==> Complete(received, PartCount(net, msg.payload))
    ensures AllPresent(parts) ==> parts != [] && Reassembled(net, Present(parts)).payload == msg.payload
  {
    if AllPresent(parts) {
      assert forall i :: 0 <= i < |parts| ==> parts[i].Some? && i in received;
      var ps := Present(parts);
      forall i | 0 <= i < |ps|
        ensures ps[i].payload == Chunk(net, msg.payload, i)
      {
        assert parts[i].Some?;
      }
      JoinedChunks(net, msg.payload, ps);
      ChunksCoverPayload(net, msg.payload);
    } else {
      var i :| 0 <= i < |parts| && parts[i].None?;
      assert i !in received;
    }
  }

  /** A part of the message is always taken, and delivers the payload exactly when it completes
      the received parts; the mirror is kept. */
  lemma PartMirrors(net: Network, msg: Message, m: Messages, pr: Progress, a: Arrival)
    requires net.maxPayload > 0 && PartCount(net, msg.payload) < 0x1_0000
    requires WellFormed(m) && Mirrors(net, msg, m, pr)
    requires IsPartOf(net, msg, a.parcel)
    ensures Accepts(m, a.parcel)
    ensures var out := Handle(net, m, a).out;
            && (out.Some? <==> Complete(pr.received + {a.parcel.header.partNo as nat}, PartCount(net, msg.payload)))
            && (out.Some? ==> out.value.payload == msg.payload)
    ensures Mirrors(net, msg, Handle(net, m, a).messages, Advance(msg, PartCount(net, msg.payload), pr, a, true))
  {
    StoringAdds(net, msg, m, pr, a);
    var q := WithPart(Lookup(m, msg.appHash), a.parcel, a.now);
    var received := pr.received + {a.parcel.header.partNo as nat};
    HoldsAll(net, msg, q.parts, received);
    assert a.parcel.header.partNo as nat in received;
    NothingIncomplete(net, msg);
  }

  lemma NothingIncomplete(net: Network, msg: Message)
    requires net.maxPayload > 0
    ensures !Complete({}, PartCount(net, msg.payload))
  {
    var none: set<nat> := {};
    assert !(0 in none);
  }

  /** Parts of other messages leave this one alone, except that their cleanup may drop it. */
  lemma OtherMirrors(net: Network, msg: Message, m: Messages, pr: Progress, a: Arrival)
    requires net.maxPayload > 0
    requires WellFormed(m) && Mirrors(net, msg, m, pr)
    requires !Concerns(msg, a)
    ensures Mirrors(net, msg, Handle(net, m, a).messages,
                    Advance(msg, PartCount(net, msg.payload), pr, a, Accepts(m, a.parcel)))
  {
    NothingIncomplete(net, msg);
  }

  lemma StepMirrors(net: Network, msg: Message, m: Messages, pr: Progress, a: Arrival)
    requires net.maxPayload > 0 && PartCount(net, msg.payload) < 0x1_0000
    requires WellFormed(m) && Mirrors(net, msg, m, pr)
    requires Concerns(msg, a) ==> IsPartOf(net, msg, a.parcel)
    ensures Mirrors(net, msg, Handle(net, m, a).messages,
                    Advance(msg, PartCount(net, msg.payload), pr, a, Accepts(m, a.parcel)))
  {
    if Concerns(msg, a) {
      PartMirrors(net, msg, m, pr, a);
    } else {
      OtherMirrors(net, msg, m, pr, a);
    }
  }

  lemma {:induction false} RunMirrors(net: Network, msg: Message, arrivals: seq<Arrival>)
    requires net.maxPayload > 0 && PartCount(net, msg.payload) < 0x1_0000
    requires OnlyPartsOf(net, msg, arrivals)
    ensures Mirrors(net, msg, After(net, arrivals), Track(net, msg, arrivals))
    decreases |arrivals|
  {
    if arrivals == [] {
      NothingIncomplete(net, msg);
    } else {
      var before := arrivals[..|arrivals| - 1];
      RunMirrors(net, msg, before);
      StepMirrors(net, msg, After(net, before), Track(net, msg, before), arrivals[|arrivals| - 1]);
    }
  }

  /** Whatever the order, the repetitions, the other messages and the timing: an arriving part of
      a message makes the assembler deliver something exactly when it completes the parts received
      since the message was last delivered or dropped, and what it delivers is the payload. */
  lemma DeliversExactlyOnCompletion(net: Network, msg: Message, arrivals: seq<Arrival>, n: nat)
    requires net.maxPayload > 0 && PartCount(net, msg.payload) < 0x1_0000
    requires OnlyPartsOf(net, msg, arrivals)
    requires n < |arrivals| && Concerns(msg, arrivals[n])
    ensures Output(net, arrivals, n).Some? <==>
              Complete(Track(net, msg, arrivals[..n]).received + {arrivals[n].parcel.header.partNo as nat},
                       PartCount(net, msg.payload))
    ensures Output(net, arrivals, n).Some? ==> Output(net, arrivals, n).value.payload == msg.payload
  {
    RunMirrors(net, msg, arrivals[..n]);
    PartMirrors(net, msg, After(net, arrivals[..n]), Track(net, msg, arrivals[..n]), arrivals[n]);
  }

  // ---------------------------------------------------------------- where a delivered message comes from

  /** Every part kept for a message is one that arrived. */
  ghost predicate PartsArrived(m: Messages, h: string, arrivals: seq<Arrival>) {
    h in m ==> forall i :: 0 <= i < |m[h].parts| && m[h].parts[i].Some? ==> HasArrived(m[h].parts[i].value, h, arrivals)
  }

  ghost predicate HasArrived(p: Parcel, h: string, arrivals: seq<Arrival>) {
    exists k :: 0 <= k < |arrivals| && arrivals[k].parcel == p && p.header.appHash == h
  }

  lemma {:induction false} StoredHasArrived(net: Network, arrivals: seq<Arrival>, h: string)
    ensures PartsArrived(After(net, arrivals), h, arrivals)
    decreases |arrivals|
  {
    if arrivals != [] {
      var last := |arrivals| - 1;
      var before, a := arrivals[..last], arrivals[last];
      StoredHasArrived(net, before, h);
      var was, m := After(net, before), After(net, arrivals);
      if h in m {
        forall i | 0 <= i < |m[h].parts| && m[h].parts[i].Some?
          ensures HasArrived(m[h].parts[i].value, h, arrivals)
        {
          ArrivedOrNew(net, was, a, h, i);
          if m[h].parts[i].value == a.parcel {
            assert arrivals[last].parcel == a.parcel;
          } else {
            ArrivedLater(was[h].parts[i].value, h, arrivals);
          }
        }
      }
    }
  }

  lemma ArrivedLater(p: Parcel, h: string, arrivals: seq<Arrival>)
    requires arrivals != [] && HasArrived(p, h, arrivals[..|arrivals| - 1])
    ensures HasArrived(p, h, arrivals)
  {
    var before := arrivals[..|arrivals| - 1];
    var k :| 0 <= k < |before| && before[k].parcel == p && p.header.appHash == h;
    assert arrivals[k].parcel == p;
  }

  /** A part in the store after an arrival was there before, or is the one that arrived. */
  lemma ArrivedOrNew(net: Network, m: Messages, a: Arrival, h: string, i: nat)
    requires WellFormed(m)
    requires var n := Handle(net, m, a).messages; h in n && i < |n[h].parts| && n[h].parts[i].Some?
    ensures var p := Handle(net, m, a).messages[h].parts[i].value;
            || (p == a.parcel && a.parcel.header.appHash == h)
            || (h in m && i < |m[h].parts| && m[h].parts[i] == Some(p))
  {
  }

  /** In every run: if all parcels of a message that arrive have one origin, the message delivered has it
      too, is a message, and its header describes it. */
  lemma DeliveredNamesItsOrigin(net: Network, msg: Message, arrivals: seq<Arrival>, n: nat, origin: Origin)
    requires n < |arrivals| && Concerns(msg, arrivals[n]) && Output(net, arrivals, n).Some?
    requires forall k :: 0 <= k <= n && Concerns(msg, arrivals[k]) ==> OriginOf(arrivals[k].parcel) == origin
    ensures var p := Output(net, arrivals, n).value;
            OriginOf(p) == origin && p.header.kind == ParcelType.Message && Describes(net, p)
  {
    var before, a := arrivals[..n], arrivals[n];
    var m := After(net, before);
    StoredHasArrived(net, before, msg.appHash);
    var q := WithPart(Lookup(m, msg.appHash), a.parcel, a.now);
    var parts := Present(q.parts);
    forall i | 0 <= i < |parts|
      ensures OriginOf(parts[i]) == origin
    {
      if parts[i] != a.parcel {
        assert m[msg.appHash].parts[i] == Some(parts[i]);
        var k :| 0 <= k < |before| && before[k].parcel == parts[i] && parts[i].header.appHash == msg.appHash;
        assert arrivals[k].parcel == parts[i] && Concerns(msg, arrivals[k]);
      }
    }
    ReassembledKeepsOrigin(net, parts, origin);
  }

  // ---------------------------------------------------------------- every part once is enough

  ghost predicate Arrived(msg: Message, arrivals: seq<Arrival>, i: nat) {
    exists n :: 0 <= n < |arrivals| && Concerns(msg, arrivals[n]) && arrivals[n].parcel.header.partNo == i
  }

  /** No part of the message arrives after the one at `i` and up to `j`. */
  ghost predicate NoneBetween(msg: Message, arrivals: seq<Arrival>, i: nat, j: nat)
    requires i <= j < |arrivals|
  {
    forall k :: i < k <= j ==> !Concerns(msg, arrivals[k])
  }

  /** No cleanup looks at the message longer than the waiting time after its most recent part. Parts
      that are refused trigger no cleanup. */
  ghost predicate Prompt(net: Network, msg: Message, arrivals: seq<Arrival>) {
    forall i, j :: 0 <= i <= j < |arrivals| && Concerns(msg, arrivals[i]) && NoneBetween(msg, arrivals, i, j)
                   && Accepts(After(net, arrivals[..j]), arrivals[j].parcel) ==>
      arrivals[j].sweep(msg.appHash) - arrivals[i].now <= MAX_TIME_WAITING_FOR_REASSEMBLY
  }

  ghost predicate Delivered(net: Network, msg: Message, arrivals: seq<Arrival>) {
    exists n :: 0 <= n < |arrivals| && Concerns(msg, arrivals[n]) && Output(net, arrivals, n).Some?
  }

  /** The arrival at `k` is the last one of the message. */
  ghost predicate LastOf(msg: Message, arrivals: seq<Arrival>, k: nat)
    requires k < |arrivals|
  {
    Concerns(msg, arrivals[k]) && NoneBetween(msg, arrivals, k, |arrivals| - 1)
  }

  /** The time of the last received part is the time of the message's last arrival. */
  ghost predicate Dated(msg: Message, arrivals: seq<Arrival>, pr: Progress) {
    pr.received != {} ==> exists k :: 0 <= k < |arrivals| && LastOf(msg, arrivals, k) && arrivals[k].now == pr.last
  }

  /** A part of the message that comes in time and completes nothing is added to the received ones. */
  lemma OwnPartStep(net: Network, msg: Message, arrivals: seq<Arrival>)
    requires net.maxPayload > 0 && PartCount(net, msg.payload) < 0x1_0000
    requires arrivals != [] && OnlyPartsOf(net, msg, arrivals) && Prompt(net, msg, arrivals)
    requires !Delivered(net, msg, arrivals) && Concerns(msg, arrivals[|arrivals| - 1])
    ensures Dated(msg, arrivals, Track(net, msg, arrivals))
    ensures Track(net, msg, arrivals).received
         == Track(net, msg, arrivals[..|arrivals| - 1]).received + {arrivals[|arrivals| - 1].parcel.header.partNo as nat}
  {
    var last := |arrivals| - 1;
    var before, a := arrivals[..last], arrivals[last];
    RunMirrors(net, msg, before);
    PartMirrors(net, msg, After(net, before), Track(net, msg, before), a);
    assert Output(net, arrivals, last).None?;
    assert LastOf(msg, arrivals, last);
  }

  lemma LastOfLater(msg: Message, arrivals: seq<Arrival>, k: nat)
    requires k + 1 < |arrivals| && LastOf(msg, arrivals[..|arrivals| - 1], k) && !Concerns(msg, arrivals[|arrivals| - 1])
    ensures LastOf(msg, arrivals, k)
  {
    var before := arrivals[..|arrivals| - 1];
    assert before[k] == arrivals[k];
    forall i | k < i < |arrivals|
      ensures !Concerns(msg, arrivals[i])
    {
      if i < |before| {
        assert before[i] == arrivals[i];
      }
    }
  }

  /** A part of another message that comes in time changes nothing. */
  lemma OtherPartStep(net: Network, msg: Message, arrivals: seq<Arrival>)
    requires net.maxPayload > 0 && PartCount(net, msg.payload) < 0x1_0000
    requires arrivals != [] && OnlyPartsOf(net, msg, arrivals) && Prompt(net, msg, arrivals)
    requires !Concerns(msg, arrivals[|arrivals| - 1])
    requires Dated(msg, arrivals[..|arrivals| - 1], Track(net, msg, arrivals[..|arrivals| - 1]))
    ensures Dated(msg, arrivals, Track(net, msg, arrivals))
    ensures Track(net, msg, arrivals).received == Track(net, msg, arrivals[..|arrivals| - 1]).received
  {
    var last := |arrivals| - 1;
    var before, a := arrivals[..last], arrivals[last];
    var was := Track(net, msg, before);
    RunMirrors(net, msg, before);
    if was.received != {} {
      var k :| 0 <= k < |before| && LastOf(msg, before, k) && before[k].now == was.last;
      LastOfLater(msg, arrivals, k);
      assert arrivals[k].now == was.last;
    }
  }

  lemma ArrivedSplit(msg: Message, arrivals: seq<Arrival>, i: nat)
    requires arrivals != [] && Arrived(msg, arrivals, i)
    ensures || Arrived(msg, arrivals[..|arrivals| - 1], i)
            || (Concerns(msg, arrivals[|arrivals| - 1]) && arrivals[|arrivals| - 1].parcel.header.partNo == i)
  {
    var n :| 0 <= n < |arrivals| && Concerns(msg, arrivals[n]) && arrivals[n].parcel.header.partNo == i;
    if n < |arrivals| - 1 {
      assert arrivals[..|arrivals| - 1][n] == arrivals[n];
    }
  }

  /** While nothing has been delivered, the received parts are all that arrived. */
  lemma {:induction false} UndeliveredKeepsAll(net: Network, msg: Message, arrivals: seq<Arrival>)
    requires net.maxPayload > 0 && PartCount(net, msg.payload) < 0x1_0000
    requires OnlyPartsOf(net, msg, arrivals) && Prompt(net, msg, arrivals)
    requires !Delivered(net, msg, arrivals)
    ensures Dated(msg, arrivals, Track(net, msg, arrivals))
    ensures forall i: nat :: Arrived(msg, arrivals, i) ==> i in Track(net, msg, arrivals).received
    decreases |arrivals|
  {
    if arrivals != [] {
      var last := |arrivals| - 1;
      var before := arrivals[..last];
      PromptPrefix(net, msg, arrivals);
      UndeliveredPrefix(net, msg, arrivals);
      UndeliveredKeepsAll(net, msg, before);
      if Concerns(msg, arrivals[last]) {
        OwnPartStep(net, msg, arrivals);
      } else {
        OtherPartStep(net, msg, arrivals);
      }
      forall i: nat | Arrived(msg, arrivals, i)
        ensures i in Track(net, msg, arrivals).received
      {
        ArrivedSplit(msg, arrivals, i);
      }
    }
  }

  lemma PromptPrefix(net: Network, msg: Message, arrivals: seq<Arrival>)
    requires arrivals != [] && Prompt(net, msg, arrivals)
    ensures Prompt(net, msg, arrivals[..|arrivals| - 1])
  {
    var before := arrivals[..|arrivals| - 1];
    forall i, j | 0 <= i <= j < |before| && Concerns(msg, before[i]) && NoneBetween(msg, before, i, j)
                  && Accepts(After(net, before[..j]), before[j].parcel)
      ensures before[j].sweep(msg.appHash) - before[i].now <= MAX_TIME_WAITING_FOR_REASSEMBLY
    {
      assert before[..j] == arrivals[..j] && before[j] == arrivals[j] && before[i] == arrivals[i];
      forall k | i < k <= j ensures !Concerns(msg, arrivals[k]) {
        assert before[k] == arrivals[k];
      }
      assert NoneBetween(msg, arrivals, i, j);
    }
  }

  lemma UndeliveredPrefix(net: Network, msg: Message, arrivals: seq<Arrival>)
    requires net.maxPayload > 0 && arrivals != []
    requires OnlyPartsOf(net, msg, arrivals) && !Delivered(net, msg, arrivals)
    ensures OnlyPartsOf(net, msg, arrivals[..|arrivals| - 1])
    ensures !Delivered(net, msg, arrivals[..|arrivals| - 1])
  {
    var before := arrivals[..|arrivals| - 1];
    forall n | 0 <= n < |before| && Concerns(msg, before[n])
      ensures Output(net, before, n).None?
    {
      assert before[..n] == arrivals[..n] && before[n] == arrivals[n];
      assert Output(net, arrivals, n).None?;
    }
  }

  /** A run in which every part arrives, in whatever order and however often, and in which no cleanup
      comes too late after the message's most recent part, delivers the message. */
  lemma EveryPartArrivedIsDelivered(net: Network, msg: Message, arrivals: seq<Arrival>)
    requires net.maxPayload > 0 && PartCount(net, msg.payload) < 0x1_0000
    requires OnlyPartsOf(net, msg, arrivals) && Prompt(net, msg, arrivals)
    requires forall i: nat :: i < PartCount(net, msg.payload) ==> Arrived(msg, arrivals, i)
    ensures Delivered(net, msg, arrivals)
  {
    if !Delivered(net, msg, arrivals) {
      UndeliveredKeepsAll(net, msg, arrivals);
      assert Complete(Track(net, msg, arrivals).received, PartCount(net, msg.payload));
      RunMirrors(net, msg, arrivals);
    }
  }

  // ---------------------------------------------------------------- the sender's parcels

  /** The `i`-th parcel of a message as it is sent: the splitter's parcel with the message's
      application hash (engine/p2pProxy.go:217-225). */
  function Sent(net: Network, network: uint32, msg: Message, i: nat): Parcel
    requires net.maxPayload > 0 && i < PartCount(net, msg.payload)
  {
    var p := PartParcel(net, network, msg.payload, i);
    p.(header := p.header.(appHash := msg.appHash))
  }

  /** Some sent parcel of the message, whatever addresses the network has written on it. */
  ghost predicate IsSent(net: Network, msg: Message, p: Parcel)
    requires net.maxPayload > 0
  {
    && p.header.appHash == msg.appHash
    && p.header.partsTotal == ToUint16(PartCount(net, msg.payload))
    && exists i :: 0 <= i < PartCount(net, msg.payload) && p.header.partNo == ToUint16(i)
                && p.payload == Chunk(net, msg.payload, i)
  }

  ghost predicate OnlySent(net: Network, msg: Message, arrivals: seq<Arrival>)
    requires net.maxPayload > 0
  {
    forall n :: 0 <= n < |arrivals| && Concerns(msg, arrivals[n]) ==> IsSent(net, msg, arrivals[n].parcel)
  }

  lemma SentIsPartOf(net: Network, msg: Message, p: Parcel)
    requires net.maxPayload > 0 && PartCount(net, msg.payload) < 0x1_0000
    requires IsSent(net, msg, p)
    ensures IsPartOf(net, msg, p)
  {
  }

  /** A stored message whose part count was cut to 16 bits is short of parts. */
  ghost predicate Short(net: Network, msg: Message, parts: seq<Option<Parcel>>)
    requires net.maxPayload > 0
  {
    && |parts| == ToUint16(PartCount(net, msg.payload))
    && forall i :: 0 <= i < |parts| && parts[i].Some? ==> |parts[i].value.payload| <= net.maxPayload
  }

  lemma ShortIsTooShort(net: Network, msg: Message, parts: seq<Option<Parcel>>)
    requires net.maxPayload > 0 && PartCount(net, msg.payload) >= 0x1_0000
    requires Short(net, msg, parts) && AllPresent(parts) && parts != []
    ensures |Reassembled(net, Present(parts)).payload| < |msg.payload|
  {
    var count := PartCount(net, msg.payload);
    var ps := Present(parts);
    forall i | 0 <= i < |ps|
      ensures |ps[i].payload| <= net.maxPayload
    {
      assert parts[i].Some?;
    }
    JoinedSize(ps, net.maxPayload);
    assert |ps| <= count - 2;
    OffsetIsProduct(net, |ps|);
    OffsetMonotone(net, |ps|, count - 2);
    assert Offset(net, count - 1) == Offset(net, count - 2) + net.maxPayload;
    PayloadSpan(net, msg.payload);
  }

  ghost predicate StoredShort(net: Network, msg: Message, m: Messages)
    requires net.maxPayload > 0
  {
    msg.appHash in m ==> Short(net, msg, m[msg.appHash].parts)
  }

  lemma ShortStep(net: Network, msg: Message, m: Messages, a: Arrival)
    requires net.maxPayload > 0 && PartCount(net, msg.payload) >= 0x1_0000
    requires WellFormed(m) && StoredShort(net, msg, m)
    requires Concerns(msg, a) ==> IsSent(net, msg, a.parcel)
    ensures StoredShort(net, msg, Handle(net, m, a).messages)
    ensures Concerns(msg, a) && Handle(net, m, a).out.Some? ==>
              |Handle(net, m, a).out.value.payload| < |msg.payload|
  {
    if Concerns(msg, a) && Accepts(m, a.parcel) {
      var q := WithPart(Lookup(m, msg.appHash), a.parcel, a.now);
      WithPartStored(msg.appHash, Lookup(m, msg.appHash), a.parcel, a.now);
      assert Short(net, msg, q.parts);
      if AllPresent(q.parts) {
        ShortIsTooShort(net, msg, q.parts);
      }
    }
  }

  lemma {:induction false} RunStoredShort(net: Network, msg: Message, arrivals: seq<Arrival>)
    requires net.maxPayload > 0 && PartCount(net, msg.payload) >= 0x1_0000
    requires OnlySent(net, msg, arrivals)
    ensures StoredShort(net, msg, After(net, arrivals))
    decreases |arrivals|
  {
    if arrivals != [] {
      var before := arrivals[..|arrivals| - 1];
      RunStoredShort(net, msg, before);
      ShortStep(net, msg, After(net, before), arrivals[|arrivals| - 1]);
    }
  }

  /** Some arrival of the run makes the assembler return the message's payload. */
  ghost predicate Reassembles(net: Network, msg: Message, arrivals: seq<Arrival>)
    requires net.maxPayload > 0
  {
    && OnlySent(net, msg, arrivals)
    && exists n :: 0 <= n < |arrivals| && Concerns(msg, arrivals[n]) && Output(net, arrivals, n).Some?
                && Output(net, arrivals, n).value.payload == msg.payload
  }

  /** The exact limit of splitting and joining: the sent parcels of a message can be reassembled
      into its payload if and only if the number of parts fits in 16 bits. */
  lemma ReassemblableIffCountFits(net: Network, network: uint32, msg: Message)
    requires net.maxPayload > 0
    ensures (exists arrivals :: Reassembles(net, msg, arrivals)) <==> PartCount(net, msg.payload) < 0x1_0000
  {
    if PartCount(net, msg.payload) < 0x1_0000 {
      var arrivals := InOrder(net, network, msg);
      InOrderReassembles(net, network, msg);
      assert Reassembles(net, msg, arrivals);
    } else {
      forall arrivals | OnlySent(net, msg, arrivals)
        ensures !Reassembles(net, msg, arrivals)
      {
        TooManyPartsNeverReassembled(net, msg, arrivals);
      }
    }
  }

  lemma TooManyPartsNeverReassembled(net: Network, msg: Message, arrivals: seq<Arrival>)
    requires net.maxPayload > 0 && PartCount(net, msg.payload) >= 0x1_0000
    requires OnlySent(net, msg, arrivals)
    ensures !Reassembles(net, msg, arrivals)
  {
    forall n | 0 <= n < |arrivals| && Concerns(msg, arrivals[n]) && Output(net, arrivals, n).Some?
      ensures Output(net, arrivals, n).value.payload != msg.payload
    {
      RunStoredShort(net, msg, arrivals[..n]);
      ShortStep(net, msg, After(net, arrivals[..n]), arrivals[n]);
    }
  }

  /** All parcels of a message, one after the other, without delay. */
  function InOrder(net: Network, network: uint32, msg: Message): seq<Arrival>
    requires net.maxPayload > 0
  {
    seq(PartCount(net, msg.payload), i requires 0 <= i < PartCount(net, msg.payload) =>
      Arrival(Sent(net, network, msg, i), 0, _ => 0))
  }

  lemma InOrderPart(net: Network, network: uint32, msg: Message, n: nat)
    requires net.maxPayload > 0 && PartCount(net, msg.payload) < 0x1_0000
    requires n < PartCount(net, msg.payload)
    ensures IsSent(net, msg, InOrder(net, network, msg)[n].parcel)
    ensures IsPartOf(net, msg, InOrder(net, network, msg)[n].parcel)
    ensures Arrived(msg, InOrder(net, network, msg), n)
  {
    var arrivals := InOrder(net, network, msg);
    var p := arrivals[n].parcel;
    assert p.header.partNo == ToUint16(n) && p.payload == Chunk(net, msg.payload, n);
    SentIsPartOf(net, msg, p);
    assert Concerns(msg, arrivals[n]) && arrivals[n].parcel.header.partNo == n;
  }

  lemma InOrderParts(net: Network, network: uint32, msg: Message)
    requires net.maxPayload > 0 && PartCount(net, msg.payload) < 0x1_0000
    ensures OnlySent(net, msg, InOrder(net, network, msg))
    ensures OnlyPartsOf(net, msg, InOrder(net, network, msg))
    ensures forall i: nat :: i < PartCount(net, msg.payload) ==> Arrived(msg, InOrder(net, network, msg), i)
  {
    forall n: nat | n < PartCount(net, msg.payload)
      ensures IsSent(net, msg, InOrder(net, network, msg)[n].parcel)
      ensures IsPartOf(net, msg, InOrder(net, network, msg)[n].parcel)
      ensures Arrived(msg, InOrder(net, network, msg), n)
    {
      InOrderPart(net, network, msg, n);
    }
  }

  lemma InOrderReassembles(net: Network, network: uint32, msg: Message)
    requires net.maxPayload > 0 && PartCount(net, msg.payload) < 0x1_0000
    ensures Reassembles(net, msg, InOrder(net, network, msg))
  {
    var arrivals := InOrder(net, network, msg);
    InOrderParts(net, network, msg);
    assert Prompt(net, msg, arrivals);
    EveryPartArrivedIsDelivered(net, msg, arrivals);
    var n :| 0 <= n < |arrivals| && Concerns(msg, arrivals[n]) && Output(net, arrivals, n).Some?;
    DeliversExactlyOnCompletion(net, msg, arrivals, n);
  }
}
