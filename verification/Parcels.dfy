/** Parcels (p2p/parcel.go): splitting a payload into parts and joining parts again. */
module Parcels {

  type Bytes = seq<bv8>
  type uint16 = n: nat | n < 0x1_0000
  type uint32 = n: nat | n < 0x1_0000_0000

  datatype ParcelType = Heartbeat | Ping | Pong | PeerRequest | PeerResponse | Alert | Message | MessagePart

  datatype Header = Header(
    network: uint32, version: uint16, kind: ParcelType, length: uint32, targetPeer: string, crc32: uint32,
    partNo: uint16, partsTotal: uint16, nodeID: nat, peerAddress: string, peerPort: string,
    appHash: string, appType: string)

  datatype Parcel = Parcel(header: Header, payload: Bytes)

  const MAX_PAYLOAD_SIZE: nat := 1000000000
  const PROTOCOL_VERSION: uint16 := 9

  /** What the functions below read from their surroundings: the checksum, the listening port and
      the largest payload of one part (MAX_PAYLOAD_SIZE; every positive size is allowed here). */
  datatype Network = Network(crc: Bytes -> uint32, listenPort: string, maxPayload: nat)

  function ToUint16(n: nat): uint16 { n % 0x1_0000 }
  function ToUint32(n: nat): uint32 { n % 0x1_0000_0000 }

  /** A parcel whose header describes its payload. */
  function NewParcel(net: Network, network: uint32, payload: Bytes): Parcel {
    Parcel(Header(network, PROTOCOL_VERSION, Message, ToUint32(|payload|), "", net.crc(payload), 0, 0, 0,
                  "", net.listenPort, "NetworkMessage", "Network"),
           payload)
  }

  function PartCount(net: Network, payload: Bytes): nat
    requires net.maxPayload > 0
  {
    |payload| / net.maxPayload + 1
  }

  /** Where part `i` starts: `i` full parts before it. */
  function Offset(net: Network, i: nat): nat {
    if i == 0 then 0 else Offset(net, i - 1) + net.maxPayload
  }

  lemma {:induction false} OffsetIsProduct(net: Network, i: nat)
    ensures Offset(net, i) == i * net.maxPayload
  {
    if i > 0 {
      OffsetIsProduct(net, i - 1);
      assert i * net.maxPayload == (i - 1) * net.maxPayload + net.maxPayload;
    }
  }

  lemma {:induction false} OffsetMonotone(net: Network, i: nat, j: nat)
    requires i <= j
    ensures Offset(net, i) <= Offset(net, j)
    decreases j - i
  {
    if i < j {
      OffsetMonotone(net, i + 1, j);
    }
  }

  /** The last part starts inside the payload and would end past it. */
  lemma PayloadSpan(net: Network, payload: Bytes)
    requires net.maxPayload > 0
    ensures Offset(net, PartCount(net, payload) - 1) <= |payload| < Offset(net, PartCount(net, payload))
  {
    OffsetIsProduct(net, |payload| / net.maxPayload);
    OffsetIsProduct(net, |payload| / net.maxPayload + 1);
  }

  lemma PartSpan(net: Network, payload: Bytes, i: nat)
    requires net.maxPayload > 0 && i < PartCount(net, payload)
    ensures Offset(net, i) <= |payload|
    ensures i + 1 < PartCount(net, payload) ==> Offset(net, i + 1) <= |payload|
    ensures i + 1 == PartCount(net, payload) ==> |payload| < Offset(net, i + 1)
  {
    PayloadSpan(net, payload);
    OffsetMonotone(net, i, PartCount(net, payload) - 1);
    if i + 1 < PartCount(net, payload) {
      OffsetMonotone(net, i + 1, PartCount(net, payload) - 1);
    }
  }

  function PartEnd(net: Network, payload: Bytes, i: nat): nat {
    if Offset(net, i + 1) < |payload| then Offset(net, i + 1) else |payload|
  }

  /** The bytes of part `i`. */
  function Chunk(net: Network, payload: Bytes, i: nat): (chunk: Bytes)
    requires net.maxPayload > 0 && i < PartCount(net, payload)
    ensures |chunk| <= net.maxPayload
  {
    PartSpan(net, payload, i);
    payload[Offset(net, i)..PartEnd(net, payload, i)]
  }

  /** The first `n` chunks, one after the other. */
  function Chunks(net: Network, payload: Bytes, n: nat): Bytes
    requires net.maxPayload > 0 && n <= PartCount(net, payload)
  {
    if n == 0 then [] else Chunks(net, payload, n - 1) + Chunk(net, payload, n - 1)
  }

  lemma {:induction false} ChunksArePrefix(net: Network, payload: Bytes, n: nat)
    requires net.maxPayload > 0 && n < PartCount(net, payload)
    ensures Offset(net, n) <= |payload|
    ensures Chunks(net, payload, n) == payload[..Offset(net, n)]
    decreases n
  {
    PartSpan(net, payload, n);
    if n > 0 {
      ChunksArePrefix(net, payload, n - 1);
      PartSpan(net, payload, n - 1);
    }
  }

  /** The chunks cover the payload exactly. */
  lemma ChunksCoverPayload(net: Network, payload: Bytes)
    requires net.maxPayload > 0
    ensures Chunks(net, payload, PartCount(net, payload)) == payload
  {
    var last := PartCount(net, payload) - 1;
    ChunksArePrefix(net, payload, last);
    PartSpan(net, payload, last);
    assert payload[..Offset(net, last)] + payload[Offset(net, last)..] == payload;
  }

  /** The parcel of part `i`; part numbers and the part count are cut to 16 bits. */
  function PartParcel(net: Network, network: uint32, payload: Bytes, i: nat): Parcel
    requires net.maxPayload > 0 && i < PartCount(net, payload)
  {
    var p := NewParcel(net, network, Chunk(net, payload, i));
    p.(header := p.header.(kind := MessagePart, partNo := ToUint16(i),
                           partsTotal := ToUint16(PartCount(net, payload))))
  }

  method ParcelsForPayload(net: Network, network: uint32, payload: Bytes) returns (parcels: seq<Parcel>)
    requires net.maxPayload > 0
    ensures |parcels| == PartCount(net, payload)
    ensures forall i :: 0 <= i < |parcels| ==> parcels[i] == PartParcel(net, network, payload, i)
    ensures Joined(parcels) == payload
  {
    var parcelCount := |payload| / net.maxPayload + 1;
    parcels := [];
    for i := 0 to parcelCount
      invariant |parcels| == i
      invariant forall k :: 0 <= k < i ==> parcels[k] == PartParcel(net, network, payload, k)
    {
      PartSpan(net, payload, i);
      var start := i * net.maxPayload;
      OffsetIsProduct(net, i);
      var next := (i + 1) * net.maxPayload;
      OffsetIsProduct(net, i + 1);
      var end;
      if next < |payload| {
        end := next;
      } else {
        end := |payload|;
      }
      assert payload[start..end] == Chunk(net, payload, i);
      var parcel := NewParcel(net, network, payload[start..end]);
      parcel := parcel.(header := parcel.header.(kind := MessagePart));
      parcel := parcel.(header := parcel.header.(partNo := ToUint16(i)));
      parcel := parcel.(header := parcel.header.(partsTotal := ToUint16(parcelCount)));
      parcels := parcels + [parcel];
    }
    JoinedChunks(net, payload, parcels);
    ChunksCoverPayload(net, payload);
  }

  /** The payloads of parcels, one after the other. */
  function Joined(parcels: seq<Parcel>): Bytes {
    if parcels == [] then [] else parcels[0].payload + Joined(parcels[1..])
  }

  lemma {:induction false} JoinedSnoc(parcels: seq<Parcel>, p: Parcel)
    ensures Joined(parcels + [p]) == Joined(parcels) + p.payload
    decreases |parcels|
  {
    if parcels == [] {
      assert parcels + [p] == [p] && [p][1..] == [];
    } else {
      assert (parcels + [p])[1..] == parcels[1..] + [p];
      JoinedSnoc(parcels[1..], p);
    }
  }

  lemma {:induction false} JoinedChunks(net: Network, payload: Bytes, parcels: seq<Parcel>)
    requires net.maxPayload > 0 && |parcels| <= PartCount(net, payload)
    requires forall i :: 0 <= i < |parcels| ==> parcels[i].payload == Chunk(net, payload, i)
    ensures Joined(parcels) == Chunks(net, payload, |parcels|)
    decreases |parcels|
  {
    if parcels != [] {
      var n := |parcels| - 1;
      JoinedChunks(net, payload, parcels[..n]);
      JoinedSnoc(parcels[..n], parcels[n]);
      assert parcels[..n] + [parcels[n]] == parcels;
    }
  }

  lemma {:induction false} JoinedSize(parcels: seq<Parcel>, bound: nat)
    requires forall i :: 0 <= i < |parcels| ==> |parcels[i].payload| <= bound
    ensures |Joined(parcels)| <= |parcels| * bound
    decreases |parcels|
  {
    if parcels != [] {
      JoinedSize(parcels[1..], bound);
      assert |parcels| * bound == bound + |parcels[1..]| * bound;
    }
  }

  /** The message parcel made of all parts, addressed like the first of them. */
  function Reassembled(net: Network, parcels: seq<Parcel>): Parcel
    requires parcels != []
  {
    var orig := parcels[0].header;
    var p := NewParcel(net, orig.network, Joined(parcels));
    p.(header := p.header.(nodeID := orig.nodeID, kind := Message, targetPeer := orig.targetPeer,
                           peerAddress := orig.peerAddress, peerPort := orig.peerPort))
  }

  method ReassembleParcel(net: Network, parcels: seq<Parcel>) returns (assembled: Parcel)
    requires parcels != []
    ensures assembled == Reassembled(net, parcels)
  {
    var payload: Bytes := [];
    for i := 0 to |parcels|
      invariant payload == Joined(parcels[..i])
    {
      assert parcels[..i + 1] == parcels[..i] + [parcels[i]];
      JoinedSnoc(parcels[..i], parcels[i]);
      payload := payload + parcels[i].payload;
    }
    assert parcels[..|parcels|] == parcels;
    var origHeader := parcels[0].header;
    assembled := NewParcel(net, origHeader.network, payload);
    assembled := assembled.(header := assembled.header.(nodeID := origHeader.nodeID));
    assembled := assembled.(header := assembled.header.(kind := Message));
    assembled := assembled.(header := assembled.header.(targetPeer := origHeader.targetPeer));
    assembled := assembled.(header := assembled.header.(peerAddress := origHeader.peerAddress));
    assembled := assembled.(header := assembled.header.(peerPort := origHeader.peerPort));
  }

  /** Where a parcel comes from and whom it is for. */
  datatype Origin = Origin(network: uint32, nodeID: nat, targetPeer: string, peerAddress: string, peerPort: string)

  function OriginOf(p: Parcel): Origin {
    Origin(p.header.network, p.header.nodeID, p.header.targetPeer, p.header.peerAddress, p.header.peerPort)
  }

  /** The header tells the truth about the payload. */
  predicate Describes(net: Network, p: Parcel) {
    p.header.length == ToUint32(|p.payload|) && p.header.crc32 == net.crc(p.payload)
  }

  /** Parts of one origin make a message of that origin, whose header describes it. */
  lemma ReassembledKeepsOrigin(net: Network, parcels: seq<Parcel>, origin: Origin)
    requires parcels != [] && forall i :: 0 <= i < |parcels| ==> OriginOf(parcels[i]) == origin
    ensures var p := Reassembled(net, parcels);
            OriginOf(p) == origin && p.header.kind == Message && Describes(net, p)
  {
    assert OriginOf(parcels[0]) == origin;
  }

  /** Every part is for the network, says that it is a part, and describes its own payload; and while the
      numbers fit in 16 bits, part `i` of `n` says so. */
  lemma PartSaysWhatItIs(net: Network, network: uint32, payload: Bytes, i: nat)
    requires net.maxPayload > 0 && i < PartCount(net, payload)
    ensures var p := PartParcel(net, network, payload, i);
            && p.header.kind == MessagePart && Describes(net, p)
            && OriginOf(p) == Origin(network, 0, "", "", net.listenPort)
            && p.header.appHash == "NetworkMessage" && p.header.appType == "Network"
            && (PartCount(net, payload) < 0x1_0000 ==>
                  p.header.partNo == i && p.header.partsTotal == PartCount(net, payload))
  {
  }
}
