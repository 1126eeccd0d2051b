/** Dependent holding (state/HoldingList.go): messages kept until what they depend on arrives, in
    lists by dependency, with an index from each message's hash to its place. */
module HoldingList {
  import opened Options
  import opened Words

  type Key = seq<Byte>

  datatype Kind = EOM(dbHeight: nat, minute: nat) | Ack(height: nat) | DirectoryBlockSignature(sigHeight: nat) | Other
  datatype Msg = Msg(hash: Key, kind: Kind, timestamp: int)

  datatype HeldMessage = HeldMessage(dependentHash: Key, offset: nat)

  type Holding = map<Key, seq<Option<Msg>>>
  type Dependents = map<Key, HeldMessage>

  // ---------------------------------------------------------------- lists and index agree

  /** Every index entry points at the slot that holds its message. */
  ghost predicate EntryPoints(holding: Holding, dependents: Dependents, k: Key)
    requires k in dependents
  {
    var d := dependents[k];
    && d.dependentHash in holding && d.offset < |holding[d.dependentHash]|
    && holding[d.dependentHash][d.offset].Some?
    && holding[d.dependentHash][d.offset].value.hash == k
  }

  /** Every filled slot has its index entry. */
  ghost predicate SlotIndexed(holding: Holding, dependents: Dependents, h: Key, i: nat)
    requires h in holding && i < |holding[h]|
  {
    holding[h][i].Some? ==>
      holding[h][i].value.hash in dependents && dependents[holding[h][i].value.hash] == HeldMessage(h, i)
  }

  ghost predicate ListIndexed(holding: Holding, dependents: Dependents, h: Key)
    requires h in holding
  {
    forall i :: 0 <= i < |holding[h]| ==> SlotIndexed(holding, dependents, h, i)
  }

  ghost predicate Agree(holding: Holding, dependents: Dependents) {
    && (forall k :: k in dependents ==> EntryPoints(holding, dependents, k))
    && (forall h :: h in holding ==> ListIndexed(holding, dependents, h))
  }

  /** A message and what it depends on. */
  datatype Entry = Entry(dependency: Key, msg: Msg)

  /** The reference: the held messages by their hash. */
  type Contents = map<Key, Entry>

  ghost function Holds(holding: Holding, dependents: Dependents): (c: Contents)
    requires Agree(holding, dependents)
    ensures c.Keys == dependents.Keys
  {
    map k | k in dependents :: EntryAt(holding, dependents, k)
  }

  ghost function EntryAt(holding: Holding, dependents: Dependents, k: Key): Entry
    requires k in dependents && EntryPoints(holding, dependents, k)
  {
    var d := dependents[k];
    Entry(d.dependentHash, holding[d.dependentHash][d.offset].value)
  }

  /** The messages of a list, without the emptied slots. */
  function Live(slots: seq<Option<Msg>>): seq<Msg> {
    if slots == [] then []
    else if slots[0].Some? then [slots[0].value] + Live(slots[1..])
    else Live(slots[1..])
  }

  function Appended(holding: Holding, h: Key, msg: Msg): Holding {
    if h in holding then holding[h := holding[h] + [Some(msg)]] else holding[h := [Some(msg)]]
  }

  // ---------------------------------------------------------------- when a message is stale

  /** Where the node is: its leader height and minute, and the oldest time it still wants. */
  datatype Now = Now(leaderHeight: nat, minute: nat, filterTime: int)

  function Uint32(x: nat): nat { x % 0x1_0000_0000 }

  predicate IsMsgStale(now: Now, msg: Msg) {
    || (match msg.kind
        case EOM(height, minute) => Uint32(height * 10 + minute) < Uint32(now.leaderHeight * 10 + now.minute)
        case Ack(height) => height < now.leaderHeight
        case DirectoryBlockSignature(height) => height < now.leaderHeight
        case Other => false)
    || msg.timestamp < now.filterTime
  }

  /** A node moves on: its height and minute and its filter time do not go back. */
  ghost predicate MovesOn(a: Now, b: Now) {
    && (a.leaderHeight < b.leaderHeight || (a.leaderHeight == b.leaderHeight && a.minute <= b.minute))
    && a.filterTime <= b.filterTime
  }

  /** Heights and minutes as they are in practice: the 32-bit sums do not overflow. */
  predicate Fits(height: nat, minute: nat) {
    minute < 10 && height * 10 + minute < 0x1_0000_0000
  }

  predicate FitsMsg(msg: Msg) {
    match msg.kind
    case EOM(height, minute) => Fits(height, minute)
    case _ => true
  }

  /** Once stale, a message stays stale. */
  lemma StaleLasts(a: Now, b: Now, msg: Msg)
    requires MovesOn(a, b) && IsMsgStale(a, msg) && FitsMsg(msg)
    requires Fits(a.leaderHeight, a.minute) && Fits(b.leaderHeight, b.minute)
    ensures IsMsgStale(b, msg)
  {
    StaleExactly(a, msg);
    StaleExactly(b, msg);
  }

  /** What is stale: what is older than the filter time, and what is for a height, or for an end of minute
      a height and a minute, that the node has passed. */
  lemma StaleExactly(now: Now, msg: Msg)
    requires Fits(now.leaderHeight, now.minute) && FitsMsg(msg)
    ensures IsMsgStale(now, msg) <==> msg.timestamp < now.filterTime || Passed(now, msg.kind)
  {
  }

  ghost predicate Passed(now: Now, kind: Kind) {
    match kind
    case EOM(height, minute) => height < now.leaderHeight || (height == now.leaderHeight && minute < now.minute)
    case Ack(height) => height < now.leaderHeight
    case DirectoryBlockSignature(height) => height < now.leaderHeight
    case Other => false
  }

  /** A message of the node's own height and minute, or of a later one, is kept while it is not too old. */
  lemma CurrentIsKept(now: Now, msg: Msg)
    requires Fits(now.leaderHeight, now.minute) && FitsMsg(msg) && now.filterTime <= msg.timestamp
    requires match msg.kind
             case EOM(height, minute) => height > now.leaderHeight || (height == now.leaderHeight && minute >= now.minute)
             case Ack(height) => height >= now.leaderHeight
             case DirectoryBlockSignature(height) => height >= now.leaderHeight
             case Other => true
    ensures !IsMsgStale(now, msg)
  {
  }

  /** Without the bound an end of minute far in the future can count as passed: the sum wraps. */
  lemma WrappedIsStale(timestamp: int)
    ensures IsMsgStale(Now(1, 0, timestamp), Msg([], EOM(429496730, 0), timestamp))
  {
  }

  /** The exact limit: of an end of minute that is not too old the node rightly says whether it has passed if
      and only if its sum does not wrap around to one below the node's own. */
  lemma EndOfMinuteJudgedIff(now: Now, msg: Msg, height: nat, minute: nat)
    requires msg.kind == EOM(height, minute) && minute < 10 && now.filterTime <= msg.timestamp
    requires Fits(now.leaderHeight, now.minute)
    ensures (IsMsgStale(now, msg) <==> Passed(now, msg.kind)) <==>
              (Fits(height, minute) || Uint32(height * 10 + minute) >= now.leaderHeight * 10 + now.minute)
  {
  }

  // ---------------------------------------------------------------- the list

  class HoldingList {
    var holding: Holding
    var dependents: Dependents

    ghost predicate Valid()
      reads this
    {
      Agree(holding, dependents)
    }

    ghost function View(): Contents
      reads this
      requires Valid()
    {
      Holds(holding, dependents)
    }

    constructor ()
      ensures Valid() && View() == map[] && holding == map[]
    {
      holding, dependents := map[], map[];
    }

    method GetDependentMsg(h: Key) returns (m: Option<Msg>)
      requires Valid()
      ensures m == if h in View() then Some(View()[h].msg) else None
    {
      if h !in dependents {
        return None;
      }
      assert EntryPoints(holding, dependents, h);
      var d := dependents[h];
      m := holding[d.dependentHash][d.offset];
    }

    method RemoveDependentMsg(h: Key)
      requires Valid()
      modifies this
      ensures Valid() && View() == old(View()) - {h}
      ensures holding.Keys == old(holding).Keys
    {
      if h !in dependents {
        return;
      }
      EmptySlot(holding, dependents, h);
      var d := dependents[h];
      holding := holding[d.dependentHash := holding[d.dependentHash][d.offset := None]];
      dependents := dependents - {h};
    }

    method Add(h: Key, msg: Msg) returns (added: bool)
      requires Valid()
      modifies this
      ensures Valid()
      ensures added <==> msg.hash !in old(View())
      ensures View() == if added then old(View())[msg.hash := Entry(h, msg)] else old(View())
      ensures holding == if added then Appended(old(holding), h, msg) else old(holding)
    {
      if msg.hash in dependents {
        return false;
      }
      FillSlot(holding, dependents, h, msg);
      if h !in holding {
        holding := holding[h := [Some(msg)]];
      } else {
        holding := holding[h := holding[h] + [Some(msg)]];
      }
      assert holding == Appended(old(holding), h, msg);
      dependents := dependents[msg.hash := HeldMessage(h, |holding[h]| - 1)];
      assert dependents == Noted(old(holding), old(dependents), h, msg);
      return true;
    }

    /** Gives away and forgets the whole list of a dependency. */
    method Get(h: Key) returns (rval: seq<Option<Msg>>)
      requires Valid()
      modifies this
      ensures Valid()
      ensures rval == if h in old(holding) then old(holding)[h] else []
      ensures View() == map k | k in old(View()) && old(View())[k].dependency != h :: old(View())[k]
      ensures h !in holding
    {
      rval := if h in holding then holding[h] else [];
      ghost var had := dependents;
      ghost var was := holding;
      holding := holding - {h};
      for i := 0 to |rval|
        invariant holding == was - {h}
        invariant Forgetting(had, dependents, h, i)
      {
        ForgettingStep(was, had, dependents, h, i);
        if rval[i].Some? {
          dependents := dependents - {rval[i].value.hash};
        }
      }
      ForgettingEnd(was, had, dependents, h);
      DropList(was, had, h, dependents);
    }

    /** Clears the stale messages of one list, and the list itself if nothing is left in it. */
    method ReviewList(now: Now, h: Key)
      requires Valid() && h in holding
      modifies this
      ensures Valid()
      ensures View() == Fresher(now, old(View()), {h})
      ensures holding.Keys <= old(holding).Keys && old(holding).Keys - {h} <= holding.Keys
      ensures forall g :: g in holding && g != h ==> holding[g] == old(holding)[g]
      ensures h in holding ==> InUse(holding[h])
    {
      var inUse := false;
      var n := |holding[h]|;
      ghost var was, had := holding, dependents;
      for i := 0 to n
        invariant Reviewing(now, was, had, holding, dependents, h, i, inUse)
      {
        ReviewingStep(now, was, had, holding, dependents, h, i, inUse);
        var msg := holding[h][i];
        if msg.Some? && IsMsgStale(now, msg.value) {
          holding := holding[h := holding[h][i := None]];
          dependents := dependents - {msg.value.hash};
        } else if msg.Some? {
          inUse := true;
        }
      }
      ClearedAll(now, was, had, h);
      if !inUse {
        DropEmpty(holding, dependents, h);
        holding := holding - {h};
      }
    }

    /** Removes exactly the stale messages and leaves no list without a message. */
    method Review(now: Now)
      requires Valid()
      modifies this
      ensures Valid()
      ensures View() == map k | k in old(View()) && !IsMsgStale(now, old(View())[k].msg) :: old(View())[k]
      ensures forall h :: h in holding ==> InUse(holding[h])
    {
      ghost var keys := holding.Keys;
      ghost var was := View();
      var todo := holding.Keys;
      while todo != {}
        invariant Valid() && todo <= holding.Keys <= keys
        invariant View() == Fresher(now, was, keys - todo)
        invariant forall h :: h in holding && h !in todo ==> InUse(holding[h])
        decreases |todo|
      {
        var h :| h in todo;
        FresherTwice(now, was, keys - todo, h);
        ReviewList(now, h);
        assert keys - (todo - {h}) == (keys - todo) + {h};
        todo := todo - {h};
      }
      DependenciesAreLists(old(holding), old(dependents));
      FresherAll(now, was, keys - todo);
    }
  }

  // ---------------------------------------------------------------- the effect of a change

  lemma EmptySlot(holding: Holding, dependents: Dependents, k: Key)
    requires Agree(holding, dependents) && k in dependents
    ensures EntryPoints(holding, dependents, k)
    ensures var d := dependents[k];
            var holding' := holding[d.dependentHash := holding[d.dependentHash][d.offset := None]];
            && Agree(holding', dependents - {k})
            && Holds(holding', dependents - {k}) == Holds(holding, dependents) - {k}
  {
    assert EntryPoints(holding, dependents, k);
    var d := dependents[k];
    var holding' := holding[d.dependentHash := holding[d.dependentHash][d.offset := None]];
    var dependents' := dependents - {k};
    forall j | j in dependents'
      ensures EntryPoints(holding', dependents', j) && EntryAt(holding', dependents', j) == EntryAt(holding, dependents, j)
    {
      assert EntryPoints(holding, dependents, j);
    }
    forall h | h in holding'
      ensures ListIndexed(holding', dependents', h)
    {
      forall i | 0 <= i < |holding'[h]|
        ensures SlotIndexed(holding', dependents', h, i)
      {
        assert ListIndexed(holding, dependents, h) && SlotIndexed(holding, dependents, h, i);
      }
    }
  }

  /** The index after a message has been appended to the list of `h`. */
  function Noted(holding: Holding, dependents: Dependents, h: Key, msg: Msg): Dependents {
    dependents[msg.hash := HeldMessage(h, if h in holding then |holding[h]| else 0)]
  }

  lemma FillEntry(holding: Holding, dependents: Dependents, h: Key, msg: Msg, j: Key)
    requires Agree(holding, dependents) && msg.hash !in dependents
    requires j in Noted(holding, dependents, h, msg)
    ensures EntryPoints(Appended(holding, h, msg), Noted(holding, dependents, h, msg), j)
    ensures EntryAt(Appended(holding, h, msg), Noted(holding, dependents, h, msg), j)
         == if j == msg.hash then Entry(h, msg) else EntryAt(holding, dependents, j)
  {
    if j != msg.hash {
      assert EntryPoints(holding, dependents, j);
    }
  }

  lemma FillList(holding: Holding, dependents: Dependents, h: Key, msg: Msg, g: Key)
    requires Agree(holding, dependents) && msg.hash !in dependents
    requires g in Appended(holding, h, msg)
    ensures ListIndexed(Appended(holding, h, msg), Noted(holding, dependents, h, msg), g)
  {
    var holding', dependents' := Appended(holding, h, msg), Noted(holding, dependents, h, msg);
    forall i | 0 <= i < |holding'[g]|
      ensures SlotIndexed(holding', dependents', g, i)
    {
      if g in holding && i < |holding[g]| {
        assert ListIndexed(holding, dependents, g) && SlotIndexed(holding, dependents, g, i);
      }
    }
  }

  lemma FillAgree(holding: Holding, dependents: Dependents, h: Key, msg: Msg)
    requires Agree(holding, dependents) && msg.hash !in dependents
    ensures Agree(Appended(holding, h, msg), Noted(holding, dependents, h, msg))
  {
    var holding', dependents' := Appended(holding, h, msg), Noted(holding, dependents, h, msg);
    forall j | j in dependents'
      ensures EntryPoints(holding', dependents', j)
    {
      FillEntry(holding, dependents, h, msg, j);
    }
    forall g | g in holding'
      ensures ListIndexed(holding', dependents', g)
    {
      FillList(holding, dependents, h, msg, g);
    }
  }

  lemma FillSlot(holding: Holding, dependents: Dependents, h: Key, msg: Msg)
    requires Agree(holding, dependents) && msg.hash !in dependents
    ensures Agree(Appended(holding, h, msg), Noted(holding, dependents, h, msg))
    ensures Holds(Appended(holding, h, msg), Noted(holding, dependents, h, msg))
         == Holds(holding, dependents)[msg.hash := Entry(h, msg)]
  {
    FillAgree(holding, dependents, h, msg);
    var before := Holds(holding, dependents);
    var after := Holds(Appended(holding, h, msg), Noted(holding, dependents, h, msg));
    assert after.Keys == before.Keys + {msg.hash};
    forall j | j in after
      ensures after[j] == before[msg.hash := Entry(h, msg)][j]
    {
      FillEntry(holding, dependents, h, msg, j);
    }
  }

  /** The index without the first `i` entries of one list. */
  ghost predicate Forgetting(had: Dependents, dependents: Dependents, h: Key, i: int) {
    && dependents.Keys <= had.Keys
    && (forall k :: k in dependents ==> dependents[k] == had[k])
    && (forall k :: k in had ==> (k !in dependents <==> had[k].dependentHash == h && had[k].offset < i))
  }

  lemma ForgettingStep(holding: Holding, had: Dependents, dependents: Dependents, h: Key, i: nat)
    requires Agree(holding, had) && Forgetting(had, dependents, h, i) && h in holding && i < |holding[h]|
    ensures var m := holding[h][i];
            Forgetting(had, if m.Some? then dependents - {m.value.hash} else dependents, h, i + 1)
  {
    assert ListIndexed(holding, had, h) && SlotIndexed(holding, had, h, i);
    forall k | k in had && had[k].dependentHash == h
      ensures EntryPoints(holding, had, k)
    {
    }
  }

  lemma ForgettingEnd(holding: Holding, had: Dependents, dependents: Dependents, h: Key)
    requires Agree(holding, had) && Forgetting(had, dependents, h, if h in holding then |holding[h]| else 0)
    ensures forall k :: k in had ==> (k !in dependents <==> had[k].dependentHash == h)
  {
    forall k | k in had
      ensures EntryPoints(holding, had, k)
    {
    }
  }

  lemma DropList(holding: Holding, dependents: Dependents, h: Key, dependents': Dependents)
    requires Agree(holding, dependents)
    requires dependents'.Keys <= dependents.Keys
    requires forall k :: k in dependents' ==> dependents'[k] == dependents[k]
    requires forall k :: k in dependents ==> (k !in dependents' <==> dependents[k].dependentHash == h)
    ensures Agree(holding - {h}, dependents')
    ensures Holds(holding - {h}, dependents')
         == map k | k in Holds(holding, dependents) && Holds(holding, dependents)[k].dependency != h :: Holds(holding, dependents)[k]
  {
    var holding' := holding - {h};
    forall j | j in dependents'
      ensures EntryPoints(holding', dependents', j) && EntryAt(holding', dependents', j) == EntryAt(holding, dependents, j)
    {
      assert EntryPoints(holding, dependents, j);
    }
    forall g | g in holding'
      ensures ListIndexed(holding', dependents', g)
    {
      forall i | 0 <= i < |holding'[g]|
        ensures SlotIndexed(holding', dependents', g, i)
      {
        assert ListIndexed(holding, dependents, g) && SlotIndexed(holding, dependents, g, i);
      }
    }
  }

  // ---------------------------------------------------------------- reviewing

  predicate InUse(slots: seq<Option<Msg>>) {
    exists i :: 0 <= i < |slots| && slots[i].Some?
  }

  /** The contents without the stale messages of some dependencies. */
  ghost function Fresher(now: Now, c: Contents, keys: set<Key>): Contents {
    map k | k in c && !(c[k].dependency in keys && IsMsgStale(now, c[k].msg)) :: c[k]
  }

  lemma FresherAll(now: Now, c: Contents, keys: set<Key>)
    requires forall k :: k in c ==> c[k].dependency in keys
    ensures Fresher(now, c, keys) == map k | k in c && !IsMsgStale(now, c[k].msg) :: c[k]
  {
  }

  lemma FresherTwice(now: Now, c: Contents, keys: set<Key>, h: Key)
    ensures Fresher(now, Fresher(now, c, keys), {h}) == Fresher(now, c, keys + {h})
  {
  }

  /** The contents when the first `i` slots of the list of `h` have been reviewed. */
  ghost function Cleared(now: Now, holding: Holding, dependents: Dependents, h: Key, i: nat): Contents
    requires Agree(holding, dependents)
  {
    var c := Holds(holding, dependents);
    map k | k in c && !(dependents[k].dependentHash == h && dependents[k].offset < i && IsMsgStale(now, c[k].msg)) :: c[k]
  }

  lemma ClearedNext(now: Now, holding: Holding, dependents: Dependents, h: Key, i: nat)
    requires Agree(holding, dependents) && h in holding && i < |holding[h]|
    ensures Cleared(now, holding, dependents, h, i + 1) ==
              if holding[h][i].Some? && IsMsgStale(now, holding[h][i].value)
              then Cleared(now, holding, dependents, h, i) - {holding[h][i].value.hash}
              else Cleared(now, holding, dependents, h, i)
  {
    assert ListIndexed(holding, dependents, h) && SlotIndexed(holding, dependents, h, i);
    forall k | k in dependents
      ensures EntryPoints(holding, dependents, k)
    {
    }
  }

  /** The review of the list of `h` at slot `i`. */
  ghost predicate Reviewing(now: Now, was: Holding, had: Dependents, holding: Holding, dependents: Dependents,
                            h: Key, i: int, inUse: bool) {
    && Agree(was, had) && Agree(holding, dependents)
    && h in was && holding.Keys == was.Keys && 0 <= i <= |holding[h]| == |was[h]|
    && (forall g :: g in holding && g != h ==> holding[g] == was[g])
    && holding[h][i..] == was[h][i..]
    && Holds(holding, dependents) == Cleared(now, was, had, h, i)
    && (inUse <==> InUse(holding[h][..i]))
  }

  lemma InUseNext(slots: seq<Option<Msg>>, i: nat)
    requires i < |slots|
    ensures InUse(slots[..i + 1]) <==> InUse(slots[..i]) || slots[i].Some?
  {
    if InUse(slots[..i]) {
      var k :| 0 <= k < i && slots[..i][k].Some?;
      assert slots[..i + 1][k].Some?;
    }
    if slots[i].Some? {
      assert slots[..i + 1][i].Some?;
    }
    if InUse(slots[..i + 1]) && slots[i].None? {
      var k :| 0 <= k < i + 1 && slots[..i + 1][k].Some?;
      assert slots[..i][k].Some?;
    }
  }

  lemma ReviewingStep(now: Now, was: Holding, had: Dependents, holding: Holding, dependents: Dependents,
                      h: Key, i: int, inUse: bool)
    requires Reviewing(now, was, had, holding, dependents, h, i, inUse) && i < |holding[h]|
    ensures var m := holding[h][i];
            if m.Some? && IsMsgStale(now, m.value)
            then Reviewing(now, was, had, holding[h := holding[h][i := None]], dependents - {m.value.hash}, h, i + 1, inUse)
            else Reviewing(now, was, had, holding, dependents, h, i + 1, inUse || m.Some?)
  {
    assert holding[h][i] == holding[h][i..][0] == was[h][i..][0] == was[h][i];
    ClearedNext(now, was, had, h, i);
    var m := holding[h][i];
    InUseNext(holding[h], i);
    if m.Some? && IsMsgStale(now, m.value) {
      assert ListIndexed(holding, dependents, h) && SlotIndexed(holding, dependents, h, i);
      EmptySlot(holding, dependents, m.value.hash);
      var slots := holding[h][i := None];
      InUseNext(slots, i);
      assert slots[..i] == holding[h][..i];
      assert slots[i + 1..] == holding[h][i..][1..] == was[h][i..][1..] == was[h][i + 1..];
    } else {
      assert holding[h][i + 1..] == holding[h][i..][1..] == was[h][i..][1..] == was[h][i + 1..];
    }
  }

  lemma ClearedAll(now: Now, holding: Holding, dependents: Dependents, h: Key)
    requires Agree(holding, dependents) && h in holding
    ensures Cleared(now, holding, dependents, h, |holding[h]|) == Fresher(now, Holds(holding, dependents), {h})
  {
    forall k | k in dependents
      ensures EntryPoints(holding, dependents, k)
    {
    }
  }

  /** A list without messages can go. */
  lemma DropEmpty(holding: Holding, dependents: Dependents, h: Key)
    requires Agree(holding, dependents) && h in holding && !InUse(holding[h])
    ensures Agree(holding - {h}, dependents)
    ensures Holds(holding - {h}, dependents) == Holds(holding, dependents)
  {
    var holding' := holding - {h};
    forall j | j in dependents
      ensures EntryPoints(holding', dependents, j) && EntryAt(holding', dependents, j) == EntryAt(holding, dependents, j)
    {
      assert EntryPoints(holding, dependents, j);
    }
    forall g | g in holding'
      ensures ListIndexed(holding', dependents, g)
    {
      assert ListIndexed(holding, dependents, g);
      assert forall i :: 0 <= i < |holding'[g]| ==>
        (SlotIndexed(holding, dependents, g, i) ==> SlotIndexed(holding', dependents, g, i));
    }
  }

  lemma DependenciesAreLists(holding: Holding, dependents: Dependents)
    requires Agree(holding, dependents)
    ensures forall k :: k in Holds(holding, dependents) ==> Holds(holding, dependents)[k].dependency in holding
  {
    forall k | k in dependents
      ensures EntryPoints(holding, dependents, k)
    {
    }
  }

  // ---------------------------------------------------------------- what a list gives

  lemma {:induction false} LiveMember(slots: seq<Option<Msg>>, m: Msg)
    ensures m in Live(slots) <==> exists i :: 0 <= i < |slots| && slots[i] == Some(m)
    decreases |slots|
  {
    if slots != [] {
      LiveMember(slots[1..], m);
      if m in Live(slots) && slots[0] != Some(m) {
        var i :| 0 <= i < |slots[1..]| && slots[1..][i] == Some(m);
        assert slots[i + 1] == Some(m);
      }
      if i :| 0 <= i < |slots| && slots[i] == Some(m) {
        if i > 0 {
          assert slots[1..][i - 1] == Some(m);
        }
      }
    }
  }

  ghost predicate DistinctHashes(ms: seq<Msg>) {
    forall i, j :: 0 <= i < j < |ms| ==> ms[i].hash != ms[j].hash
  }

  ghost predicate DistinctSlots(slots: seq<Option<Msg>>) {
    forall i, j :: 0 <= i < j < |slots| && slots[i].Some? && slots[j].Some? ==> slots[i].value.hash != slots[j].value.hash
  }

  lemma {:induction false} LiveDistinct(slots: seq<Option<Msg>>)
    requires DistinctSlots(slots)
    ensures DistinctHashes(Live(slots))
    decreases |slots|
  {
    if slots != [] {
      LiveDistinct(slots[1..]);
      if slots[0].Some? {
        var rest := Live(slots[1..]);
        forall j | 0 <= j < |rest|
          ensures rest[j].hash != slots[0].value.hash
        {
          LiveMember(slots[1..], rest[j]);
          var i :| 0 <= i < |slots[1..]| && slots[1..][i] == Some(rest[j]);
          assert slots[i + 1] == Some(rest[j]);
        }
      }
    }
  }

  /** A list gives every message held for its dependency, each once, and nothing else. */
  lemma ListGivesItsMessages(holding: Holding, dependents: Dependents, h: Key, m: Msg)
    requires Agree(holding, dependents)
    ensures var slots := if h in holding then holding[h] else [];
            && DistinctHashes(Live(slots))
            && (m in Live(slots) <==> m.hash in dependents && Holds(holding, dependents)[m.hash] == Entry(h, m))
  {
    var slots := if h in holding then holding[h] else [];
    forall i | 0 <= i < |slots|
      ensures slots[i].Some? ==> slots[i].value.hash in dependents && dependents[slots[i].value.hash] == HeldMessage(h, i)
    {
      assert ListIndexed(holding, dependents, h) && SlotIndexed(holding, dependents, h, i);
    }
    LiveDistinct(slots);
    LiveMember(slots, m);
    if m.hash in dependents {
      assert EntryPoints(holding, dependents, m.hash);
    }
  }

  /** Takes the messages waiting for a hash and queues them for execution, in the order they came. */
  method ExecuteFromHolding(l: HoldingList, h: Key, msgQueue: seq<Msg>) returns (queue: seq<Msg>)
    requires l.Valid()
    modifies l
    ensures l.Valid()
    ensures l.View() == map k | k in old(l.View()) && old(l.View())[k].dependency != h :: old(l.View())[k]
    ensures queue == msgQueue + Live(if h in old(l.holding) then old(l.holding)[h] else [])
    ensures forall m :: m in queue[|msgQueue|..] <==> m.hash in old(l.View()) && old(l.View())[m.hash] == Entry(h, m)
    ensures DistinctHashes(queue[|msgQueue|..])
  {
    var list := l.Get(h);
    queue := msgQueue;
    for i := 0 to |list|
      invariant queue + Live(list[i..]) == msgQueue + Live(list)
    {
      assert list[i..][1..] == list[i + 1..];
      if list[i].Some? {
        queue := queue + [list[i].value];
      }
    }
    assert list[|list|..] == [] && Live(list[|list|..]) == [];
    assert queue == queue + Live(list[|list|..]) == msgQueue + Live(list);
    assert queue[|msgQueue|..] == Live(list);
    forall m
      ensures m in Live(list) <==> m.hash in old(l.View()) && old(l.View())[m.hash] == Entry(h, m)
      ensures DistinctHashes(Live(list))
    {
      ListGivesItsMessages(old(l.holding), old(l.dependents), h, m);
    }
  }

  // ---------------------------------------------------------------- whole runs

  datatype Op = AddOp(h: Key, msg: Msg) | GetOp(h: Key) | RemoveOp(k: Key) | ReviewOp(now: Now)

  /** What an operation does to the contents. */
  function Step(c: Contents, op: Op): Contents {
    match op
    case AddOp(h, msg) => if msg.hash in c then c else c[msg.hash := Entry(h, msg)]
    case GetOp(h) => map k | k in c && c[k].dependency != h :: c[k]
    case RemoveOp(k) => c - {k}
    case ReviewOp(now) => map k | k in c && !IsMsgStale(now, c[k].msg) :: c[k]
  }

  function Run(c: Contents, ops: seq<Op>): Contents {
    if ops == [] then c else Step(Run(c, ops[..|ops| - 1]), ops[|ops| - 1])
  }

  /** The operation hands out or drops a message that is held as `e`. */
  predicate Releases(op: Op, k: Key, e: Entry) {
    match op
    case AddOp(_, _) => false
    case GetOp(h) => h == e.dependency
    case RemoveOp(r) => r == k
    case ReviewOp(now) => IsMsgStale(now, e.msg)
  }

  /** A held message stays what it is until it is released, and is gone then. */
  lemma StaysUntilReleased(c: Contents, ops: seq<Op>, k: Key)
    requires k in c
    requires forall n :: 0 <= n < |ops| ==> !Releases(ops[n], k, c[k])
    ensures k in Run(c, ops) && Run(c, ops)[k] == c[k]
    ensures forall op :: k !in Step(Run(c, ops), op) <==> Releases(op, k, c[k])
    decreases |ops|
  {
    if ops != [] {
      StaysUntilReleased(c, ops[..|ops| - 1], k);
      assert !Releases(ops[|ops| - 1], k, c[k]);
    }
  }

  /** How often a message was taken in and how often it left during a run that starts empty. */
  function Arrivals(ops: seq<Op>, k: Key): nat {
    if ops == [] then 0
    else
      var before := ops[..|ops| - 1];
      var op := ops[|ops| - 1];
      Arrivals(before, k) + if op.AddOp? && op.msg.hash == k && k !in Run(map[], before) then 1 else 0
  }

  function Departures(ops: seq<Op>, k: Key): nat {
    if ops == [] then 0
    else
      var before := ops[..|ops| - 1];
      var op := ops[|ops| - 1];
      Departures(before, k) + if k in Run(map[], before) && Releases(op, k, Run(map[], before)[k]) then 1 else 0
  }

  /** Every message taken in leaves exactly once or is still held. */
  lemma {:induction false} NothingLostOrDuplicated(ops: seq<Op>, k: Key)
    ensures Arrivals(ops, k) == Departures(ops, k) + if k in Run(map[], ops) then 1 else 0
    decreases |ops|
  {
    if ops != [] {
      var before, op := ops[..|ops| - 1], ops[|ops| - 1];
      NothingLostOrDuplicated(before, k);
    }
  }

  // ---------------------------------------------------------------- keys made from heights

  const ZERO_KEY: Key := seq(32, _ => 0)

  function KeyOf(a: Byte, b: Byte, c: Byte, d: Byte, e: Byte): Key {
    [a, b, c, d, e] + seq(27, _ => 0)
  }

  /** The height's four bytes and the minute's low byte in front of zeros. */
  function HeightToHash(height: nat, minute: int): Key {
    KeyOf(ToByte(height / 0x100_0000), ToByte(height / 0x1_0000), ToByte(height / 0x100), ToByte(height), ToByte(minute))
  }

  /** The first four bytes of a key spell the height, the fifth is the minute's low byte, the rest is zero. */
  ghost predicate KeyFor(k: Key, height: nat, minute: nat) {
    && |k| == 32 && Spell4(k[0], k[1], k[2], k[3]) == height && k[4] == minute
    && forall i :: 5 <= i < 32 ==> k[i] == 0
  }

  lemma KeyOfSpells(a: Byte, b: Byte, c: Byte, d: Byte, e: Byte)
    ensures KeyFor(KeyOf(a, b, c, d, e), Spell4(a, b, c, d), e)
  {
  }

  lemma KeySpells(height: nat, minute: int)
    requires height < 0x1_0000_0000
    ensures KeyFor(HeightToHash(height, minute), height, ToByte(minute))
  {
    var a, b, c, d := ToByte(height / 0x100_0000), ToByte(height / 0x1_0000), ToByte(height / 0x100), ToByte(height);
    FourBytes(height);
    assert Spell4(a, b, c, d) == height;
    KeyOfSpells(a, b, c, d, ToByte(minute));
  }

  lemma KeysDecide(a: Key, b: Key, height: nat, minute: nat, height': nat, minute': nat)
    requires KeyFor(a, height, minute) && KeyFor(b, height', minute')
    ensures a == b <==> height == height' && minute == minute'
  {
    Spell4Unique(a[0], a[1], a[2], a[3], b[0], b[1], b[2], b[3]);
  }

  /** Two heights and minutes share a key exactly when the heights are equal and the minutes agree in
      their low byte; for minutes below 256 the key determines both. */
  lemma HeightToHashExactly(height: nat, minute: int, height': nat, minute': int)
    requires height < 0x1_0000_0000 && height' < 0x1_0000_0000
    ensures HeightToHash(height, minute) == HeightToHash(height', minute') <==>
              height == height' && ToByte(minute) == ToByte(minute')
  {
    var a, b := HeightToHash(height, minute), HeightToHash(height', minute');
    assert KeyFor(a, height, ToByte(minute)) by { KeySpells(height, minute); }
    assert KeyFor(b, height', ToByte(minute')) by { KeySpells(height', minute'); }
    KeysDecide(a, b, height, ToByte(minute), height', ToByte(minute'));
  }

  /** The zero key belongs to height 0 and minute 0, and to no other height. */
  lemma ZeroKeyExactly(height: nat, minute: int)
    requires height < 0x1_0000_0000
    ensures HeightToHash(height, minute) == ZERO_KEY <==> height == 0 && ToByte(minute) == 0
  {
    ZeroIsZeroKey();
    HeightToHashExactly(height, minute, 0, 0);
  }

  lemma ZeroIsZeroKey()
    ensures HeightToHash(0, 0) == ZERO_KEY
  {
  }

  /** Holding for a height panics, and gives no code, exactly at height 0 and minute 0 (mod 256); otherwise
      the message is held and marked as not to be processed now. */
  method HoldForHeight(l: HoldingList, height: nat, minute: int, msg: Msg) returns (code: Option<int>)
    requires l.Valid() && height < 0x1_0000_0000
    modifies l
    ensures l.Valid()
    ensures code == if height == 0 && minute % 256 == 0 then None else Some(-2)
    ensures l.View() == if code.None? then old(l.View())
                        else Step(old(l.View()), AddOp(HeightToHash(height, minute), msg))
  {
    ZeroKeyExactly(height, minute);
    var h := HeightToHash(height, minute);
    if h == ZERO_KEY {
      return None;
    }
    var added := l.Add(h, msg);
    return Some(-2);
  }
}
