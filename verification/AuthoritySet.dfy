/** How many of a block's starting leaders may be replaced before the block ends: the guard of
    elections/elections.go:430-461 and the swap it guards
    (common/messages/electionMsgs/fedVoteLevelMsg.go:92-150, 236-237). The end of an election sends the
    swap to the state, which executes it later. Servers are their chain IDs. */
module AuthoritySet {

  type Id = nat

  predicate Contains(haystack: seq<Id>, needle: Id) {
    exists i :: 0 <= i < |haystack| && haystack[i] == needle
  }

  method ContainsServer(haystack: seq<Id>, needle: Id) returns (found: bool)
    ensures found <==> Contains(haystack, needle)
  {
    for i := 0 to |haystack|
      invariant forall k :: 0 <= k < i ==> haystack[k] != needle
    {
      if needle == haystack[i] {
        return true;
      }
    }
    return false;
  }

  ghost predicate Distinct(s: seq<Id>) {
    forall i, j :: 0 <= i < j < |s| ==> s[i] != s[j]
  }

  function Ids(s: seq<Id>): set<Id> {
    set x | x in s
  }

  lemma {:induction false} DistinctSize(s: seq<Id>)
    requires Distinct(s)
    ensures |Ids(s)| == |s|
    decreases |s|
  {
    if s != [] {
      var t := s[..|s| - 1];
      DistinctSize(t);
      assert s == t + [s[|s| - 1]];
      assert Ids(s) == Ids(t) + {s[|s| - 1]};
      assert s[|s| - 1] !in Ids(t);
    }
  }

  /** How many of the first servers of a list are in a set. */
  function CountIn(s: seq<Id>, in_: set<Id>): nat {
    if s == [] then 0
    else CountIn(s[..|s| - 1], in_) + if s[|s| - 1] in in_ then 1 else 0
  }

  lemma {:induction false} CountInIsSize(s: seq<Id>, in_: set<Id>)
    requires Distinct(s)
    ensures CountIn(s, in_) == |Ids(s) * in_|
    decreases |s|
  {
    if s == [] {
      assert Ids(s) * in_ == {};
    } else {
      var t, x := s[..|s| - 1], s[|s| - 1];
      CountInIsSize(t, in_);
      assert s == t + [x];
      assert Ids(s) == Ids(t) + {x} && x !in Ids(t);
      OneMore(in_, Ids(t), x);
    }
  }

  /** Adding an element to one side of an intersection. */
  lemma OneMore(a: set<Id>, b: set<Id>, x: Id)
    requires x !in b
    ensures |(b + {x}) * a| == |b * a| + if x in a then 1 else 0
  {
    if x in a {
      assert (b + {x}) * a == b * a + {x};
    } else {
      assert (b + {x}) * a == b * a;
    }
  }

  /** The starting leaders that are audit servers now. */
  function Demoted(starting: seq<Id>, feds: seq<Id>, auds: seq<Id>): nat {
    CountIn(starting, Ids(auds) - Ids(feds))
  }

  /** The guard as a formula. */
  predicate Safe(starting: seq<Id>, feds: seq<Id>, auds: seq<Id>, id: Id) {
    id !in starting || |starting| - Demoted(starting, feds, auds) - 1 >= |feds| / 2 + 1
  }

  class ProcessList {
    var startingFedServers: seq<Id>
    var fedServers: seq<Id>
    var auditServers: seq<Id>
    var waiting: seq<Replacement>   // swaps sent to the state and not yet executed

    ghost function View(): State
      reads this
    {
      State(Block(startingFedServers, fedServers, auditServers), waiting)
    }

    /** A block starts with its leaders as the starting leaders. */
    constructor (feds: seq<Id>, auds: seq<Id>)
      ensures View() == State(Block(feds, feds, auds), [])
    {
      startingFedServers, fedServers, auditServers, waiting := feds, feds, auds, [];
    }

    method IsSafeToReplaceFed(chainID: Id) returns (safe: bool)
      ensures safe <==> Safe(startingFedServers, fedServers, auditServers, chainID)
    {
      var isStarting := ContainsServer(startingFedServers, chainID);
      if !isStarting {
        return true;
      }
      var removedFeds := 0;
      for i := 0 to |startingFedServers|
        invariant removedFeds == Demoted(startingFedServers[..i], fedServers, auditServers)
      {
        assert startingFedServers[..i + 1][..i] == startingFedServers[..i];
        var isFed := ContainsServer(fedServers, startingFedServers[i]);
        if !isFed {
          var isAud := ContainsServer(auditServers, startingFedServers[i]);
          if isAud {
            removedFeds := removedFeds + 1;
          }
        }
      }
      assert startingFedServers[..|startingFedServers|] == startingFedServers;
      return |startingFedServers| - removedFeds - 1 >= |fedServers| / 2 + 1;
    }

    /** The end of an election: with the delta limit active the swap is sent only if the guard allows to
        replace the leader. */
    method EndElection(fedIdx: nat, audIdx: nat) returns (sent: bool)
      requires fedIdx < |fedServers| && audIdx < |auditServers|
      modifies this`waiting
      ensures View() == Step(old(View()), End(Replacement(fedIdx, audIdx)))
      ensures sent <==> waiting != old(waiting)
    {
      sent := IsSafeToReplaceFed(fedServers[fedIdx]);
      if sent {
        waiting := waiting + [Replacement(fedIdx, audIdx)];
      }
    }

    /** The state executes the oldest swap: the volunteer takes the leader's place and the leader the
        volunteer's. */
    method FollowerExecute()
      requires waiting != [] ==> InRange(Block(startingFedServers, fedServers, auditServers), waiting[0])
      modifies this`fedServers, this`auditServers, this`waiting
      ensures View() == Step(old(View()), Execute)
    {
      if waiting != [] {
        var r := waiting[0];
        waiting := waiting[1..];
        fedServers, auditServers := fedServers[r.fedIdx := auditServers[r.audIdx]], auditServers[r.audIdx := fedServers[r.fedIdx]];
      }
    }
  }

  // ---------------------------------------------------------------- whole blocks

  datatype Block = Block(starting: seq<Id>, feds: seq<Id>, auds: seq<Id>)
  datatype Replacement = Replacement(fedIdx: nat, audIdx: nat)

  predicate InRange(b: Block, r: Replacement) {
    r.fedIdx < |b.feds| && r.audIdx < |b.auds|
  }

  predicate Allowed(b: Block, r: Replacement)
    requires InRange(b, r)
  {
    Safe(b.starting, b.feds, b.auds, b.feds[r.fedIdx])
  }

  function Swapped(b: Block, r: Replacement): Block
    requires InRange(b, r)
  {
    Block(b.starting, b.feds[r.fedIdx := b.auds[r.audIdx]], b.auds[r.audIdx := b.feds[r.fedIdx]])
  }

  /** A block with the swaps on their way, and what can happen to it. */
  datatype State = State(block: Block, waiting: seq<Replacement>)
  datatype Event = End(r: Replacement) | Execute

  /** An index that names no server does nothing. */
  function Step(s: State, e: Event): State {
    match e
    case End(r) => if InRange(s.block, r) && Allowed(s.block, r) then s.(waiting := s.waiting + [r]) else s
    case Execute =>
      if s.waiting == [] then s
      else if InRange(s.block, s.waiting[0]) then State(Swapped(s.block, s.waiting[0]), s.waiting[1..])
      else s.(waiting := s.waiting[1..])
  }

  function After(s: State, run: seq<Event>): State {
    if run == [] then s else Step(After(s, run[..|run| - 1]), run[|run| - 1])
  }

  /** No server is listed twice, no starting leader has left the authority set, and the number of
      leaders has not changed. */
  ghost predicate Consistent(b: Block) {
    && Distinct(b.starting) && Distinct(b.feds) && Distinct(b.auds)
    && Ids(b.feds) !! Ids(b.auds)
    && Ids(b.starting) <= Ids(b.feds) + Ids(b.auds)
    && |b.feds| == |b.starting|
  }

  /** The starting leaders that still lead. */
  ghost function Kept(b: Block): set<Id> {
    Ids(b.starting) * Ids(b.feds)
  }

  /** A strict majority of the leaders led at the start of the block. */
  ghost predicate KeepsMajority(b: Block) {
    |Kept(b)| >= |b.feds| / 2 + 1
  }

  /** Every starting leader still leads or has been demoted. */
  lemma KeptAndDemoted(b: Block)
    requires Consistent(b)
    ensures |Kept(b)| + Demoted(b.starting, b.feds, b.auds) == |b.starting|
  {
    var s, f, a := Ids(b.starting), Ids(b.feds), Ids(b.auds);
    CountInIsSize(b.starting, a - f);
    DistinctSize(b.starting);
    assert s == s * f + s * (a - f);
    assert (s * f) !! (s * (a - f));
  }

  /** What a swap does to the sets of leaders and audit servers. */
  lemma SwapSets(b: Block, r: Replacement)
    requires Consistent(b) && InRange(b, r)
    ensures var leader, volunteer := b.feds[r.fedIdx], b.auds[r.audIdx];
            var feds, auds := b.feds[r.fedIdx := volunteer], b.auds[r.audIdx := leader];
            && Ids(feds) == Ids(b.feds) - {leader} + {volunteer}
            && Ids(auds) == Ids(b.auds) - {volunteer} + {leader}
            && Distinct(feds) && Distinct(auds)
  {
    var leader, volunteer := b.feds[r.fedIdx], b.auds[r.audIdx];
    assert leader in Ids(b.feds) && volunteer in Ids(b.auds);
    UpdateSets(b.feds, r.fedIdx, volunteer);
    UpdateSets(b.auds, r.audIdx, leader);
  }

  lemma UpdateSets(s: seq<Id>, i: nat, x: Id)
    requires Distinct(s) && i < |s| && x !in s
    ensures Ids(s[i := x]) == Ids(s) - {s[i]} + {x}
    ensures Distinct(s[i := x])
  {
    var t := s[i := x];
    forall y | y in Ids(s) - {s[i]} + {x}
      ensures y in t
    {
      if y == x {
        assert t[i] == x;
      } else {
        var k :| 0 <= k < |s| && s[k] == y;
        assert t[k] == y;
      }
    }
    forall y | y in t
      ensures y in Ids(s) - {s[i]} + {x}
    {
      var k :| 0 <= k < |t| && t[k] == y;
      if k != i {
        assert s[k] == y && s[k] != s[i];
      }
    }
  }

  lemma SwappedKeepsConsistent(b: Block, r: Replacement)
    requires Consistent(b) && InRange(b, r)
    ensures Consistent(Swapped(b, r))
  {
    SwapSets(b, r);
  }

  /** A swap costs a kept leader exactly when a starting leader gives way to a newcomer. */
  lemma KeptAfterSwap(b: Block, r: Replacement)
    requires Consistent(b) && InRange(b, r)
    ensures |Kept(Swapped(b, r))| == |Kept(b)|
              - (if b.feds[r.fedIdx] in b.starting then 1 else 0)
              + (if b.auds[r.audIdx] in b.starting then 1 else 0)
  {
    SwapSets(b, r);
    var leader, volunteer := b.feds[r.fedIdx], b.auds[r.audIdx];
    assert leader in Ids(b.feds) && volunteer in Ids(b.auds);
    var rest := Ids(b.feds) - {leader};
    assert rest + {leader} == Ids(b.feds);
    OneMore(Ids(b.starting), rest, leader);
    OneMore(Ids(b.starting), rest, volunteer);
    assert Kept(b) == Ids(b.feds) * Ids(b.starting);
    assert Kept(Swapped(b, r)) == Ids(Swapped(b, r).feds) * Ids(b.starting);
  }

  /** The guard is exactly right: as long as the starting leaders have a strict majority, a swap leaves it to
      them if and only if it brings a starting leader back or the guard allows it when it is executed. */
  lemma GuardIsExact(b: Block, r: Replacement)
    requires Consistent(b) && InRange(b, r) && KeepsMajority(b)
    ensures KeepsMajority(Swapped(b, r)) <==> b.auds[r.audIdx] in b.starting || Allowed(b, r)
  {
    KeptAndDemoted(b);
    KeptAfterSwap(b, r);
  }

  /** A guard is evaluated only when no swap is on its way. */
  ghost predicate OneAtATime(s: State, run: seq<Event>) {
    forall n :: 0 <= n < |run| && run[n].End? ==> After(s, run[..n]).waiting == []
  }

  /** At most one swap is on its way, and it is still allowed. */
  ghost predicate Guarded(s: State) {
    && Consistent(s.block) && KeepsMajority(s.block) && |s.waiting| <= 1
    && (s.waiting != [] ==> InRange(s.block, s.waiting[0]) && Allowed(s.block, s.waiting[0]))
  }

  lemma StepGuarded(s: State, e: Event)
    requires Guarded(s) && (e.End? ==> s.waiting == [])
    ensures Guarded(Step(s, e)) && Step(s, e).block.starting == s.block.starting
  {
    if e.Execute? && s.waiting != [] {
      SwappedKeepsConsistent(s.block, s.waiting[0]);
      GuardIsExact(s.block, s.waiting[0]);
    }
  }

  lemma {:induction false} RunGuarded(s: State, run: seq<Event>)
    requires Guarded(s) && OneAtATime(s, run)
    ensures Guarded(After(s, run)) && After(s, run).block.starting == s.block.starting
    decreases |run|
  {
    if run != [] {
      var before := run[..|run| - 1];
      forall n | 0 <= n < |before| && before[n].End? ensures After(s, before[..n]).waiting == [] {
        assert run[n].End? && before[..n] == run[..n];
      }
      RunGuarded(s, before);
      assert run[..|run| - 1] == before;
      StepGuarded(After(s, before), run[|run| - 1]);
    }
  }

  lemma FewerThanHalfReplaced(b: Block)
    requires Consistent(b) && KeepsMajority(b)
    ensures 2 * |Ids(b.feds) - Ids(b.starting)| < |b.feds|
  {
    DistinctSize(b.feds);
    assert Ids(b.feds) - Ids(b.starting) == Ids(b.feds) - Kept(b);
    assert Kept(b) <= Ids(b.feds);
  }

  /** Over every run of elections and swaps in a block that starts with at least one leader and lists nobody
      twice, in which each swap is executed before the next guard is evaluated, a strict majority of the
      leaders led at the start, so that fewer than half have been replaced. */
  lemma MajoritySurvivesBlock(feds: seq<Id>, auds: seq<Id>, run: seq<Event>)
    requires feds != [] && Distinct(feds) && Distinct(auds) && Ids(feds) !! Ids(auds)
    requires OneAtATime(State(Block(feds, feds, auds), []), run)
    ensures var b := After(State(Block(feds, feds, auds), []), run).block;
            && b.starting == feds && Consistent(b) && KeepsMajority(b)
            && 2 * |Ids(b.feds) - Ids(b.starting)| < |b.feds|
  {
    var start := State(Block(feds, feds, auds), []);
    DistinctSize(feds);
    assert Kept(start.block) == Ids(feds);
    RunGuarded(start, run);
    FewerThanHalfReplaced(After(start, run).block);
  }

  lemma AfterTwo(s: State, run: seq<Event>, a: Event, b: Event)
    ensures After(s, run + [a, b]) == Step(Step(After(s, run), a), b)
  {
    var whole := run + [a, b];
    assert whole[..|whole| - 1] == run + [a] && (run + [a])[..|run|] == run;
  }

  lemma NobodyDemoted()
    ensures Demoted([1, 2, 3], [1, 2, 3], [4, 5]) == 0
  {
    CountInIsSize([1, 2, 3], Ids([4, 5]) - Ids([1, 2, 3]));
    assert Ids([1, 2, 3]) * (Ids([4, 5]) - Ids([1, 2, 3])) == {};
  }

  /** The swap executed next, if there is one, is allowed now or brings a starting leader back. */
  ghost predicate NextSwapOk(s: State) {
    s.waiting != [] && InRange(s.block, s.waiting[0]) ==>
      s.block.auds[s.waiting[0].audIdx] in s.block.starting || Allowed(s.block, s.waiting[0])
  }

  /** The majority is kept after the run and after every shorter run before it. */
  ghost predicate KeepsMajorityThroughout(s: State, run: seq<Event>) {
    KeepsMajority(After(s, run).block) && (run != [] ==> KeepsMajorityThroughout(s, run[..|run| - 1]))
  }

  ghost predicate EverySwapOk(s: State, run: seq<Event>) {
    run != [] ==>
      var before := run[..|run| - 1];
      EverySwapOk(s, before) && (run[|run| - 1].Execute? ==> NextSwapOk(After(s, before)))
  }

  lemma StepKeepsMajorityIff(s: State, e: Event)
    requires Consistent(s.block) && KeepsMajority(s.block)
    ensures Consistent(Step(s, e).block)
    ensures KeepsMajority(Step(s, e).block) <==> (e.Execute? ==> NextSwapOk(s))
  {
    if e.Execute? && s.waiting != [] && InRange(s.block, s.waiting[0]) {
      SwappedKeepsConsistent(s.block, s.waiting[0]);
      GuardIsExact(s.block, s.waiting[0]);
    }
  }

  /** The exact condition, for every run: the starting leaders keep their majority throughout if and only if
      every swap is still allowed when it is executed, or brings a starting leader back. */
  lemma {:induction false} MajorityKeptIff(s: State, run: seq<Event>)
    requires Consistent(s.block) && KeepsMajority(s.block)
    ensures KeepsMajorityThroughout(s, run) <==> EverySwapOk(s, run)
    ensures EverySwapOk(s, run) ==> Consistent(After(s, run).block)
    decreases |run|
  {
    if run != [] {
      var before := run[..|run| - 1];
      MajorityKeptIff(s, before);
      if EverySwapOk(s, before) {
        StepKeepsMajorityIff(After(s, before), run[|run| - 1]);
      }
    }
  }

  /** Without that the majority can be lost: the guard sees the process list, where a swap that is on its way
      has not happened yet, so that it lets two leaders of three go. */
  lemma TwoSwapsUnderWay()
    ensures var run := [End(Replacement(0, 0)), End(Replacement(1, 1))] + [Execute, Execute];
            var b := After(State(Block([1, 2, 3], [1, 2, 3], [4, 5]), []), run).block;
            b == Block([1, 2, 3], [4, 5, 3], [1, 2]) && !KeepsMajority(b)
  {
    var r0, r1 := Replacement(0, 0), Replacement(1, 1);
    var s := State(Block([1, 2, 3], [1, 2, 3], [4, 5]), []);
    NobodyDemoted();
    assert [] + [End(r0), End(r1)] == [End(r0), End(r1)];
    AfterTwo(s, [], End(r0), End(r1));
    AfterTwo(s, [End(r0), End(r1)], Execute, Execute);
    assert Step(Step(s, End(r0)), End(r1)) == State(s.block, [r0, r1]);
    var b := Block([1, 2, 3], [4, 5, 3], [1, 2]);
    SwapsDone(r0, r1);
    assert Kept(b) == {3};
  }

  lemma SwapsDone(r0: Replacement, r1: Replacement)
    requires r0 == Replacement(0, 0) && r1 == Replacement(1, 1)
    ensures Step(Step(State(Block([1, 2, 3], [1, 2, 3], [4, 5]), [r0, r1]), Execute), Execute).block
         == Block([1, 2, 3], [4, 5, 3], [1, 2])
  {
    assert [r0, r1][1..] == [r1];
  }
}
