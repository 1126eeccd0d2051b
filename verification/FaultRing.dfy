/** Faulting on the ring of virtual machines (state/fault.go:78-146). Each virtual machine is watched
    by the next one; clearing a fault also clears the faults behind it. */
module FaultRing {

  datatype VM = VM(whenFaulted: int, faultFlag: int)

  const CLEARED := VM(0, -1)

  /** Each minute's map has this many places; there are at least as many machines. */
  const PLACES := 64

  predicate Faulted(vm: VM) {
    vm.faultFlag > 0
  }

  function Next(n: nat, i: nat): (j: nat)
    requires n > 0
    ensures j < n
  {
    (i + 1) % n
  }

  function Pred(n: nat, i: nat): nat
    requires i < n
  {
    if i == 0 then n - 1 else i - 1
  }

  // ---------------------------------------------------------------- how many are faulted

  function CountFaulted(vms: seq<VM>, n: nat): nat
    requires n <= |vms|
  {
    if n == 0 then 0 else CountFaulted(vms, n - 1) + if Faulted(vms[n - 1]) then 1 else 0
  }

  lemma {:induction false} ClearingCounts(vms: seq<VM>, n: nat, v: nat)
    requires n <= |vms| && v < |vms|
    ensures CountFaulted(vms[v := CLEARED], n) == CountFaulted(vms, n) - if v < n && Faulted(vms[v]) then 1 else 0
  {
    if n > 0 {
      ClearingCounts(vms, n - 1, v);
    }
  }

  /** The measure of the recursion round the ring. */
  function ToClear(vms: seq<VM>, n: nat, v: nat): nat
    requires n <= |vms| && v < |vms|
  {
    CountFaulted(vms, n) + if v < n && Faulted(vms[v]) then 0 else 1
  }

  // ---------------------------------------------------------------- clearing a fault

  /** The machines after clearing `v` and, while the next one is faulted, the next one. */
  function NoFault(vms: seq<VM>, n: nat, v: nat): (r: seq<VM>)
    requires 0 < n <= |vms| && v < |vms|
    ensures |r| == |vms|
    decreases ToClear(vms, n, v)
  {
    ClearingCounts(vms, n, v);
    var cleared := vms[v := CLEARED];
    if Faulted(cleared[Next(n, v)]) then NoFault(cleared, n, Next(n, v)) else cleared
  }

  /** The machines cleared on the way, first to last. */
  function Visited(vms: seq<VM>, n: nat, v: nat): seq<nat>
    requires 0 < n <= |vms| && v < |vms|
    decreases ToClear(vms, n, v)
  {
    ClearingCounts(vms, n, v);
    var cleared := vms[v := CLEARED];
    [v] + if Faulted(cleared[Next(n, v)]) then Visited(cleared, n, Next(n, v)) else []
  }

  /** `i` is the `d`-th machine after `from`, and it and all machines in between are faulted. */
  ghost predicate Chain(vms: seq<VM>, n: nat, from: nat, i: nat, d: nat)
    requires 0 < n <= |vms|
    decreases d
  {
    var p := Next(n, from);
    d > 0 && Faulted(vms[p]) && if d == 1 then p == i else Chain(vms, n, p, i, d - 1)
  }

  /** `i` belongs to the faulted run right behind `v`. */
  ghost predicate InRun(vms: seq<VM>, n: nat, v: nat, i: nat)
    requires 0 < n <= |vms|
  {
    exists d: nat :: Chain(vms, n, v, i, d)
  }

  /** A chain either avoids `v` or passes it, and then a shorter chain starts there. */
  lemma {:induction false} AvoidOrRestart(vms: seq<VM>, n: nat, v: nat, a: nat, i: nat, d: nat) returns (restart: nat)
    requires 0 < n <= |vms| && v < |vms| && i != v && Chain(vms, n, a, i, d)
    ensures restart < d
    ensures if restart == 0 then Chain(vms[v := CLEARED], n, a, i, d) else Chain(vms, n, v, i, restart)
    decreases d
  {
    var p := Next(n, a);
    if p == v {
      restart := d - 1;
    } else if d == 1 {
      restart := 0;
    } else {
      restart := AvoidOrRestart(vms, n, v, p, i, d - 1);
    }
  }

  lemma {:induction false} ChainInCleared(vms: seq<VM>, n: nat, v: nat, a: nat, i: nat, d: nat)
    requires 0 < n <= |vms| && v < |vms| && Chain(vms[v := CLEARED], n, a, i, d)
    ensures Chain(vms, n, a, i, d)
    decreases d
  {
    if d > 1 {
      ChainInCleared(vms, n, v, Next(n, a), i, d - 1);
    }
  }

  /** A chain from `v` to another machine goes on from the next machine without `v`. */
  lemma {:induction false} RunGoesOn(vms: seq<VM>, n: nat, v: nat, i: nat, d: nat)
    requires 0 < n <= |vms| && v < |vms| && i != v && Chain(vms, n, v, i, d)
    ensures i == Next(n, v) || InRun(vms[v := CLEARED], n, Next(n, v), i)
    decreases d
  {
    if d > 1 {
      var restart := AvoidOrRestart(vms, n, v, Next(n, v), i, d - 1);
      if restart > 0 {
        RunGoesOn(vms, n, v, i, restart);
      }
    }
  }

  /** One step of the recursion takes the run apart. */
  lemma RunUnfolds(vms: seq<VM>, n: nat, v: nat, i: nat)
    requires 0 < n <= |vms| && v < |vms| && i != v
    ensures var cleared, next := vms[v := CLEARED], Next(n, v);
            InRun(vms, n, v, i) <==> Faulted(cleared[next]) && (i == next || InRun(cleared, n, next, i))
  {
    var cleared, next := vms[v := CLEARED], Next(n, v);
    if InRun(vms, n, v, i) {
      var d: nat :| Chain(vms, n, v, i, d);
      RunGoesOn(vms, n, v, i, d);
      if next == v {
        OnlyOne(vms, n, v, i, d);
      }
    }
    if Faulted(cleared[next]) && i == next {
      assert Chain(vms, n, v, i, 1);
    }
    if Faulted(cleared[next]) && InRun(cleared, n, next, i) {
      var d: nat :| Chain(cleared, n, next, i, d);
      ChainInCleared(vms, n, v, next, i, d);
      assert Chain(vms, n, v, i, d + 1);
    }
  }

  lemma {:induction false} OnlyOne(vms: seq<VM>, n: nat, v: nat, i: nat, d: nat)
    requires 0 < n <= |vms| && Next(n, v) == v && Chain(vms, n, v, i, d)
    ensures i == v
    decreases d
  {
    if d > 1 {
      OnlyOne(vms, n, v, i, d - 1);
    }
  }

  /** Exactly `v` and the faulted run behind it are cleared; every other machine is as it was. */
  lemma {:induction false} NoFaultClearsRun(vms: seq<VM>, n: nat, v: nat, i: nat)
    requires 0 < n <= |vms| && v < |vms| && i < |vms|
    ensures NoFault(vms, n, v)[i] == if i == v || InRun(vms, n, v, i) then CLEARED else vms[i]
    ensures i in Visited(vms, n, v) <==> i == v || InRun(vms, n, v, i)
    decreases ToClear(vms, n, v)
  {
    ClearingCounts(vms, n, v);
    var cleared, next := vms[v := CLEARED], Next(n, v);
    if i != v {
      RunUnfolds(vms, n, v, i);
    }
    if Faulted(cleared[next]) {
      NoFaultClearsRun(cleared, n, next, i);
    }
  }

  // ---------------------------------------------------------------- which servers are online

  /** The server list with the server of a machine switched; a machine without a server does nothing. */
  function Switched(online: seq<bool>, server: nat, on: bool): (r: seq<bool>)
    ensures |r| == |online|
  {
    if server < |online| then online[server := on] else online
  }

  /** Switching the servers of machines on, last machine first, as the recursion unwinds. */
  function SwitchedOn(online: seq<bool>, servers: seq<nat>, machines: seq<nat>): (r: seq<bool>)
    requires forall i :: 0 <= i < |machines| ==> machines[i] < |servers|
    ensures |r| == |online|
    decreases |machines|
  {
    if machines == [] then online
    else Switched(SwitchedOn(online, servers, machines[1..]), servers[machines[0]], true)
  }

  lemma {:induction false} SwitchedOnExactly(online: seq<bool>, servers: seq<nat>, machines: seq<nat>, s: nat)
    requires forall i :: 0 <= i < |machines| ==> machines[i] < |servers|
    requires s < |online|
    ensures SwitchedOn(online, servers, machines)[s] <==>
              online[s] || exists i :: 0 <= i < |machines| && servers[machines[i]] == s
    decreases |machines|
  {
    if machines != [] {
      SwitchedOnExactly(online, servers, machines[1..], s);
      if i :| 0 <= i < |machines[1..]| && servers[machines[1..][i]] == s {
        assert servers[machines[i + 1]] == s;
      }
      if i :| 0 <= i < |machines| && servers[machines[i]] == s {
        if i > 0 {
          assert servers[machines[1..][i - 1]] == s;
        }
      }
    }
  }

  lemma {:induction false} VisitedInRange(vms: seq<VM>, n: nat, v: nat, bound: nat)
    requires 0 < n <= |vms| && v < |vms| && n <= bound && v < bound
    ensures forall i :: 0 <= i < |Visited(vms, n, v)| ==> Visited(vms, n, v)[i] < bound
    decreases ToClear(vms, n, v)
  {
    ClearingCounts(vms, n, v);
    var cleared, next := vms[v := CLEARED], Next(n, v);
    if Faulted(cleared[next]) {
      VisitedInRange(cleared, n, next, bound);
    }
  }

  // ---------------------------------------------------------------- one look round the ring

  /** What the node's state says: whether it is too early to fault anybody, and whether and where this
      node leads. */
  datatype Local = Local(ignoreMissing: bool, leader: bool, leaderVMIndex: int, faultTimeout: int)

  predicate MayFault(local: Local, v: nat) {
    !local.ignoreMissing && !(local.leader && local.leaderVMIndex == v)
  }

  predicate LongFaulted(local: Local, vm: VM, now: int) {
    vm.whenFaulted > 0 && now - vm.whenFaulted > local.faultTimeout * 2
  }

  /** The watcher of `p` has been faulted for long, is not this node, and `p` may be faulted. */
  predicate Marked(local: Local, vms: seq<VM>, n: nat, p: nat, now: int)
    requires p < n <= |vms|
  {
    var w := Pred(n, p);
    w != local.leaderVMIndex && LongFaulted(local, vms[w], now) && MayFault(local, p)
  }

  class ProcessList {
    var vms: seq<VM>
    var online: seq<bool>          // of the federated servers
    var serverMap: seq<seq<nat>>   // per minute, the server of each machine
    var minute: nat
    var local: Local

    ghost predicate Valid()
      reads this
    {
      && 0 < |online| <= PLACES <= |vms|
      && |serverMap| == 10 && forall m :: 0 <= m < 10 ==> |serverMap[m]| == PLACES
    }

    constructor (vms: seq<VM>, online: seq<bool>, serverMap: seq<seq<nat>>, minute: nat, local: Local)
      requires 0 < |online| <= PLACES <= |vms|
      requires |serverMap| == 10 && forall m :: 0 <= m < 10 ==> |serverMap[m]| == PLACES
      ensures Valid() && this.vms == vms && this.online == online && this.serverMap == serverMap
      ensures this.minute == minute && this.local == local
    {
      this.vms, this.online, this.serverMap, this.minute, this.local := vms, online, serverMap, minute, local;
    }

    /** The servers of this minute; the tenth minute's stand for all later ones. */
    function Servers(): seq<nat>
      reads this
      requires |serverMap| == 10
    {
      serverMap[if minute > 9 then 9 else minute]
    }

    method MarkFault(vmIndex: nat, faultReason: int, now: int)
      requires Valid() && vmIndex < PLACES
      modifies this`vms, this`online
      ensures Valid() && |online| == |old(online)|
      ensures vms == Marking(local, old(vms), vmIndex, faultReason, now)
      ensures online == Unlit(local, old(online), vmIndex, Servers()[vmIndex])
      ensures local.ignoreMissing || (local.leader && local.leaderVMIndex == vmIndex) ==>
                vms == old(vms) && online == old(online)
      ensures !local.ignoreMissing && !(local.leader && local.leaderVMIndex == vmIndex) ==>
                && (now != 0 ==> vms[vmIndex].whenFaulted != 0)
                && (Servers()[vmIndex] < |online| ==> !online[Servers()[vmIndex]])
    {
      if local.ignoreMissing {
        return;
      }
      if local.leader && local.leaderVMIndex == vmIndex {
        return;
      }
      var vm := vms[vmIndex];
      if vm.whenFaulted == 0 {
        vms := vms[vmIndex := VM(now, faultReason)];
      }
      var c := minute;
      if c > 9 {
        c := 9;
      }
      var index := serverMap[c][vmIndex];
      if index < |online| {
        online := online[index := false];
      }
    }

    method MarkNoFault(vmIndex: nat)
      requires Valid() && vmIndex < PLACES
      modifies this`vms, this`online
      ensures Valid() && |online| == |old(online)| && |vms| == |old(vms)|
      ensures vms == NoFault(old(vms), |online|, vmIndex)
      ensures forall i :: 0 <= i < |Visited(old(vms), |online|, vmIndex)| ==> Visited(old(vms), |online|, vmIndex)[i] < PLACES
      ensures online == SwitchedOn(old(online), Servers(), Visited(old(vms), |online|, vmIndex))
      decreases ToClear(vms, |online|, vmIndex)
    {
      var n := |online|;
      ClearingCounts(vms, n, vmIndex);
      VisitedInRange(vms, n, vmIndex, PLACES);
      vms := vms[vmIndex := VM(0, -1)];
      var nextIndex := (vmIndex + 1) % n;
      if vms[nextIndex].faultFlag > 0 {
        MarkNoFault(nextIndex);
      }
      var c := minute;
      if c > 9 {
        c := 9;
      }
      var index := serverMap[c][vmIndex];
      if index < |online| {
        online := online[index := true];
      }
    }

    /** One look round the ring. A machine is newly faulted exactly when its watcher was already long
        faulted before the pass, so faults do not cascade within a pass, and a fault that is already
        recorded keeps its time. The clock is read once first and again at each marking, `later[i]` when
        machine `i` is looked at, and does not go back behind the first reading. */
    method FaultCheck(now: int, later: seq<int>)
      requires Valid() && local.faultTimeout >= 0 && Readings(now, later, |online|)
      modifies this`vms, this`online
      ensures Valid() && |vms| == |old(vms)| && |online| == |old(online)|
      ensures forall p :: 0 <= p < |online| ==>
                vms[p] == if ToFault(local, old(vms), |online|, p, now) && old(vms)[p].whenFaulted == 0
                          then VM(later[Pred(|online|, p)], 1) else old(vms)[p]
      ensures forall p :: |online| <= p < |vms| ==> vms[p] == old(vms)[p]
      ensures forall s :: 0 <= s < |online| ==>
                (online[s] <==> old(online)[s] && !ServerToFault(local, old(vms), |online|, Servers(), now, s))
      ensures local.ignoreMissing ==> vms == old(vms) && online == old(online)
      ensures SparesOwn(local, old(vms), vms)
    {
      var n := |online|;
      ghost var was, lit := vms, online;
      for i := 0 to n
        invariant Valid()
        invariant Checked(local, was, lit, Servers(), now, later, i, vms, online)
      {
        CheckedStep(local, was, lit, Servers(), now, later, i, vms, online);
        CheckOne(i, now, later[i]);
      }
      forall p | 0 <= p < n
        ensures Marked(local, was, n, p, now) <==> ToFault(local, was, n, p, now)
      {
        MarkedMeans(local, was, n, p, now);
      }
      forall s | 0 <= s < n
        ensures MarkedServer(local, was, n, Servers(), now, n, s) <==> ServerToFault(local, was, n, Servers(), now, s)
      {
        MarkedServerMeans(local, was, n, Servers(), now, s);
      }
    }

    /** One turn of the loop of FaultCheck. */
    method CheckOne(i: nat, now: int, later: int)
      requires Valid() && i < |online|
      modifies this`vms, this`online
      ensures Valid() && |online| == |old(online)|
      ensures vms == PassVms(local, old(vms), |online|, i, now, later)
      ensures online == PassOnline(local, old(vms), old(online), Servers(), i, now)
    {
      if i != local.leaderVMIndex {
        var vm := vms[i];
        if vm.whenFaulted > 0 && now - vm.whenFaulted > local.faultTimeout * 2 {
          var newVMI := (i + 1) % |online|;
          MarkFault(newVMI, 1, later);
        }
      }
    }
  }

  /** The machine this node leads keeps its record. */
  ghost predicate SparesOwn(local: Local, was: seq<VM>, vms: seq<VM>) {
    |vms| == |was| && (local.leader && 0 <= local.leaderVMIndex < |was| ==> vms[local.leaderVMIndex] == was[local.leaderVMIndex])
  }

  /** The machine before `p` was recorded as faulted more than two timeouts ago, and is not this node's. */
  ghost predicate WatcherGone(local: Local, was: seq<VM>, n: nat, p: nat, now: int)
    requires p < n <= |was|
  {
    exists w :: 0 <= w < n && p == (w + 1) % n && w != local.leaderVMIndex
             && 0 < was[w].whenFaulted && was[w].whenFaulted + 2 * local.faultTimeout < now
  }

  /** Machine `p` has to be faulted: nobody watches it, it is not this node's, and it is not too early. */
  ghost predicate ToFault(local: Local, was: seq<VM>, n: nat, p: nat, now: int)
    requires p < n <= |was|
  {
    !local.ignoreMissing && !(local.leader && p == local.leaderVMIndex) && WatcherGone(local, was, n, p, now)
  }

  ghost predicate ServerToFault(local: Local, was: seq<VM>, n: nat, servers: seq<nat>, now: int, s: nat)
    requires n <= |servers| <= |was|
  {
    exists p :: 0 <= p < n && servers[p] == s && ToFault(local, was, n, p, now)
  }

  lemma MarkedMeans(local: Local, was: seq<VM>, n: nat, p: nat, now: int)
    requires p < n <= |was|
    ensures Marked(local, was, n, p, now) <==> ToFault(local, was, n, p, now)
  {
    var w := Pred(n, p);
    assert p == (w + 1) % n;
    if WatcherGone(local, was, n, p, now) {
      var v :| 0 <= v < n && p == (v + 1) % n && v != local.leaderVMIndex
            && 0 < was[v].whenFaulted && was[v].whenFaulted + 2 * local.faultTimeout < now;
      NextAndPred(n, v, p);
    }
  }

  lemma MarkedServerMeans(local: Local, was: seq<VM>, n: nat, servers: seq<nat>, now: int, s: nat)
    requires n <= |servers| <= |was|
    ensures MarkedServer(local, was, n, servers, now, n, s) <==> ServerToFault(local, was, n, servers, now, s)
  {
    forall p | 0 <= p < n
      ensures Marked(local, was, n, p, now) <==> ToFault(local, was, n, p, now)
      ensures Pred(n, p) < n
    {
      MarkedMeans(local, was, n, p, now);
    }
    if p :| 0 <= p < n && servers[p] == s && ToFault(local, was, n, p, now) {
      assert Pred(n, p) < n && Marked(local, was, n, p, now);
    }
  }

  /** Marking records a fault that was not recorded yet, if the machine may be faulted. */
  function Marking(local: Local, vms: seq<VM>, v: nat, reason: int, now: int): seq<VM>
    requires v < |vms|
  {
    if MayFault(local, v) && vms[v].whenFaulted == 0 then vms[v := VM(now, reason)] else vms
  }

  /** A machine marked for a positive reason is faulted from then on, and is not once that is cleared. */
  lemma MarkingFaults(local: Local, vms: seq<VM>, v: nat, reason: int, now: int)
    requires v < |vms| && MayFault(local, v) && vms[v].whenFaulted == 0
    ensures Faulted(Marking(local, vms, v, reason, now)[v]) <==> reason > 0
    ensures !Faulted(CLEARED)
  {
  }

  function Unlit(local: Local, online: seq<bool>, v: nat, server: nat): seq<bool> {
    if MayFault(local, v) then Switched(online, server, false) else online
  }

  /** What looking at machine `i` does. */
  function PassVms(local: Local, vms: seq<VM>, n: nat, i: nat, now: int, later: int): seq<VM>
    requires i < n <= |vms|
  {
    if i != local.leaderVMIndex && LongFaulted(local, vms[i], now)
    then Marking(local, vms, Next(n, i), 1, later) else vms
  }

  function PassOnline(local: Local, vms: seq<VM>, online: seq<bool>, servers: seq<nat>, i: nat, now: int): seq<bool>
    requires i < |online| <= |servers| <= |vms|
  {
    if i != local.leaderVMIndex && LongFaulted(local, vms[i], now)
    then Unlit(local, online, Next(|online|, i), servers[Next(|online|, i)]) else online
  }

  /** Readings of the clock, one for each machine, none behind `now`. */
  ghost predicate Readings(now: int, later: seq<int>, n: nat) {
    0 < now && |later| == n && forall i :: 0 <= i < n ==> now <= later[i]
  }

  /** The pass after its first `i` machines: the machines, and the servers. */
  ghost predicate CheckedVms(local: Local, was: seq<VM>, n: nat, now: int, later: seq<int>, i: int, vms: seq<VM>) {
    && 0 <= i <= n <= |was| == |vms| && |later| == n
    && (forall p :: 0 <= p < n ==>
          vms[p] == if Pred(n, p) < i && Marked(local, was, n, p, now) && was[p].whenFaulted == 0
                    then VM(later[Pred(n, p)], 1) else was[p])
    && (forall p :: n <= p < |vms| ==> vms[p] == was[p])
  }

  ghost predicate CheckedOnline(local: Local, was: seq<VM>, lit: seq<bool>, servers: seq<nat>, now: int, i: int,
                                online: seq<bool>) {
    var n := |lit|;
    && 0 <= i <= n <= |servers| <= |was| && |online| == n
    && (forall s :: 0 <= s < n ==> (online[s] <==> lit[s] && !MarkedServer(local, was, n, servers, now, i, s)))
  }

  ghost predicate Checked(local: Local, was: seq<VM>, lit: seq<bool>, servers: seq<nat>, now: int, later: seq<int>,
                          i: int, vms: seq<VM>, online: seq<bool>) {
    CheckedVms(local, was, |lit|, now, later, i, vms) && CheckedOnline(local, was, lit, servers, now, i, online)
  }

  /** A machine faulted in this pass is not yet long faulted, so the test sees the state before it. */
  lemma CheckedTest(local: Local, was: seq<VM>, n: nat, now: int, later: seq<int>, i: int, vms: seq<VM>)
    requires CheckedVms(local, was, n, now, later, i, vms) && i < n
    requires local.faultTimeout >= 0 && Readings(now, later, n)
    ensures LongFaulted(local, vms[i], now) <==> LongFaulted(local, was[i], now)
  {
  }

  lemma NextAndPred(n: nat, i: nat, q: nat)
    requires i < n && q < n
    ensures Pred(n, q) == i <==> q == Next(n, i)
  {
  }

  lemma CheckedVmsStep(local: Local, was: seq<VM>, n: nat, now: int, later: seq<int>, i: int, vms: seq<VM>)
    requires CheckedVms(local, was, n, now, later, i, vms) && i < n
    requires local.faultTimeout >= 0 && Readings(now, later, n)
    ensures CheckedVms(local, was, n, now, later, i + 1, PassVms(local, vms, n, i, now, later[i]))
  {
    CheckedTest(local, was, n, now, later, i, vms);
    var after := PassVms(local, vms, n, i, now, later[i]);
    forall p | 0 <= p < n
      ensures after[p] == if Pred(n, p) < i + 1 && Marked(local, was, n, p, now) && was[p].whenFaulted == 0
                          then VM(later[Pred(n, p)], 1) else was[p]
    {
      NextAndPred(n, i, p);
    }
  }

  lemma CheckedOnlineStep(local: Local, was: seq<VM>, lit: seq<bool>, servers: seq<nat>, now: int, later: seq<int>,
                          i: int, vms: seq<VM>, online: seq<bool>)
    requires Checked(local, was, lit, servers, now, later, i, vms, online) && i < |lit|
    requires local.faultTimeout >= 0 && Readings(now, later, |lit|)
    ensures CheckedOnline(local, was, lit, servers, now, i + 1, PassOnline(local, vms, online, servers, i, now))
  {
    var n := |lit|;
    CheckedTest(local, was, n, now, later, i, vms);
    NextAndPred(n, i, Next(n, i));
    forall s | 0 <= s < n
      ensures PassOnline(local, vms, online, servers, i, now)[s] <==>
                lit[s] && !MarkedServer(local, was, n, servers, now, i + 1, s)
    {
      MarkedServerNext(local, was, n, servers, now, i, s);
    }
  }

  lemma CheckedStep(local: Local, was: seq<VM>, lit: seq<bool>, servers: seq<nat>, now: int, later: seq<int>,
                    i: int, vms: seq<VM>, online: seq<bool>)
    requires Checked(local, was, lit, servers, now, later, i, vms, online) && i < |lit|
    requires local.faultTimeout >= 0 && Readings(now, later, |lit|)
    ensures Checked(local, was, lit, servers, now, later, i + 1,
                    PassVms(local, vms, |lit|, i, now, later[i]), PassOnline(local, vms, online, servers, i, now))
  {
    CheckedVmsStep(local, was, |lit|, now, later, i, vms);
    CheckedOnlineStep(local, was, lit, servers, now, later, i, vms, online);
  }

  /** Server `s` belongs to a marked machine whose watcher is one of the first `i` machines. */
  ghost predicate MarkedServer(local: Local, vms: seq<VM>, n: nat, servers: seq<nat>, now: int, i: nat, s: nat)
    requires n <= |servers| <= |vms|
  {
    exists p :: 0 <= p < n && Pred(n, p) < i && Marked(local, vms, n, p, now) && servers[p] == s
  }

  lemma MarkedServerNext(local: Local, vms: seq<VM>, n: nat, servers: seq<nat>, now: int, i: nat, s: nat)
    requires i < n <= |servers| <= |vms|
    ensures MarkedServer(local, vms, n, servers, now, i + 1, s) <==>
              || MarkedServer(local, vms, n, servers, now, i, s)
              || (Marked(local, vms, n, Next(n, i), now) && servers[Next(n, i)] == s)
  {
    var q := Next(n, i);
    assert Pred(n, q) == i;
    if MarkedServer(local, vms, n, servers, now, i + 1, s) {
      var p :| 0 <= p < n && Pred(n, p) < i + 1 && Marked(local, vms, n, p, now) && servers[p] == s;
      assert Pred(n, p) == i ==> p == q;
    }
    if MarkedServer(local, vms, n, servers, now, i, s) {
      var p :| 0 <= p < n && Pred(n, p) < i && Marked(local, vms, n, p, now) && servers[p] == s;
      assert Pred(n, p) < i + 1;
    }
  }
}
