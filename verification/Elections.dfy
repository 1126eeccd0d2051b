/** The election's authority lists and its choice of volunteer (elections/elections.go). */
module Elections {
  import opened Options
  import opened ElectionSupport

  // ---------------------------------------------------------------- looking servers up

  /** `idx` is the first position of the chain ID, or -1 when it is not there. */
  ghost predicate IndexOf(s: seq<Server>, id: Hash, idx: int) {
    if idx == -1 then !HasId(s, id)
    else 0 <= idx < |s| && s[idx].chainID == id && forall k :: 0 <= k < idx ==> s[k].chainID != id
  }

  function FirstIndex(s: seq<Server>, id: Hash): (idx: int)
    ensures -1 <= idx < |s|
  {
    if s == [] then -1
    else if s[0].chainID == id then 0
    else
      var rest := FirstIndex(s[1..], id);
      if rest == -1 then -1 else rest + 1
  }

  lemma {:induction false} FirstIndexIsIndex(s: seq<Server>, id: Hash)
    ensures IndexOf(s, id, FirstIndex(s, id))
    decreases |s|
  {
    if s != [] && s[0].chainID != id {
      var t := s[1..];
      FirstIndexIsIndex(t, id);
      var rest := FirstIndex(t, id);
      if rest == -1 {
        forall i | 0 <= i < |s| ensures s[i].chainID != id {
          if i > 0 {
            assert t[i - 1].chainID != id;
          }
        }
      } else {
        forall i | 0 <= i < rest + 1 ensures s[i].chainID != id {
          if i > 0 {
            assert t[i - 1].chainID != id;
          }
        }
      }
    }
  }

  lemma IndexUnique(s: seq<Server>, id: Hash, i: int, j: int)
    requires IndexOf(s, id, i) && IndexOf(s, id, j)
    ensures i == j
  {
  }

  function RemoveAt(s: seq<Server>, i: int): (r: seq<Server>)
    requires 0 <= i < |s|
    ensures |r| == |s| - 1
  {
    s[..i] + s[i + 1..]
  }

  // ---------------------------------------------------------------- the reference

  datatype Lists = Lists(federated: seq<Server>, audit: seq<Server>)

  function AddFed(l: Lists, server: Server): Lists {
    if FirstIndex(l.federated, server.chainID) != -1 then l
    else l.(federated := Insert(l.federated, server))
  }

  function RemoveFed(l: Lists, server: Server): Lists {
    var idx := FirstIndex(l.federated, server.chainID);
    if idx == -1 then l else l.(federated := RemoveAt(l.federated, idx))
  }

  function AddAud(l: Lists, server: Server): Lists {
    if FirstIndex(l.audit, server.chainID) != -1 then l
    else
      var l' := RemoveFed(l, server);
      l'.(audit := Insert(l'.audit, server))
  }

  ghost predicate Ordered(l: Lists) {
    StrictlySorted(l.federated) && StrictlySorted(l.audit)
  }

  datatype Op = AddFederated(server: Server) | AddAudit(server: Server) | RemoveFederated(server: Server)

  function Apply(l: Lists, op: Op): Lists {
    match op
    case AddFederated(s) => AddFed(l, s)
    case AddAudit(s) => AddAud(l, s)
    case RemoveFederated(s) => RemoveFed(l, s)
  }

  function Run(l: Lists, ops: seq<Op>): Lists
    decreases |ops|
  {
    if ops == [] then l else Run(Apply(l, ops[0]), ops[1..])
  }

  lemma RemoveAtStrictlySorted(s: seq<Server>, i: int)
    requires StrictlySorted(s) && 0 <= i < |s|
    ensures StrictlySorted(RemoveAt(s, i))
  {
  }

  lemma ApplyKeepsOrdered(l: Lists, op: Op)
    requires Ordered(l)
    ensures Ordered(Apply(l, op))
  {
    var id := op.server.chainID;
    FirstIndexIsIndex(l.federated, id);
    FirstIndexIsIndex(l.audit, id);
    var f := FirstIndex(l.federated, id);
    if f != -1 {
      RemoveAtStrictlySorted(l.federated, f);
    } else {
      InsertStrictlySorted(l.federated, op.server);
    }
    if FirstIndex(l.audit, id) == -1 {
      InsertStrictlySorted(l.audit, op.server);
    }
  }

  /** Every sequence of additions and removals keeps both lists strictly sorted. */
  lemma {:induction false} RunKeepsOrdered(l: Lists, ops: seq<Op>)
    requires Ordered(l)
    ensures Ordered(Run(l, ops))
    decreases |ops|
  {
    if ops != [] {
      ApplyKeepsOrdered(l, ops[0]);
      RunKeepsOrdered(Apply(l, ops[0]), ops[1..]);
    }
  }

  // ---------------------------------------------------------------- membership

  lemma InsertHasId(s: seq<Server>, x: Server, id: Hash)
    ensures HasId(Insert(s, x), id) <==> HasId(s, id) || id == x.chainID
  {
    InsertElements(s, x);
    var r := Insert(s, x);
    if HasId(r, id) {
      var i :| 0 <= i < |r| && r[i].chainID == id;
      assert r[i] in multiset(r);
      if r[i] != x {
        var k :| 0 <= k < |s| && s[k] == r[i];
      }
    }
    if HasId(s, id) {
      var i :| 0 <= i < |s| && s[i].chainID == id;
      assert s[i] in multiset(r);
      var k :| 0 <= k < |r| && r[k] == s[i];
    }
    assert x in multiset(r);
    var k :| 0 <= k < |r| && r[k] == x;
  }

  lemma RemoveAtHasId(s: seq<Server>, i: int, id: Hash)
    requires StrictlySorted(s) && 0 <= i < |s|
    ensures HasId(RemoveAt(s, i), id) <==> HasId(s, id) && id != s[i].chainID
  {
    var r := RemoveAt(s, i);
    if HasId(r, id) {
      var k :| 0 <= k < |r| && r[k].chainID == id;
      assert r[k] == if k < i then s[k] else s[k + 1];
    }
    if HasId(s, id) && id != s[i].chainID {
      var k :| 0 <= k < |s| && s[k].chainID == id;
      assert k != i;
      assert r[if k < i then k else k - 1] == s[k];
    }
  }

  /** The federated list gains and loses exactly the named server. */
  lemma FederatedMembership(l: Lists, op: Op, id: Hash)
    requires Ordered(l)
    ensures HasId(Apply(l, op).federated, id) <==>
              match op
              case AddFederated(s) => HasId(l.federated, id) || id == s.chainID
              case AddAudit(s) => HasId(l.federated, id) && (id == s.chainID ==> HasId(l.audit, id))
              case RemoveFederated(s) => HasId(l.federated, id) && id != s.chainID
  {
    var s := op.server;
    FirstIndexIsIndex(l.federated, s.chainID);
    FirstIndexIsIndex(l.audit, s.chainID);
    var f := FirstIndex(l.federated, s.chainID);
    if f != -1 {
      RemoveAtHasId(l.federated, f, id);
    } else {
      InsertHasId(l.federated, s, id);
    }
  }

  /** The audit list only ever gains. */
  lemma AuditMembership(l: Lists, op: Op, id: Hash)
    ensures HasId(Apply(l, op).audit, id) <==> HasId(l.audit, id) || (op.AddAudit? && id == op.server.chainID)
  {
    FirstIndexIsIndex(l.audit, op.server.chainID);
    InsertHasId(l.audit, op.server, id);
  }

  ghost predicate Disjoint(l: Lists) {
    forall id: Hash :: !(HasId(l.federated, id) && HasId(l.audit, id))
  }

  /** Promotion leaves the audit list alone, so the lists stay disjoint exactly when the promoted
      server was not an audit server; the other operations always keep them disjoint. */
  lemma DisjointExactly(l: Lists, op: Op)
    requires Ordered(l) && Disjoint(l)
    ensures Disjoint(Apply(l, op)) <==> !(op.AddFederated? && HasId(l.audit, op.server.chainID))
  {
    forall id: Hash
      ensures HasId(Apply(l, op).federated, id) && HasId(Apply(l, op).audit, id) <==>
                op.AddFederated? && id == op.server.chainID && HasId(l.audit, id)
    {
      FederatedMembership(l, op, id);
      AuditMembership(l, op, id);
      assert !(HasId(l.federated, id) && HasId(l.audit, id));
    }
    if op.AddFederated? && HasId(l.audit, op.server.chainID) {
      assert HasId(Apply(l, op).federated, op.server.chainID) && HasId(Apply(l, op).audit, op.server.chainID);
    }
  }

  /** An audit server that is promoted is in both lists. */
  lemma PromotedIsInBoth(s: Server)
    ensures var l := Lists([], [s]);
            Ordered(l) && Disjoint(l) && !Disjoint(Apply(l, AddFederated(s)))
  {
    var l := Lists([], [s]);
    assert HasId(l.audit, s.chainID) by {
      assert l.audit[0].chainID == s.chainID;
    }
    DisjointExactly(l, AddFederated(s));
  }

  // ---------------------------------------------------------------- removing an audit server

  /** The audit list after a removal that looks the server up in the federated list; None for the panic
      when the position found is past the end of the audit list. */
  function RemoveAudit(l: Lists, server: Server): Option<seq<Server>> {
    var idx := FirstIndex(l.federated, server.chainID);
    if idx == -1 then Some(l.audit)
    else if idx < |l.audit| then Some(RemoveAt(l.audit, idx))
    else None
  }

  /** What removing should leave: the other audit servers, in order. */
  function Without(s: seq<Server>, id: Hash): seq<Server> {
    if s == [] then []
    else if s[0].chainID == id then Without(s[1..], id)
    else [s[0]] + Without(s[1..], id)
  }

  lemma {:induction false} WithoutAbsent(s: seq<Server>, id: Hash)
    requires !HasId(s, id)
    ensures Without(s, id) == s
    decreases |s|
  {
    if s != [] {
      assert s[0].chainID != id;
      TailLacks(s, id);
      WithoutAbsent(s[1..], id);
      assert s == [s[0]] + s[1..];
    }
  }

  lemma TailLacks(s: seq<Server>, id: Hash)
    requires s != [] && !HasId(s, id)
    ensures !HasId(s[1..], id)
  {
    forall i | 0 <= i < |s[1..]| ensures s[1..][i].chainID != id {
      assert s[i + 1].chainID != id;
    }
  }

  lemma {:induction false} WithoutPresent(s: seq<Server>, id: Hash, i: nat)
    requires StrictlySorted(s) && i < |s| && s[i].chainID == id
    ensures Without(s, id) == RemoveAt(s, i)
    decreases |s|
  {
    if i == 0 {
      var t := s[1..];
      forall k | 0 <= k < |t| ensures t[k].chainID != id {
        assert s[0].chainID < s[k + 1].chainID;
      }
      WithoutAbsent(t, id);
      assert RemoveAt(s, 0) == t;
    } else {
      WithoutPresent(s[1..], id, i - 1);
      assert RemoveAt(s, i) == [s[0]] + RemoveAt(s[1..], i - 1);
    }
  }

  /** The removal does what its name says if and only if the server is in neither list, or is in
      both at the same position. */
  lemma RemoveAuditExactly(l: Lists, server: Server)
    requires Ordered(l)
    ensures RemoveAudit(l, server) == Some(Without(l.audit, server.chainID)) <==>
              FirstIndex(l.federated, server.chainID) == FirstIndex(l.audit, server.chainID)
  {
    var id := server.chainID;
    var f, a := FirstIndex(l.federated, id), FirstIndex(l.audit, id);
    WithoutIs(l.audit, id);
    if f != -1 && f != a && 0 <= a && f < |l.audit| {
      RemovedAtDiffers(l.audit, f, a);
    }
  }

  lemma WithoutIs(s: seq<Server>, id: Hash)
    requires StrictlySorted(s)
    ensures var a := FirstIndex(s, id);
            Without(s, id) == if a == -1 then s else RemoveAt(s, a)
  {
    FirstIndexIsIndex(s, id);
    if FirstIndex(s, id) == -1 {
      WithoutAbsent(s, id);
    } else {
      WithoutPresent(s, id, FirstIndex(s, id));
    }
  }

  /** Removing an audit server removes another one, if it is elsewhere in the federated list; nothing, if it
      is not there; and panics, if it is there behind the end of the audit list. */
  lemma RemovesTheWrongOne(a: Server, b: Server)
    requires a.chainID < b.chainID
    ensures RemoveAudit(Lists([b], [a, b]), b) == Some([b])
    ensures RemoveAudit(Lists([], [a, b]), b) == Some([a, b])
    ensures RemoveAudit(Lists([a, b], [b]), b) == None
  {
    assert FirstIndex([b], b.chainID) == 0;
    assert [a, b][1..] == [b];
    assert FirstIndex([a, b], b.chainID) == 1 + FirstIndex([b], b.chainID);
    assert RemoveAt([a, b], 0) == [b];
  }

  lemma RemovedAtDiffers(s: seq<Server>, i: int, j: int)
    requires StrictlySorted(s) && 0 <= i < |s| && 0 <= j < |s| && i != j
    ensures RemoveAt(s, i) != RemoveAt(s, j)
  {
    var k := if i < j then i else j;
    assert RemoveAt(s, i)[k] != RemoveAt(s, j)[k];
  }

  // ---------------------------------------------------------------- the election object

  class Election {
    var federated: seq<Server>
    var audit: seq<Server>
    var round: seq<int>
    var aPriority: seq<Hash>
    var dbHeight: int
    var minute: int
    var electing: int

    constructor ()
      ensures federated == [] && audit == [] && round == [] && electing == -1
    {
      federated, audit, round, aPriority := [], [], [], [];
      dbHeight, minute, electing := 0, 0, -1;
    }

    ghost function View(): Lists
      reads this
    {
      Lists(federated, audit)
    }

    method GetFedServerIndex(server: Server) returns (idx: int)
      ensures idx == FirstIndex(federated, server.chainID)
      ensures IndexOf(federated, server.chainID, idx)
    {
      idx := Scan(federated, server);
    }

    method GetAudServerIndex(server: Server) returns (idx: int)
      ensures idx == FirstIndex(audit, server.chainID)
      ensures IndexOf(audit, server.chainID, idx)
    {
      idx := Scan(audit, server);
    }

    /** Appends, sorts, and returns where the server now is. */
    method AddFederatedServer(server: Server) returns (idx: int)
      modifies this`federated, this`audit
      ensures audit == old(audit)
      ensures old(FirstIndex(federated, server.chainID)) != -1 ==> federated == old(federated)
      ensures old(FirstIndex(federated, server.chainID)) == -1 ==>
                Sorted(federated) && multiset(federated) == old(multiset(federated)) + multiset{server}
      ensures old(Ordered(View())) ==> View() == AddFed(old(View()), server)
      ensures 0 <= idx < |federated| && federated[idx].chainID == server.chainID
    {
      idx := GetFedServerIndex(server);
      if idx != -1 {
        return;
      }
      var panicked := RemoveAuditServer(server);
      AppendedIsInserted(federated, server);
      federated := SortedCopy(federated + [server]);
      if old(StrictlySorted(federated)) {
        InsertStrictlySorted(old(federated), server);
        SortedUnique(federated, Insert(old(federated), server));
      }
      idx := GetFedServerIndex(server);
      ElementHasId(federated, server);
    }

    method AddAuditServer(server: Server) returns (idx: int)
      modifies this`federated, this`audit
      ensures old(FirstIndex(audit, server.chainID)) != -1 ==> View() == old(View())
      ensures old(FirstIndex(audit, server.chainID)) == -1 ==>
                Sorted(audit) && multiset(audit) == old(multiset(audit)) + multiset{server}
      ensures old(FirstIndex(audit, server.chainID)) == -1 ==> federated == RemoveFed(old(View()), server).federated
      ensures old(Ordered(View())) ==> View() == AddAud(old(View()), server)
      ensures 0 <= idx < |audit| && audit[idx].chainID == server.chainID
    {
      idx := GetAudServerIndex(server);
      if idx != -1 {
        return;
      }
      RemoveFederatedServer(server);
      AppendedIsInserted(audit, server);
      audit := SortedCopy(audit + [server]);
      if old(StrictlySorted(audit)) {
        InsertStrictlySorted(old(audit), server);
        SortedUnique(audit, Insert(old(audit), server));
      }
      idx := GetAudServerIndex(server);
      ElementHasId(audit, server);
    }

    method RemoveFederatedServer(server: Server)
      modifies this`federated, this`audit
      ensures View() == RemoveFed(old(View()), server)
    {
      var idx := GetFedServerIndex(server);
      if idx == -1 {
        var panicked := RemoveAuditServer(server);
        return;
      }
      federated := federated[..idx] + federated[idx + 1..];
    }

    /** The position is looked up in the federated list, as in the source. */
    method RemoveAuditServer(server: Server) returns (panicked: bool)
      modifies this`audit
      ensures panicked <==> RemoveAudit(old(View()), server).None?
      ensures Some(audit) == if panicked then Some(old(audit)) else RemoveAudit(old(View()), server)
    {
      var idx := GetFedServerIndex(server);
      if idx == -1 {
        return false;
      }
      if idx >= |audit| {
        return true;
      }
      panicked := false;
      audit := audit[..idx] + audit[idx + 1..];
    }

    /** Grows the round counters to the electing index and returns the audit server with the
        highest priority. */
    method AuditPriority(sha: Sha) returns (auditIdx: nat)
      modifies this`round, this`aPriority
      ensures old(round) <= round && forall i :: |old(round)| <= i < |round| ==> round[i] == 0
      ensures |round| == if electing < |old(round)| then |old(round)| else electing + 1
      ensures |aPriority| == |audit|
      ensures forall i :: 0 <= i < |audit| ==>
                aPriority[i] == sha(Prefix(dbHeight, minute, electing), audit[i].chainID)
      ensures audit != [] ==> Chosen(sha, Prefix(dbHeight, minute, electing), audit, auditIdx)
      ensures audit == [] ==> auditIdx == 0
    {
      while |round| <= electing
        invariant |old(round)| <= |round|
        invariant |round| <= electing + 1 || |round| == |old(round)|
        invariant round[..|old(round)|] == old(round)
        invariant forall i :: |old(round)| <= i < |round| ==> round[i] == 0
      {
        round := round + [0];
      }
      aPriority := Order(sha, audit, dbHeight, minute, electing);
      auditIdx := MaxIdx(aPriority);
    }
  }

  method Scan(s: seq<Server>, server: Server) returns (idx: int)
    ensures idx == FirstIndex(s, server.chainID)
    ensures IndexOf(s, server.chainID, idx)
  {
    FirstIndexIsIndex(s, server.chainID);
    idx := -1;
    for i := 0 to |s|
      invariant idx == -1
      invariant forall k :: 0 <= k < i ==> s[k].chainID != server.chainID
    {
      if s[i].chainID == server.chainID {
        idx := i;
        IndexUnique(s, server.chainID, idx, FirstIndex(s, server.chainID));
        return;
      }
    }
    IndexUnique(s, server.chainID, -1, FirstIndex(s, server.chainID));
  }

  /** Sorts a fresh copy of a list in place. */
  method SortedCopy(s: seq<Server>) returns (r: seq<Server>)
    ensures Sorted(r) && multiset(r) == multiset(s)
  {
    var a := new Server[|s|](i requires 0 <= i < |s| => s[i]);
    assert a[..] == s;
    var changed := Sort(a);
    r := a[..];
  }

  lemma AppendedIsInserted(s: seq<Server>, x: Server)
    ensures multiset(s + [x]) == multiset(Insert(s, x)) == multiset(s) + multiset{x}
  {
    InsertElements(s, x);
  }

  lemma ElementHasId(s: seq<Server>, x: Server)
    requires x in multiset(s)
    ensures HasId(s, x.chainID)
  {
    var i :| 0 <= i < |s| && s[i] == x;
  }

  /** Two nodes at the same place of the same election, holding the same audit servers in whatever
      order, choose the same volunteer. */
  method VolunteersAgree(sha: Sha, a: Election, b: Election) returns (i: nat, j: nat)
    requires a != b
    requires a.audit != [] && multiset(a.audit) == multiset(b.audit)
    requires a.dbHeight == b.dbHeight && a.minute == b.minute && a.electing == b.electing
    requires CollisionFreeOn(sha, Prefix(a.dbHeight, a.minute, a.electing))
    modifies a`round, a`aPriority, b`round, b`aPriority
    ensures i < |a.audit| && j < |b.audit| && a.audit[i].chainID == b.audit[j].chainID
  {
    SameSize(a.audit, b.audit);
    i := a.AuditPriority(sha);
    j := b.AuditPriority(sha);
    SameChoice(sha, Prefix(a.dbHeight, a.minute, a.electing), a.audit, b.audit, i, j);
  }
}
