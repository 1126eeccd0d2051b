/** Receipts (receipts/receipts.go): trimming, validating, creating and verifying the Merkle
    branch that ties an entry to a directory block. */
module Receipts {
  import opened Options
  import opened Merkle

  /** `entryHash` is the parsed hash; None when the text does not parse. */
  datatype EntryJSON = EntryJSON(raw: string, entryHash: Option<Hash>)

  /** The value of a receipt. `branch` is None for a nil branch. */
  datatype Content = Content(entry: Option<EntryJSON>, branch: Option<seq<MerkleNode>>,
                             entryBlockKeyMR: Option<Hash>, directoryBlockKeyMR: Option<Hash>)

  datatype Error =
    | NoReceipt | NoEntry | NoMerkleBranch | NoEntryBlockKeyMR | NoDirectoryBlockKeyMR | BadEntryHash
    | TwoNilSides(i: nat) | WrongTop(i: nat) | EntryBlockKeyMRNotFound | DirectoryBlockKeyMRNotFound
    | NilSide(i: nat) | NoTop(i: nat) | TwoNonNilSides(i: nat) | UnnecessaryTop(i: nat)

  class Receipt {
    var entry: Option<EntryJSON>
    var merkleBranch: array?<MerkleNode>
    var entryBlockKeyMR: Option<Hash>
    var directoryBlockKeyMR: Option<Hash>

    constructor (content: Content)
      ensures View() == content
      ensures merkleBranch != null ==> fresh(merkleBranch)
    {
      entry := content.entry;
      entryBlockKeyMR := content.entryBlockKeyMR;
      directoryBlockKeyMR := content.directoryBlockKeyMR;
      if content.branch.Some? {
        var nodes := content.branch.value;
        var a := new MerkleNode[|nodes|](i requires 0 <= i < |nodes| => nodes[i]);
        assert a[..] == nodes;
        merkleBranch := a;
      } else {
        merkleBranch := null;
      }
    }

    ghost function View(): Content
      reads this, merkleBranch
    {
      Content(entry, if merkleBranch == null then None else Some(merkleBranch[..]),
              entryBlockKeyMR, directoryBlockKeyMR)
    }
  }

  // ---------------------------------------------------------------- what a valid receipt is

  /** The first missing part of a receipt. */
  function HeaderError(c: Content): Option<Error> {
    if c.entry.None? then Some(NoEntry)
    else if c.branch.None? then Some(NoMerkleBranch)
    else if c.entryBlockKeyMR.None? then Some(NoEntryBlockKeyMR)
    else if c.directoryBlockKeyMR.None? then Some(NoDirectoryBlockKeyMR)
    else if c.entry.value.entryHash.None? then Some(BadEntryHash)
    else None
  }

  /** The hash below node `i`. */
  function Below(H: Combine, start: Hash, branch: seq<MerkleNode>, i: nat): Hash
    requires i <= |branch|
  {
    Climb(H, start, branch[..i])
  }

  ghost predicate HasSide(branch: seq<MerkleNode>, i: nat)
    requires i < |branch|
  {
    branch[i].left.Some? || branch[i].right.Some?
  }

  /** A node has a side, and a saved top is the derived one. */
  ghost predicate NodeOk(H: Combine, start: Hash, branch: seq<MerkleNode>, i: nat)
    requires i < |branch|
  {
    && HasSide(branch, i)
    && (branch[i].top.Some? ==> branch[i].top.value == Below(H, start, branch, i + 1))
  }

  ghost predicate NodesOk(H: Combine, start: Hash, branch: seq<MerkleNode>, n: nat)
    requires n <= |branch|
  {
    forall i :: 0 <= i < n ==> NodeOk(H, start, branch, i)
  }

  /** `key` is the hash reached by a non-empty prefix of at most `n` nodes. */
  ghost predicate Reached(H: Combine, start: Hash, branch: seq<MerkleNode>, n: nat, key: Hash)
    requires n <= |branch|
  {
    exists i :: 0 < i <= n && Below(H, start, branch, i) == key
  }

  ghost predicate Accepted(H: Combine, c: Content) {
    HeaderError(c) == None &&
    var start, branch := c.entry.value.entryHash.value, c.branch.value;
    && NodesOk(H, start, branch, |branch|)
    && Reached(H, start, branch, |branch|, c.entryBlockKeyMR.value)
    && Reached(H, start, branch, |branch|, c.directoryBlockKeyMR.value)
  }

  /** Which error a receipt with all its parts gets. */
  ghost predicate Blames(H: Combine, c: Content, e: Error)
    requires HeaderError(c) == None
  {
    var start, branch := c.entry.value.entryHash.value, c.branch.value;
    match e
    case TwoNilSides(i) => i < |branch| && NodesOk(H, start, branch, i) && !HasSide(branch, i)
    case WrongTop(i) =>
      i < |branch| && NodesOk(H, start, branch, i) && HasSide(branch, i) && !NodeOk(H, start, branch, i)
    case EntryBlockKeyMRNotFound =>
      && NodesOk(H, start, branch, |branch|)
      && !Reached(H, start, branch, |branch|, c.entryBlockKeyMR.value)
    case DirectoryBlockKeyMRNotFound =>
      && NodesOk(H, start, branch, |branch|)
      && Reached(H, start, branch, |branch|, c.entryBlockKeyMR.value)
      && !Reached(H, start, branch, |branch|, c.directoryBlockKeyMR.value)
    case _ => false
  }

  /** One more node. */
  lemma BelowNext(H: Combine, start: Hash, branch: seq<MerkleNode>, i: nat)
    requires i < |branch|
    ensures Below(H, start, branch, i + 1) == NodeTop(H, branch[i], Below(H, start, branch, i))
  {
    assert branch[..i + 1] == branch[..i] + [branch[i]];
    ClimbConcat(H, start, branch[..i], [branch[i]]);
    var cur := Below(H, start, branch, i);
    assert [branch[i]][1..] == [];
    assert Climb(H, cur, [branch[i]]) == Climb(H, NodeTop(H, branch[i], cur), []);
  }

  lemma ReachedNext(H: Combine, start: Hash, branch: seq<MerkleNode>, i: nat, key: Hash)
    requires i < |branch|
    ensures Reached(H, start, branch, i + 1, key)
       <==> Reached(H, start, branch, i, key) || Below(H, start, branch, i + 1) == key
  {
  }

  /** The error is the first missing part or, if there is none, what is wrong with the branch. */
  ghost predicate Rejects(H: Combine, c: Content, e: Error) {
    if HeaderError(c).Some? then e == HeaderError(c).value else Blames(H, c, e)
  }

  /** The source's test that the hash below is one of the sides (line 85) negates itself and
      never fires, so it is not here. */
  method Validate(H: Combine, e: Receipt?) returns (err: Option<Error>)
    ensures e == null ==> err == Some(NoReceipt)
    ensures e != null ==> (err == None <==> Accepted(H, e.View()))
    ensures e != null && err.Some? ==> Rejects(H, e.View(), err.value)
  {
    if e == null {
      return Some(NoReceipt);
    }
    if e.entry == None {
      return Some(NoEntry);
    }
    if e.merkleBranch == null {
      return Some(NoMerkleBranch);
    }
    if e.entryBlockKeyMR == None {
      return Some(NoEntryBlockKeyMR);
    }
    if e.directoryBlockKeyMR == None {
      return Some(NoDirectoryBlockKeyMR);
    }
    if e.entry.value.entryHash == None {
      return Some(BadEntryHash);
    }
    err := ValidateBranch(H, e.entry.value.entryHash.value, e.merkleBranch,
                          e.entryBlockKeyMR.value, e.directoryBlockKeyMR.value, e.View());
  }

  /** The loop of Validate, for a receipt with all its parts. */
  method ValidateBranch(H: Combine, entryHash: Hash, nodes: array<MerkleNode>, entryBlockKeyMR: Hash,
                        directoryBlockKeyMR: Hash, ghost c: Content) returns (err: Option<Error>)
    requires HeaderError(c) == None && c.entry.value.entryHash == Some(entryHash)
    requires c.branch == Some(nodes[..])
    requires c.entryBlockKeyMR == Some(entryBlockKeyMR) && c.directoryBlockKeyMR == Some(directoryBlockKeyMR)
    ensures err == None <==> Accepted(H, c)
    ensures err.Some? ==> Blames(H, c, err.value)
  {
    ghost var branch := nodes[..];
    var currentEntry := entryHash;
    var eBlockFound, dBlockFound := false, false;
    for i := 0 to nodes.Length
      invariant currentEntry == Below(H, entryHash, branch, i)
      invariant NodesOk(H, entryHash, branch, i)
      invariant eBlockFound <==> Reached(H, entryHash, branch, i, entryBlockKeyMR)
      invariant dBlockFound <==> Reached(H, entryHash, branch, i, directoryBlockKeyMR)
    {
      var node := nodes[i];
      var left, right;
      if node.left == None {
        if node.right == None {
          assert !NodeOk(H, entryHash, branch, i);
          return Some(TwoNilSides(i));
        }
        left := currentEntry;
        right := node.right.value;
      } else {
        left := node.left.value;
        if node.right == None {
          right := currentEntry;
        } else {
          right := node.right.value;
        }
      }
      var top := H(left, right);
      BelowNext(H, entryHash, branch, i);
      if node.top != None {
        if top != node.top.value {
          assert !NodeOk(H, entryHash, branch, i);
          return Some(WrongTop(i));
        }
      }
      ReachedNext(H, entryHash, branch, i, entryBlockKeyMR);
      ReachedNext(H, entryHash, branch, i, directoryBlockKeyMR);
      if top == entryBlockKeyMR {
        eBlockFound := true;
      }
      if top == directoryBlockKeyMR {
        dBlockFound := true;
      }
      currentEntry := top;
    }
    if !eBlockFound {
      return Some(EntryBlockKeyMRNotFound);
    }
    if !dBlockFound {
      return Some(DirectoryBlockKeyMRNotFound);
    }
    return None;
  }

  // ---------------------------------------------------------------- trimming

  /** Comparing two hashes that may be nil: a nil receiver equals nothing, a nil argument reads as zero. */
  predicate SameHash(a: Option<Hash>, b: Option<Hash>) {
    a.Some? && a.value == b.GetOr(ZERO_HASH)
  }

  function TrimNode(node: MerkleNode, below: Option<Hash>): MerkleNode {
    if SameHash(below, node.left) then MerkleNode(None, node.right, None)
    else if SameHash(below, node.right) then MerkleNode(node.left, None, None)
    else MerkleNode(node.left, node.right, None)
  }

  function Trimmed(below: Option<Hash>, branch: seq<MerkleNode>): (r: seq<MerkleNode>)
    ensures |r| == |branch|
    decreases |branch|
  {
    if branch == [] then [] else [TrimNode(branch[0], below)] + Trimmed(branch[0].top, branch[1..])
  }

  lemma {:induction false} TrimmedAt(below: Option<Hash>, branch: seq<MerkleNode>, i: nat)
    requires i < |branch|
    ensures Trimmed(below, branch)[i] == TrimNode(branch[i], if i == 0 then below else branch[i - 1].top)
    decreases |branch|
  {
    if i > 0 {
      TrimmedAt(branch[0].top, branch[1..], i - 1);
    }
  }

  function TrimmedContent(c: Content): Content
    requires c.entry.Some?
  {
    if c.branch.None? then c
    else c.(branch := Some(Trimmed(c.entry.value.entryHash, c.branch.value)))
  }

  method TrimReceipt(e: Receipt?)
    requires e != null ==> e.entry.Some?
    modifies if e == null || e.merkleBranch == null then {} else {e.merkleBranch}
    ensures e != null ==> e.View() == TrimmedContent(old(e.View()))
  {
    if e == null {
      return;
    }
    var start := e.entry.value.entryHash;
    var below := start;
    if e.merkleBranch == null {
      return;
    }
    var a := e.merkleBranch;
    ghost var was := a[..];
    for i := 0 to a.Length
      invariant below == if i == 0 then start else was[i - 1].top
      invariant forall k :: i <= k < a.Length ==> a[k] == was[k]
      invariant forall k :: 0 <= k < i ==> a[k] == Trimmed(start, was)[k]
    {
      TrimmedAt(start, was, i);
      if SameHash(below, a[i].left) {
        a[i] := a[i].(left := None);
      } else {
        if SameHash(below, a[i].right) {
          a[i] := a[i].(right := None);
        }
      }
      below := a[i].top;
      a[i] := a[i].(top := None);
    }
    assert a[..] == Trimmed(start, was);
  }

  /** Putting the hash below back on the free side of every node, and the top above it. */
  function Refilled(H: Combine, cur: Hash, branch: seq<MerkleNode>): seq<MerkleNode>
    decreases |branch|
  {
    if branch == [] then []
    else [FullNode(H, branch[0].left.GetOr(cur), branch[0].right.GetOr(cur))]
         + Refilled(H, NodeTop(H, branch[0], cur), branch[1..])
  }

  /** Trimming a chained branch leaves one side and no top per node, loses nothing (refilling
      restores the branch), and keeps the hash reached. */
  lemma {:induction false} TrimRoundTrip(H: Combine, cur: Hash, branch: seq<MerkleNode>)
    requires Chained(H, cur, branch)
    ensures AllMinimal(Trimmed(Some(cur), branch))
    ensures Refilled(H, cur, Trimmed(Some(cur), branch)) == branch
    ensures Climb(H, cur, Trimmed(Some(cur), branch)) == Climb(H, cur, branch)
    decreases |branch|
  {
    if branch != [] {
      var trimmed := Trimmed(Some(cur), branch);
      assert trimmed[1..] == Trimmed(branch[0].top, branch[1..]);
      TrimRoundTrip(H, branch[0].top.value, branch[1..]);
      assert branch == [branch[0]] + branch[1..];
      assert NodeTop(H, trimmed[0], cur) == branch[0].top.value;
    }
  }

  lemma {:induction false} ChainedPrefix(H: Combine, cur: Hash, branch: seq<MerkleNode>, i: nat)
    requires Chained(H, cur, branch) && i <= |branch|
    ensures Chained(H, cur, branch[..i])
    decreases |branch|
  {
    if i > 0 {
      assert branch[..i][1..] == branch[1..][..i - 1];
      ChainedPrefix(H, branch[0].top.value, branch[1..], i - 1);
    }
  }

  lemma {:induction false} TrimmedPrefix(below: Option<Hash>, branch: seq<MerkleNode>, i: nat)
    requires i <= |branch|
    ensures Trimmed(below, branch)[..i] == Trimmed(below, branch[..i])
    decreases |branch|
  {
    if i > 0 {
      assert branch[..i][1..] == branch[1..][..i - 1];
      TrimmedPrefix(branch[0].top, branch[1..], i - 1);
    }
  }

  /** Every intermediate hash survives trimming. */
  lemma TrimKeepsBelow(H: Combine, cur: Hash, branch: seq<MerkleNode>, i: nat)
    requires Chained(H, cur, branch) && i <= |branch|
    ensures Below(H, cur, Trimmed(Some(cur), branch), i) == Below(H, cur, branch, i)
  {
    ChainedPrefix(H, cur, branch, i);
    TrimmedPrefix(Some(cur), branch, i);
    TrimRoundTrip(H, cur, branch[..i]);
  }

  /** The node at `i` of a chained branch is full and its top is the hash reached there. */
  lemma {:induction false} ChainedNode(H: Combine, cur: Hash, branch: seq<MerkleNode>, i: nat)
    requires Chained(H, cur, branch) && i < |branch|
    ensures branch[i].left.Some? && branch[i].right.Some?
    ensures branch[i].top == Some(Below(H, cur, branch, i + 1))
    ensures Below(H, cur, branch, i) in {branch[i].left.value, branch[i].right.value}
    decreases |branch|
  {
    if i == 0 {
      BelowNext(H, cur, branch, 0);
    } else {
      assert branch[..i + 1][1..] == branch[1..][..i];
      assert branch[..i][1..] == branch[1..][..i - 1];
      ChainedNode(H, branch[0].top.value, branch[1..], i - 1);
    }
  }

  ghost predicate ChainedContent(H: Combine, c: Content) {
    HeaderError(c) == None && Chained(H, c.entry.value.entryHash.value, c.branch.value)
  }

  /** Trimming a chained receipt does not change the verdict. */
  lemma TrimKeepsVerdict(H: Combine, c: Content)
    requires ChainedContent(H, c)
    ensures Accepted(H, TrimmedContent(c)) <==> Accepted(H, c)
  {
    var start, branch := c.entry.value.entryHash.value, c.branch.value;
    var trimmed := Trimmed(Some(start), branch);
    TrimRoundTrip(H, start, branch);
    forall i | 0 <= i < |branch|
      ensures NodeOk(H, start, branch, i) && NodeOk(H, start, trimmed, i)
    {
      ChainedNode(H, start, branch, i);
    }
    forall i | 0 <= i <= |branch|
      ensures Below(H, start, trimmed, i) == Below(H, start, branch, i)
    {
      TrimKeepsBelow(H, start, branch, i);
    }
    ReachedSame(H, start, branch, trimmed, c.entryBlockKeyMR.value);
    ReachedSame(H, start, branch, trimmed, c.directoryBlockKeyMR.value);
  }

  lemma ReachedSame(H: Combine, start: Hash, p: seq<MerkleNode>, q: seq<MerkleNode>, key: Hash)
    requires |p| == |q|
    requires forall i :: 0 <= i <= |p| ==> Below(H, start, q, i) == Below(H, start, p, i)
    ensures Reached(H, start, p, |p|, key) <==> Reached(H, start, q, |q|, key)
  {
    if Reached(H, start, p, |p|, key) {
      var i :| 0 < i <= |p| && Below(H, start, p, i) == key;
      assert Below(H, start, q, i) == key;
    }
    if Reached(H, start, q, |q|, key) {
      var i :| 0 < i <= |q| && Below(H, start, q, i) == key;
      assert Below(H, start, p, i) == key;
    }
  }

  // ---------------------------------------------------------------- verifying

  predicate FullAt(branch: seq<MerkleNode>, i: nat)
    requires i < |branch|
  {
    branch[i].left.Some? && branch[i].right.Some? && branch[i].top.Some?
  }

  ghost predicate FullAccepted(H: Combine, c: Content) {
    Accepted(H, c) && forall i :: 0 <= i < |c.branch.value| ==> FullAt(c.branch.value, i)
  }

  /** The error names the first node that is not full, and what it lacks. */
  ghost predicate FirstNotFull(branch: seq<MerkleNode>, e: Error) {
    (e.NilSide? || e.NoTop?) && e.i < |branch|
    && (forall k :: 0 <= k < e.i ==> FullAt(branch, k))
    && var hasSides := branch[e.i].left.Some? && branch[e.i].right.Some?;
       if e.NilSide? then !hasSides else hasSides && branch[e.i].top.None?
  }

  method VerifyFullReceipt(H: Combine, receipt: Receipt?) returns (err: Option<Error>)
    ensures err == None <==> receipt != null && FullAccepted(H, receipt.View())
    ensures receipt == null ==> err == Some(NoReceipt)
    ensures receipt != null && !Accepted(H, receipt.View()) ==> Rejects(H, receipt.View(), err.value)
    ensures receipt != null && Accepted(H, receipt.View()) && err.Some? ==>
              FirstNotFull(receipt.View().branch.value, err.value)
  {
    err := Validate(H, receipt);
    if err != None {
      return;
    }
    var branch := receipt.merkleBranch;
    ghost var nodes := branch[..];
    for i := 0 to branch.Length
      invariant forall k :: 0 <= k < i ==> FullAt(nodes, k)
    {
      if branch[i].left == None || branch[i].right == None {
        assert !FullAt(nodes, i);
        return Some(NilSide(i));
      }
      if branch[i].top == None {
        assert !FullAt(nodes, i);
        return Some(NoTop(i));
      }
    }
    return None;
  }

  ghost predicate MinimalAccepted(H: Combine, c: Content) {
    Accepted(H, c) && AllMinimal(c.branch.value)
  }

  /** The error names the first node that is not minimal, and what it has too much. */
  ghost predicate FirstNotMinimal(branch: seq<MerkleNode>, e: Error) {
    (e.TwoNilSides? || e.TwoNonNilSides? || e.UnnecessaryTop?) && e.i < |branch|
    && (forall k :: 0 <= k < e.i ==> Minimal(branch[k]))
    && match e
       case TwoNilSides(i) => branch[i].left.None? && branch[i].right.None?
       case TwoNonNilSides(i) => branch[i].left.Some? && branch[i].right.Some?
       case _ => (branch[e.i].left.None? <==> branch[e.i].right.Some?) && branch[e.i].top.Some?
  }

  method VerifyMinimalReceipt(H: Combine, receipt: Receipt?) returns (err: Option<Error>)
    ensures err == None <==> receipt != null && MinimalAccepted(H, receipt.View())
    ensures receipt == null ==> err == Some(NoReceipt)
    ensures receipt != null && !Accepted(H, receipt.View()) ==> Rejects(H, receipt.View(), err.value)
    ensures receipt != null && Accepted(H, receipt.View()) && err.Some? ==>
              FirstNotMinimal(receipt.View().branch.value, err.value)
  {
    err := Validate(H, receipt);
    if err != None {
      return;
    }
    var branch := receipt.merkleBranch;
    ghost var nodes := branch[..];
    for i := 0 to branch.Length
      invariant forall k :: 0 <= k < i ==> Minimal(nodes[k])
    {
      if branch[i].left == None && branch[i].right == None {
        assert !Minimal(nodes[i]);
        return Some(TwoNilSides(i));
      }
      if branch[i].left != None && branch[i].right != None {
        assert !Minimal(nodes[i]);
        return Some(TwoNonNilSides(i));
      }
      if branch[i].top != None {
        assert !Minimal(nodes[i]);
        return Some(UnnecessaryTop(i));
      }
    }
    return None;
  }

  /** Trimming a chained receipt the full verifier accepts gives one the minimal verifier accepts. */
  lemma FullBecomesMinimal(H: Combine, c: Content)
    requires FullAccepted(H, c) && ChainedContent(H, c)
    ensures MinimalAccepted(H, TrimmedContent(c))
  {
    TrimKeepsVerdict(H, c);
    TrimRoundTrip(H, c.entry.value.entryHash.value, c.branch.value);
  }

  /** Every node has the hash below it (the entry, or the previous node's top) on one side. */
  predicate Linked(below: Hash, branch: seq<MerkleNode>)
    decreases |branch|
  {
    branch == [] ||
    (&& (branch[0].left == Some(below) || branch[0].right == Some(below))
     && branch[0].top.Some?
     && Linked(branch[0].top.value, branch[1..]))
  }

  lemma {:induction false} FullSidesDecide(H: Combine, a: Hash, b: Hash, branch: seq<MerkleNode>, i: nat)
    requires 0 < i <= |branch|
    requires branch[i - 1].left.Some? && branch[i - 1].right.Some?
    ensures Below(H, a, branch, i) == Below(H, b, branch, i)
         == H(branch[i - 1].left.value, branch[i - 1].right.value)
  {
    BelowNext(H, a, branch, i - 1);
    BelowNext(H, b, branch, i - 1);
  }

  /** What the full verifier leaves open: on two-sided nodes its verdict does not depend on the
      entry hash at all. */
  lemma FullVerdictIgnoresEntry(H: Combine, c: Content, other: Hash)
    requires HeaderError(c) == None
    requires forall i :: 0 <= i < |c.branch.value| ==> FullAt(c.branch.value, i)
    ensures Accepted(H, c) <==> Accepted(H, c.(entry := Some(c.entry.value.(entryHash := Some(other)))))
  {
    var a, branch := c.entry.value.entryHash.value, c.branch.value;
    forall i | 0 < i <= |branch|
      ensures Below(H, a, branch, i) == Below(H, other, branch, i)
    {
      assert FullAt(branch, i - 1);
      FullSidesDecide(H, a, other, branch, i);
    }
    ReachedFrom(H, a, other, branch, c.entryBlockKeyMR.value);
    ReachedFrom(H, a, other, branch, c.directoryBlockKeyMR.value);
    forall i | 0 <= i < |branch|
      ensures NodeOk(H, a, branch, i) <==> NodeOk(H, other, branch, i)
    {
      assert Below(H, a, branch, i + 1) == Below(H, other, branch, i + 1);
    }
    assert NodesOk(H, a, branch, |branch|) <==> NodesOk(H, other, branch, |branch|);
  }

  lemma ReachedFrom(H: Combine, a: Hash, b: Hash, branch: seq<MerkleNode>, key: Hash)
    requires forall i :: 0 < i <= |branch| ==> Below(H, a, branch, i) == Below(H, b, branch, i)
    ensures Reached(H, a, branch, |branch|, key) <==> Reached(H, b, branch, |branch|, key)
  {
    if Reached(H, a, branch, |branch|, key) {
      var i :| 0 < i <= |branch| && Below(H, a, branch, i) == key;
      assert Below(H, b, branch, i) == key;
    }
    if Reached(H, b, branch, |branch|, key) {
      var i :| 0 < i <= |branch| && Below(H, b, branch, i) == key;
      assert Below(H, a, branch, i) == key;
    }
  }

  /** The exact condition: an accepted full receipt is chained from its entry if and only if its
      branch is linked, which a caller can check without hashing. */
  lemma AcceptedFullChainedIffLinked(H: Combine, c: Content)
    requires FullAccepted(H, c)
    ensures ChainedContent(H, c) <==> Linked(c.entry.value.entryHash.value, c.branch.value)
  {
    var start, branch := c.entry.value.entryHash.value, c.branch.value;
    forall i | 0 <= i < |branch|
      ensures branch[i].left.Some? && branch[i].right.Some?
      ensures branch[i] == FullNode(H, branch[i].left.value, branch[i].right.value)
    {
      assert FullAt(branch, i) && NodeOk(H, start, branch, i);
      FullSidesDecide(H, start, start, branch, i + 1);
    }
    ChainedIffLinked(H, start, branch);
  }

  lemma {:induction false} ChainedIffLinked(H: Combine, start: Hash, branch: seq<MerkleNode>)
    requires forall i :: 0 <= i < |branch| ==> branch[i].left.Some? && branch[i].right.Some?
    requires forall i :: 0 <= i < |branch| ==> branch[i] == FullNode(H, branch[i].left.value, branch[i].right.value)
    ensures Chained(H, start, branch) <==> Linked(start, branch)
    decreases |branch|
  {
    if branch != [] {
      ChainedIffLinked(H, branch[0].top.value, branch[1..]);
    }
  }

  /** For every hash function, a full receipt that is accepted although its entry is on neither
      side of its only node. */
  lemma UnlinkedFullReceiptAccepted(H: Combine)
    ensures var c := Content(Some(EntryJSON("", Some(3))), Some([FullNode(H, 1, 2)]), Some(H(1, 2)), Some(H(1, 2)));
            FullAccepted(H, c) && !ChainedContent(H, c)
  {
    var branch := [FullNode(H, 1, 2)];
    FullSidesDecide(H, 3, 3, branch, 1);
    assert Below(H, 3, branch, 1) == H(1, 2);
    assert Reached(H, 3, branch, 1, H(1, 2));
  }

  /** Two receipts the minimal verifier accepts, reaching the same directory key over equally
      long prefixes of one shape, are receipts for the same entry with the same siblings. */
  lemma MinimalReceiptBindsEntry(H: Combine, c: Content, d: Content, n: nat)
    requires CollisionFree(H)
    requires MinimalAccepted(H, c) && MinimalAccepted(H, d)
    requires n <= |c.branch.value| && n <= |d.branch.value|
    requires SameShape(c.branch.value[..n], d.branch.value[..n])
    requires Below(H, c.entry.value.entryHash.value, c.branch.value, n)
          == Below(H, d.entry.value.entryHash.value, d.branch.value, n)
    ensures c.entry.value.entryHash == d.entry.value.entryHash
    ensures c.branch.value[..n] == d.branch.value[..n]
  {
    MinimalBranchUnique(H, c.entry.value.entryHash.value, d.entry.value.entryHash.value,
                        c.branch.value[..n], d.branch.value[..n]);
  }

  // ---------------------------------------------------------------- creating

  /** An entry block: the hash of its header and the hashes of its entries. */
  datatype EBlock = EBlock(headerHash: Hash, entryHashes: seq<Hash>)

  /** A directory block entry, and a directory block (never empty: building its body root panics). */
  datatype DBEntry = DBEntry(chainID: Hash, keyMR: Hash)
  datatype DBlock = DBlock(headerHash: Hash, dbEntries: seq<DBEntry>, height: nat, timestamp: int)

  function EBlockBodyMR(H: Combine, b: EBlock): Hash {
    if b.entryHashes == [] then ZERO_HASH else Root(H, b.entryHashes)
  }

  function EBlockKeyMR(H: Combine, b: EBlock): Hash {
    H(b.headerHash, EBlockBodyMR(H, b))
  }

  /** A directory block's leaves are the hashes of its entries' two hashes. */
  function DBlockLeaf(H: Combine, e: DBEntry): Hash {
    H(e.chainID, e.keyMR)
  }

  function DBlockLeaves(H: Combine, b: DBlock): seq<Hash> {
    seq(|b.dbEntries|, i requires 0 <= i < |b.dbEntries| => DBlockLeaf(H, b.dbEntries[i]))
  }

  function DBlockBodyMR(H: Combine, b: DBlock): Hash
    requires b.dbEntries != []
  {
    Root(H, DBlockLeaves(H, b))
  }

  function DBlockKeyMR(H: Combine, b: DBlock): Hash
    requires b.dbEntries != []
  {
    H(b.headerHash, DBlockBodyMR(H, b))
  }

  /** The list a branch through a directory block is built on: chain and key, entry by entry. */
  function HashesForBranch(b: DBlock): (hs: seq<Hash>)
    ensures |hs| == 2 * |b.dbEntries|
  {
    seq(2 * |b.dbEntries|, i requires 0 <= i < 2 * |b.dbEntries| =>
      if i % 2 == 0 then b.dbEntries[i / 2].chainID else b.dbEntries[i / 2].keyMR)
  }

  /** The body root over the paired entries is the root over the flat list. */
  lemma FlatListHasBodyRoot(H: Combine, b: DBlock)
    requires b.dbEntries != []
    ensures Root(H, HashesForBranch(b)) == DBlockBodyMR(H, b)
  {
    var flat := HashesForBranch(b);
    assert NextLevel(H, flat) == DBlockLeaves(H, b);
  }

  /** The database: raw entries, the block each hash is included in, and the blocks. */
  datatype Database = Database(entries: map<Hash, string>, includedIn: map<Hash, Hash>,
                               eBlocks: map<Hash, EBlock>, dBlocks: map<Hash, DBlock>)

  /** Directory blocks are stored under their key and are not empty. */
  ghost predicate WellKeyed(H: Combine, db: Database) {
    forall k :: k in db.dBlocks ==> db.dBlocks[k].dbEntries != [] && DBlockKeyMR(H, db.dBlocks[k]) == k
  }

  datatype CreateError = EntryNotFound | EntryBlockOfEntryNotFound | EBlockNotFound
                       | DBlockOfEBlockNotFound | DBlockNotFound
  datatype CreateResult = Created(content: Content, height: nat, timestamp: int) | NotCreated(error: CreateError)

  /** A minute marker among the entry hashes: a number from 1 to 10. */
  predicate IsMarker(h: Hash) {
    1 <= h <= 10
  }

  /** Position `q` has the first marker at or after the first occurrence of the entry. */
  ghost predicate MarkerOf(hashes: seq<Hash>, entryHash: Hash, q: int) {
    && 0 <= q < |hashes| && IsMarker(hashes[q]) && entryHash in hashes[..q + 1]
    && forall k :: 0 <= k < q && IsMarker(hashes[k]) ==> entryHash !in hashes[..k + 1]
  }

  ghost predicate Timed(hashes: seq<Hash>, entryHash: Hash, blockTime: int, timestamp: int) {
    || (exists q :: MarkerOf(hashes, entryHash, q) && timestamp == blockTime + 60 * hashes[q])
    || (timestamp == 0 && forall q :: !MarkerOf(hashes, entryHash, q))
  }

  /** The minute an entry was made in ends with the first marker after it; without one the time stays 0. */
  method FindTimestamp(hashes: seq<Hash>, entryHash: Hash, blockTime: int) returns (timestamp: int)
    ensures Timed(hashes, entryHash, blockTime, timestamp)
  {
    var entryFound := false;
    for i := 0 to |hashes|
      invariant entryFound <==> entryHash in hashes[..i]
      invariant forall k :: 0 <= k < i && IsMarker(hashes[k]) ==> entryHash !in hashes[..k + 1]
    {
      assert hashes[..i + 1] == hashes[..i] + [hashes[i]];
      if hashes[i] == entryHash {
        entryFound := true;
      }
      if IsMarker(hashes[i]) && entryFound {
        assert MarkerOf(hashes, entryHash, i);
        return blockTime + 60 * hashes[i];
      }
    }
    timestamp := 0;
  }

  /** The nodes a block adds to a receipt: the branch to its body root, then the header node. */
  function BlockNodes(branch: Option<seq<MerkleNode>>, header: Hash, body: Hash, key: Hash): seq<MerkleNode> {
    branch.GetOr([]) + [MerkleNode(Some(header), Some(body), Some(key))]
  }

  /** Everything the receipt needs is in the database. */
  ghost predicate Locatable(H: Combine, db: Database, entryHash: Hash, includeRawEntry: bool) {
    && (includeRawEntry ==> entryHash in db.entries)
    && entryHash in db.includedIn && db.includedIn[entryHash] in db.eBlocks
    && var key := EBlockKeyMR(H, db.eBlocks[db.includedIn[entryHash]]);
       key in db.includedIn && db.includedIn[key] in db.dBlocks
  }

  /** The first thing that is missing, in the order in which the database is asked. */
  ghost predicate FirstMissing(H: Combine, db: Database, entryHash: Hash, includeRawEntry: bool, e: CreateError) {
    if includeRawEntry && entryHash !in db.entries then e == EntryNotFound
    else if entryHash !in db.includedIn then e == EntryBlockOfEntryNotFound
    else if db.includedIn[entryHash] !in db.eBlocks then e == EBlockNotFound
    else
      var key := EBlockKeyMR(H, db.eBlocks[db.includedIn[entryHash]]);
      if key !in db.includedIn then e == DBlockOfEBlockNotFound
      else db.includedIn[key] !in db.dBlocks && e == DBlockNotFound
  }

  /** The branch of a receipt goes through the headers of both blocks and ends in that of the second, even
      where a block does not contain what the index says. */
  ghost predicate HasHeaders(H: Combine, c: Content, eBlock: EBlock, dBlock: DBlock)
    requires dBlock.dbEntries != []
  {
    && c.branch.Some? && c.branch.value != []
    && FullNode(H, eBlock.headerHash, EBlockBodyMR(H, eBlock)) in c.branch.value
    && c.branch.value[|c.branch.value| - 1] == FullNode(H, dBlock.headerHash, DBlockBodyMR(H, dBlock))
  }

  /** The blocks really contain what the index says: the entry is in its entry block and the entry
      block's key is in its directory block. */
  ghost predicate Indexed(H: Combine, db: Database, entryHash: Hash)
    requires Locatable(H, db, entryHash, false)
  {
    var eBlock := db.eBlocks[db.includedIn[entryHash]];
    var key := EBlockKeyMR(H, eBlock);
    entryHash in eBlock.entryHashes && key in HashesForBranch(db.dBlocks[db.includedIn[key]])
  }

  /** The receipt of an entry. When the entry is in its entry block and the entry block's key is
      in its directory block, the receipt is chained from the entry to the directory block's key
      and the full verifier accepts it. */
  method CreateReceipt(H: Combine, db: Database, entryHash: Hash, includeRawEntry: bool)
    returns (r: CreateResult)
    requires WellKeyed(H, db)
    ensures r.Created? <==> Locatable(H, db, entryHash, includeRawEntry)
    ensures r.NotCreated? ==> FirstMissing(H, db, entryHash, includeRawEntry, r.error)
    ensures r.Created? ==>
              var key := EBlockKeyMR(H, db.eBlocks[db.includedIn[entryHash]]);
              && Names(r.content, if includeRawEntry then db.entries[entryHash] else "", entryHash, key, db.includedIn[key])
              && (Indexed(H, db, entryHash) ==> ChainedContent(H, r.content) && FullAccepted(H, r.content))
    ensures r.Created? ==>
              var eBlock := db.eBlocks[db.includedIn[entryHash]];
              var dBlock := db.dBlocks[db.includedIn[EBlockKeyMR(H, eBlock)]];
              && r.height == dBlock.height && HasHeaders(H, r.content, eBlock, dBlock)
              && Timed(eBlock.entryHashes, entryHash, dBlock.timestamp, r.timestamp)
  {
    var raw := "";
    if includeRawEntry {
      if entryHash !in db.entries {
        return NotCreated(EntryNotFound);
      }
      raw := db.entries[entryHash];
    }
    if entryHash !in db.includedIn {
      return NotCreated(EntryBlockOfEntryNotFound);
    }
    if db.includedIn[entryHash] !in db.eBlocks {
      return NotCreated(EBlockNotFound);
    }
    var eBlock := db.eBlocks[db.includedIn[entryHash]];
    var key := EBlockKeyMR(H, eBlock);
    var branch := BuildMerkleBranchForHash(H, eBlock.entryHashes, entryHash, true);
    var nodes := BlockNodes(branch, eBlock.headerHash, EBlockBodyMR(H, eBlock), key);
    if key !in db.includedIn {
      return NotCreated(DBlockOfEBlockNotFound);
    }
    var hash := db.includedIn[key];
    if hash !in db.dBlocks {
      return NotCreated(DBlockNotFound);
    }
    var dBlock := db.dBlocks[hash];
    var dBranch := BuildMerkleBranchForHash(H, HashesForBranch(dBlock), key, true);
    var dNodes := BlockNodes(dBranch, dBlock.headerHash, DBlockBodyMR(H, dBlock), hash);
    var timestamp := FindTimestamp(eBlock.entryHashes, entryHash, dBlock.timestamp);
    r := Created(Content(Some(EntryJSON(raw, Some(entryHash))), Some(nodes + dNodes), Some(key),
                         Some(DBlockKeyMR(H, dBlock))), dBlock.height, timestamp);
    assert nodes[|nodes| - 1] == FullNode(H, eBlock.headerHash, EBlockBodyMR(H, eBlock));
    assert (nodes + dNodes)[|nodes| - 1] == nodes[|nodes| - 1];
    if branch.Some? && dBranch.Some? {
      BlockNodesChained(H, eBlock.entryHashes, entryHash, branch.value, eBlock.headerHash);
      FlatListHasBodyRoot(H, dBlock);
      BlockNodesChained(H, HashesForBranch(dBlock), key, dBranch.value, dBlock.headerHash);
      TwoBlocksAccepted(H, r.content, nodes, dNodes);
    }
  }

  /** The trimmed receipt; the minimal verifier accepts it. */
  method CreateMinimalReceipt(H: Combine, db: Database, entryHash: Hash)
    returns (receipt: Receipt?)
    requires WellKeyed(H, db)
    ensures receipt != null <==> Locatable(H, db, entryHash, false)
    ensures receipt != null ==>
              var key := EBlockKeyMR(H, db.eBlocks[db.includedIn[entryHash]]);
              Names(receipt.View(), "", entryHash, key, db.includedIn[key])
    ensures receipt != null && Indexed(H, db, entryHash) ==>
              MinimalAccepted(H, receipt.View()) && FullAccepted(H, RefilledContent(H, receipt.View()))
              && ChainedContent(H, RefilledContent(H, receipt.View()))
  {
    var r := CreateReceipt(H, db, entryHash, false);
    if r.NotCreated? {
      return null;
    }
    var full := new Receipt(r.content);
    TrimReceipt(full);
    if Indexed(H, db, entryHash) {
      FullBecomesMinimal(H, r.content);
      TrimRefills(H, r.content);
    }
    receipt := full;
  }

  /** The receipt is for this entry, through these two blocks. */
  ghost predicate Names(c: Content, raw: string, entryHash: Hash, eBlockKey: Hash, dBlockKey: Hash) {
    && c.entry == Some(EntryJSON(raw, Some(entryHash))) && c.branch.Some?
    && c.entryBlockKeyMR == Some(eBlockKey) && c.directoryBlockKeyMR == Some(dBlockKey)
  }

  /** A trimmed receipt with the missing sides and tops computed again. */
  ghost function RefilledContent(H: Combine, c: Content): Content
    requires c.entry.Some? && c.entry.value.entryHash.Some? && c.branch.Some?
  {
    c.(branch := Some(Refilled(H, c.entry.value.entryHash.value, c.branch.value)))
  }

  lemma TrimRefills(H: Combine, c: Content)
    requires ChainedContent(H, c)
    ensures RefilledContent(H, TrimmedContent(c)) == c
  {
    TrimRoundTrip(H, c.entry.value.entryHash.value, c.branch.value);
  }

  /** A block's branch followed by its header node is chained from the leaf to the block's key. */
  lemma BlockNodesChained(H: Combine, leaves: seq<Hash>, leaf: Hash, branch: seq<MerkleNode>, header: Hash)
    requires exists i :: 0 <= i < |leaves| && leaves[i] == leaf && branch == Branch(H, leaves, i)
    ensures var nodes := branch + [FullNode(H, header, Root(H, leaves))];
            Chained(H, leaf, nodes) && Climb(H, leaf, nodes) == H(header, Root(H, leaves))
  {
    var i :| 0 <= i < |leaves| && leaves[i] == leaf && branch == Branch(H, leaves, i);
    BranchReachesRoot(H, leaves, i);
    var last := [FullNode(H, header, Root(H, leaves))];
    assert last[1..] == [];
    assert Chained(H, Root(H, leaves), last);
    assert Climb(H, Root(H, leaves), last) == Climb(H, H(header, Root(H, leaves)), []);
    ChainedConcat(H, leaf, branch, last);
    ClimbConcat(H, leaf, branch, last);
  }

  /** Two chained parts, the first ending in the entry block's key and the second in the directory
      block's key, make a receipt the full verifier accepts. */
  lemma TwoBlocksAccepted(H: Combine, c: Content, a: seq<MerkleNode>, b: seq<MerkleNode>)
    requires HeaderError(c) == None && c.branch == Some(a + b) && a != [] && b != []
    requires Chained(H, c.entry.value.entryHash.value, a)
    requires Climb(H, c.entry.value.entryHash.value, a) == c.entryBlockKeyMR.value
    requires Chained(H, c.entryBlockKeyMR.value, b)
    requires Climb(H, c.entryBlockKeyMR.value, b) == c.directoryBlockKeyMR.value
    ensures ChainedContent(H, c) && FullAccepted(H, c)
  {
    var start, branch := c.entry.value.entryHash.value, c.branch.value;
    ChainedConcat(H, start, a, b);
    ClimbConcat(H, start, a, b);
    assert branch[..|a|] == a && branch[..|branch|] == branch;
    assert Below(H, start, branch, |a|) == c.entryBlockKeyMR.value;
    assert Below(H, start, branch, |branch|) == c.directoryBlockKeyMR.value;
    forall i | 0 <= i < |branch|
      ensures NodeOk(H, start, branch, i) && FullAt(branch, i)
    {
      ChainedNode(H, start, branch, i);
    }
  }

  // ---------------------------------------------------------------- what a minimal receipt proves

  /** The minimal nodes through a block: the siblings of a leaf's path, then the header's hash. */
  ghost function BlockPath(H: Combine, leaves: seq<Hash>, i: nat, header: Hash): seq<MerkleNode>
    requires i < |leaves|
  {
    Stripped(Branch(H, leaves, i), i) + [MerkleNode(Some(header), None, None)]
  }

  lemma BlockPathClimbs(H: Combine, leaves: seq<Hash>, i: nat, header: Hash)
    requires i < |leaves|
    ensures |BlockPath(H, leaves, i, header)| == Depth(|leaves|) + 1
    ensures AllMinimal(BlockPath(H, leaves, i, header)) && BlockShaped(BlockPath(H, leaves, i, header), i)
    ensures Climb(H, leaves[i], BlockPath(H, leaves, i, header)) == H(header, Root(H, leaves))
  {
    var path, last := Stripped(Branch(H, leaves, i), i), [MerkleNode(Some(header), None, None)];
    StrippedReachesRoot(H, leaves, i);
    ClimbConcat(H, leaves[i], path, last);
    assert last[1..] == [];
    assert Climb(H, Root(H, leaves), last) == Climb(H, H(header, Root(H, leaves)), []);
    assert (path + last)[..|path|] == path;
  }

  /** Nodes with the free sides of a path to leaf `i` of a block and of the header node above it. */
  ghost predicate BlockShaped(nodes: seq<MerkleNode>, i: nat) {
    nodes != [] && ShapedFor(nodes[..|nodes| - 1], i) && nodes[|nodes| - 1].left.Some?
  }

  lemma BlockShapedSame(p: seq<MerkleNode>, q: seq<MerkleNode>, i: nat)
    requires |p| == |q| && BlockShaped(p, i) && BlockShaped(q, i)
    ensures SameShape(p, q)
  {
    var n := |p| - 1;
    ShapedForSame(p[..n], q[..n], i);
    forall k | 0 <= k < |p| ensures p[k].left.None? <==> q[k].left.None? {
      if k < n {
        assert p[k] == p[..n][k] && q[k] == q[..n][k];
      }
    }
  }

  /** A branch with the lengths and free sides of a path from entry `i` of an entry block of the given size
      through entry `j` of a directory block of the given size. */
  ghost predicate ReceiptShaped(branch: seq<MerkleNode>, entries: nat, i: nat, blocks: nat, j: nat)
    requires entries > 0 && blocks > 0
  {
    var d := Depth(entries) + 1;
    && |branch| == d + Depth(2 * blocks) + 1
    && BlockShaped(branch[..d], i) && BlockShaped(branch[d..], 2 * j + 1)
  }

  /** The minimal nodes from entry `i` of an entry block through entry `j` of a directory block. */
  ghost function ReceiptPath(H: Combine, eBlock: EBlock, i: nat, dBlock: DBlock, j: nat): seq<MerkleNode>
    requires i < |eBlock.entryHashes| && j < |dBlock.dbEntries|
  {
    BlockPath(H, eBlock.entryHashes, i, eBlock.headerHash)
      + BlockPath(H, HashesForBranch(dBlock), 2 * j + 1, dBlock.headerHash)
  }

  lemma ReceiptPathClimbs(H: Combine, eBlock: EBlock, i: nat, dBlock: DBlock, j: nat)
    requires i < |eBlock.entryHashes| && j < |dBlock.dbEntries| && dBlock.dbEntries[j].keyMR == EBlockKeyMR(H, eBlock)
    ensures Climb(H, eBlock.entryHashes[i], BlockPath(H, eBlock.entryHashes, i, eBlock.headerHash)) == EBlockKeyMR(H, eBlock)
    ensures Climb(H, eBlock.entryHashes[i], ReceiptPath(H, eBlock, i, dBlock, j)) == DBlockKeyMR(H, dBlock)
    ensures AllMinimal(ReceiptPath(H, eBlock, i, dBlock, j))
  {
    var leaves, flat, k := eBlock.entryHashes, HashesForBranch(dBlock), 2 * j + 1;
    BlockPathClimbs(H, leaves, i, eBlock.headerHash);
    BlockPathClimbs(H, flat, k, dBlock.headerHash);
    FlatListHasBodyRoot(H, dBlock);
    KeyPlace(dBlock, j);
    ClimbConcat(H, leaves[i], BlockPath(H, leaves, i, eBlock.headerHash), BlockPath(H, flat, k, dBlock.headerHash));
  }

  lemma KeyPlace(dBlock: DBlock, j: nat)
    requires j < |dBlock.dbEntries|
    ensures HashesForBranch(dBlock)[2 * j + 1] == dBlock.dbEntries[j].keyMR
  {
    assert (2 * j + 1) / 2 == j && (2 * j + 1) % 2 == 1;
  }

  lemma ReceiptShapedSame(H: Combine, branch: seq<MerkleNode>, eBlock: EBlock, i: nat, dBlock: DBlock, j: nat)
    requires i < |eBlock.entryHashes| && j < |dBlock.dbEntries|
    requires ReceiptShaped(branch, |eBlock.entryHashes|, i, |dBlock.dbEntries|, j)
    ensures SameShape(branch, ReceiptPath(H, eBlock, i, dBlock, j))
    ensures |BlockPath(H, eBlock.entryHashes, i, eBlock.headerHash)| <= |branch|
  {
    var leaves, flat := eBlock.entryHashes, HashesForBranch(dBlock);
    var p, q := BlockPath(H, leaves, i, eBlock.headerHash), BlockPath(H, flat, 2 * j + 1, dBlock.headerHash);
    BlockPathClimbs(H, leaves, i, eBlock.headerHash);
    BlockPathClimbs(H, flat, 2 * j + 1, dBlock.headerHash);
    BlockShapedSame(branch[..|p|], p, i);
    BlockShapedSame(branch[|p|..], q, 2 * j + 1);
    SameShapeConcat(branch, p, q);
  }

  /** With a collision-free hash a minimal receipt proves what it is for: if its branch, up to where it
      reaches the key of a directory block, has the shape of a path through entry `j` of that block and entry
      `i` of the entry block listed there, then its entry hash is that of entry `i`, the entry block's key is
      reached on the way, and the branch is the one the two blocks give. */
  lemma MinimalReceiptProvesEntry(H: Combine, c: Content, n: nat, eBlock: EBlock, i: nat, dBlock: DBlock, j: nat)
    requires CollisionFree(H) && MinimalAccepted(H, c) && n <= |c.branch.value|
    requires i < |eBlock.entryHashes| && j < |dBlock.dbEntries| && dBlock.dbEntries[j].keyMR == EBlockKeyMR(H, eBlock)
    requires Below(H, c.entry.value.entryHash.value, c.branch.value, n) == DBlockKeyMR(H, dBlock)
    requires ReceiptShaped(c.branch.value[..n], |eBlock.entryHashes|, i, |dBlock.dbEntries|, j)
    ensures c.entry.value.entryHash == Some(eBlock.entryHashes[i])
    ensures Reached(H, c.entry.value.entryHash.value, c.branch.value, n, EBlockKeyMR(H, eBlock))
    ensures c.branch.value[..n] == ReceiptPath(H, eBlock, i, dBlock, j)
  {
    var start, branch := c.entry.value.entryHash.value, c.branch.value[..n];
    var p, whole := BlockPath(H, eBlock.entryHashes, i, eBlock.headerHash), ReceiptPath(H, eBlock, i, dBlock, j);
    ReceiptPathClimbs(H, eBlock, i, dBlock, j);
    ReceiptShapedSame(H, branch, eBlock, i, dBlock, j);
    MinimalBranchUnique(H, start, eBlock.entryHashes[i], branch, whole);
    assert c.branch.value[..|p|] == branch[..|p|] == p;
    assert |p| > 0 && Below(H, start, c.branch.value, |p|) == EBlockKeyMR(H, eBlock);
  }

  lemma SameShapeConcat(branch: seq<MerkleNode>, p: seq<MerkleNode>, q: seq<MerkleNode>)
    requires |branch| == |p| + |q| && SameShape(branch[..|p|], p) && SameShape(branch[|p|..], q)
    ensures SameShape(branch, p + q)
  {
    forall k | 0 <= k < |branch| ensures branch[k].left.None? <==> (p + q)[k].left.None? {
      if k < |p| {
        assert branch[k] == branch[..|p|][k];
      } else {
        assert branch[k] == branch[|p|..][k - |p|];
      }
    }
  }
}
