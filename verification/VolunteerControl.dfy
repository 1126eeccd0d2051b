/** One volunteer's votes as a leader collects them
    (electionsCore/election/volunteercontrol/volunteercontrol.go, electionsCore/messages/messages.go). */
module VolunteerControl {
  import opened Options
  import opened Sets

  type Id = nat

  /** A leader's vote for a volunteer in the first phase. */
  datatype Vote = Vote(vol: Id, signer: Id)

  /** A leader's ranked vote: its rank, the level it was cast at, the priority of its volunteer, the
      vote before it, and the votes that justify it. */
  datatype LeaderLevel = LeaderLevel(signer: Id, vol: Id, rank: int, level: int, priority: int,
                                     previous: Option<LeaderLevel>, votes: seq<Vote>,
                                     justification: seq<LeaderLevel>, committed: bool)

  /** Higher rank is better; between equal ranks the volunteer's priority decides. */
  predicate Less(a: LeaderLevel, b: LeaderLevel) {
    if a.rank == b.rank then a.priority < b.priority else a.rank < b.rank
  }

  /** The votes for one volunteer, by leader. */
  type Control = map<Id, LeaderLevel>

  /** The vote with the lowest level and, among those, the best. */
  ghost predicate IsLowest(votes: Control, k: Id) {
    && k in votes
    && (forall j :: j in votes ==> votes[k].level <= votes[j].level)
    && (forall j :: j in votes && votes[j].level == votes[k].level ==> !Less(votes[k], votes[j]))
  }

  method FindLowest(votes: Control) returns (k: Id)
    requires votes != map[]
    ensures IsLowest(votes, k)
  {
    k :| k in votes;
    var todo := votes.Keys - {k};
    while todo != {}
      invariant todo < votes.Keys && k in votes && k !in todo
      invariant forall j :: j in votes && j !in todo ==> votes[k].level <= votes[j].level
      invariant forall j :: j in votes && j !in todo && votes[j].level == votes[k].level ==> !Less(votes[k], votes[j])
      decreases |todo|
    {
      var j :| j in todo;
      todo := todo - {j};
      if votes[j].level < votes[k].level || (votes[j].level == votes[k].level && !Less(votes[j], votes[k])) {
        k := j;
      }
    }
  }

  /** Keeps a leader's best vote, and only a best majority of leaders. */
  ghost predicate VoteAdded(votes: Control, majority: nat, msg: LeaderLevel, after: Control, changed: bool) {
    if msg.signer in votes then
      var cur := votes[msg.signer];
      && (changed <==> cur.level != msg.level && msg.rank > cur.rank)
      && after == if changed then votes[msg.signer := msg.(justification := [])] else votes
    else
      var more := votes[msg.signer := msg];
      && changed
      && if |more| <= majority then after == more else exists k :: IsLowest(more, k) && after == more - {k}
  }

  method AddVote(votes: Control, majority: nat, msg: LeaderLevel) returns (after: Control, changed: bool)
    ensures VoteAdded(votes, majority, msg, after, changed)
  {
    if msg.signer in votes {
      var cur := votes[msg.signer];
      if cur.level == msg.level {
        return votes, false;
      }
      if msg.rank > cur.rank {
        return votes[msg.signer := msg.(justification := [])], true;
      } else {
        return votes, false;
      }
    }
    after := votes[msg.signer := msg];
    changed := true;
    if |after| > majority {
      ghost var more := after;
      var remove := FindLowest(after);
      after := after - {remove};
      assert IsLowest(more, remove) && after == more - {remove};
    }
  }

  /** What is kept of a full control and one more vote is the best majority possible: the lowest level of
      any other majority of them is no higher. */
  lemma BestMajorityKept(votes: Control, majority: nat, msg: LeaderLevel, after: Control, changed: bool, others: set<Id>, k: Id)
    requires VoteAdded(votes, majority, msg, after, changed) && msg.signer !in votes && |votes| <= majority
    requires others <= votes.Keys + {msg.signer} && |others| == majority && k in after
    ensures exists j :: j in others && votes[msg.signer := msg][j].level <= after[k].level
    ensures |after| <= majority
  {
    var more := votes[msg.signer := msg];
    assert more.Keys == votes.Keys + {msg.signer};
    if k !in others {
      if others <= after.Keys {
        SubsetSize(others, after.Keys - {k});
      } else {
        var gone :| IsLowest(more, gone) && after == more - {gone};
        assert gone in others;
      }
    }
  }

  // ---------------------------------------------------------------- a ranked vote from a majority

  /** A list of all votes of a control, one per leader. */
  ghost predicate Lists(s: seq<LeaderLevel>, votes: Control) {
    && |s| == |votes|
    && forall k :: k in votes ==> votes[k] in s
  }

  /** With a majority of votes for a volunteer, a leader can cast a vote whose rank is the lowest
      level among them and whose level is at least the highest. */
  ghost predicate Countable(votes: Control, self: Id, vol: Id, ll: LeaderLevel) {
    && ll.signer == self && ll.vol == vol && !ll.committed && ll.previous == None && ll.votes == [] && ll.priority == 0
    && Lists(ll.justification, votes)
    && (forall j :: 0 <= j < |ll.justification| ==> ll.justification[j] in votes.Values)
    && (exists k :: k in votes && votes[k].level == ll.rank)
    && (exists k :: k in votes && votes[k].level == ll.level)
    && (forall k :: k in votes ==> ll.rank <= votes[k].level <= ll.level)
  }

  /** All votes, with their lowest and highest level. */
  method Survey(votes: Control) returns (all: seq<LeaderLevel>, lowest: int, highest: int)
    requires votes != map[]
    ensures Lists(all, votes)
    ensures forall j :: 0 <= j < |all| ==> all[j] in votes.Values
    ensures exists k :: k in votes && votes[k].level == lowest
    ensures exists k :: k in votes && votes[k].level == highest
    ensures forall k :: k in votes ==> lowest <= votes[k].level <= highest
  {
    var first :| first in votes;
    all, lowest, highest := [votes[first]], votes[first].level, votes[first].level;
    var todo := votes.Keys - {first};
    assert |todo| == |votes.Keys| - 1;
    while todo != {}
      invariant todo <= votes.Keys
      invariant |all| + |todo| == |votes|
      invariant forall k :: k in votes && k !in todo ==> votes[k] in all
      invariant forall j :: 0 <= j < |all| ==> all[j] in votes.Values
      invariant exists k :: k in votes && votes[k].level == lowest
      invariant exists k :: k in votes && votes[k].level == highest
      invariant forall k :: k in votes && k !in todo ==> lowest <= votes[k].level <= highest
      decreases |todo|
    {
      var k :| k in todo;
      todo := todo - {k};
      if votes[k].level < lowest {
        lowest := votes[k].level;
      }
      if votes[k].level > highest {
        highest := votes[k].level;
      }
      all := all + [votes[k]];
    }
  }

  method CheckVoteCount(votes: Control, majority: nat, self: Id, vol: Id)
    returns (after: Control, r: Option<LeaderLevel>)
    requires majority > 0
    requires forall k :: k in votes ==> 0 < votes[k].level
    ensures r.Some? <==> |votes| >= majority
    ensures r.None? ==> after == votes
    ensures r.Some? ==> Countable(votes, self, vol, r.value)
    ensures r.Some? ==> after == map k | k in votes && votes[k].level > r.value.rank :: votes[k]
  {
    if |votes| < majority {
      return votes, None;
    }
    var justification, rank, highest := Survey(votes);
    after := map k | k in votes && votes[k].level > rank :: votes[k];
    r := Some(LeaderLevel(self, vol, rank, highest, 0, None, [], justification, false));
  }
}
