/** A leader's part in the election of a volunteer (electionsCore/election/election.go). Leaders vote
    for volunteers, then cast ranked votes on top of majorities of each other's votes until one of
    them commits. The display and the message history kept for debugging are left out. */
module VotingElection {
  import opened Options
  import opened VolunteerControl
  import opened Sets

  datatype Message = Level(ll: LeaderLevel) | Volunteer(vol: Id) | VoteFor(vote: Vote)

  /** Earlier audit servers in the list have higher priority; an unknown one has the lowest. */
  function Priority(auds: seq<Id>, vol: Id): (p: nat)
    ensures p == 0 || p < |auds|
  {
    if auds == [] then 0
    else if auds[0] == vol then |auds| - 1
    else Priority(auds[1..], vol)
  }

  // ---------------------------------------------------------------- messages in good order

  /** What a leader knows of the votes it meets: its own votes, and a bound on the levels of all others. */
  datatype Known = Known(self: Id, bound: int, own: seq<LeaderLevel>)

  ghost predicate Grows(x: Known, y: Known) {
    x.self == y.self && x.bound <= y.bound && x.own <= y.own
  }

  predicate SameVote(a: LeaderLevel, b: LeaderLevel) {
    a.rank == b.rank && a.level == b.level && a.vol == b.vol
  }

  ghost predicate InCast(own: seq<LeaderLevel>, ll: LeaderLevel) {
    exists i :: 0 <= i < |own| && SameVote(own[i], ll)
  }

  /** A vote the leader has cast itself, on top of nothing or of another such vote. */
  ghost predicate Own(x: Known, ll: LeaderLevel) {
    && ll.signer == x.self && InCast(x.own, ll)
    && (ll.previous.Some? ==>
          var p := ll.previous.value;
          p.signer == x.self && p.previous.None? && InCast(x.own, p))
  }

  ghost predicate AllOwn(x: Known, lls: seq<LeaderLevel>) {
    forall j :: 0 <= j < |lls| ==> Own(x, lls[j])
  }

  /** A vote and the votes before it have positive levels and ranks that are not negative, and are the
      leader's own or have no level above the bound. */
  ghost predicate PrevOk(x: Known, ll: LeaderLevel)
    decreases ll
  {
    && 0 < ll.level && 0 <= ll.rank && (ll.level <= x.bound || Own(x, ll))
    && (ll.previous.Some? ==> PrevOk(x, ll.previous.value))
  }

  /** What the vote carries is in order. */
  ghost predicate JustOk(x: Known, ll: LeaderLevel) {
    forall j :: 0 <= j < |ll.justification| ==> PrevOk(x, ll.justification[j])
  }

  ghost predicate LevelOk(x: Known, ll: LeaderLevel) {
    PrevOk(x, ll) && JustOk(x, ll)
  }

  ghost predicate MessageOk(x: Known, m: Message) {
    m.Level? ==> LevelOk(x, m.ll)
  }

  /** What every leader demands of the messages it gets. */
  ghost predicate WellFormed(m: Message) {
    m.Level? ==> WellFormedVote(m.ll) && forall j :: 0 <= j < |m.ll.justification| ==> WellFormedVote(m.ll.justification[j])
  }

  ghost predicate WellFormedVote(ll: LeaderLevel)
    decreases ll
  {
    0 < ll.level && 0 <= ll.rank && (ll.previous.Some? ==> WellFormedVote(ll.previous.value))
  }

  /** A bound for the levels in a vote and the votes before it. */
  ghost function Top(ll: LeaderLevel): (b: nat)
    decreases ll
  {
    (if ll.level > 0 then ll.level else 0) + if ll.previous.Some? then Top(ll.previous.value) else 0
  }

  ghost function TopOfAll(lls: seq<LeaderLevel>): (b: nat)
    ensures forall j :: 0 <= j < |lls| ==> Top(lls[j]) <= b
  {
    if lls == [] then 0 else Top(lls[0]) + TopOfAll(lls[1..])
  }

  ghost function Highest(m: Message): nat {
    if m.Level? then Top(m.ll) + TopOfAll(m.ll.justification) else 0
  }

  lemma {:induction false} TopBounds(x: Known, ll: LeaderLevel)
    requires WellFormedVote(ll) && Top(ll) <= x.bound
    ensures PrevOk(x, ll)
    decreases ll
  {
    if ll.previous.Some? {
      TopBounds(x, ll.previous.value);
    }
  }

  lemma WellFormedIsOk(x: Known, m: Message)
    requires WellFormed(m) && Highest(m) <= x.bound
    ensures MessageOk(x, m)
  {
    if m.Level? {
      TopBounds(x, m.ll);
      forall j | 0 <= j < |m.ll.justification|
        ensures PrevOk(x, m.ll.justification[j])
      {
        TopBounds(x, m.ll.justification[j]);
      }
    }
  }

  lemma {:induction false} PrevIsWellFormed(x: Known, ll: LeaderLevel)
    requires PrevOk(x, ll)
    ensures WellFormedVote(ll)
    decreases ll
  {
    if ll.previous.Some? {
      PrevIsWellFormed(x, ll.previous.value);
    }
  }

  lemma OkIsWellFormed(x: Known, m: Message)
    requires MessageOk(x, m)
    ensures WellFormed(m)
  {
    if m.Level? {
      PrevIsWellFormed(x, m.ll);
      forall j | 0 <= j < |m.ll.justification|
        ensures WellFormedVote(m.ll.justification[j])
      {
        PrevIsWellFormed(x, m.ll.justification[j]);
      }
    }
  }

  lemma OwnGrows(x: Known, y: Known, ll: LeaderLevel)
    requires Own(x, ll) && Grows(x, y)
    ensures Own(y, ll)
  {
    var i :| 0 <= i < |x.own| && SameVote(x.own[i], ll);
    assert SameVote(y.own[i], ll);
    if ll.previous.Some? {
      var p := ll.previous.value;
      var k :| 0 <= k < |x.own| && SameVote(x.own[k], p);
      assert SameVote(y.own[k], p);
    }
  }

  lemma {:induction false} PrevGrows(x: Known, y: Known, ll: LeaderLevel)
    requires PrevOk(x, ll) && Grows(x, y)
    ensures PrevOk(y, ll)
    decreases ll
  {
    if Own(x, ll) {
      OwnGrows(x, y, ll);
    }
    if ll.previous.Some? {
      PrevGrows(x, y, ll.previous.value);
    }
  }

  lemma ControlsGrow(x: Known, y: Known, majority: nat, controls: map<Id, Control>)
    requires AllControlsOk(x, majority, controls) && Grows(x, y)
    ensures AllControlsOk(y, majority, controls)
  {
    forall v, k | v in controls && k in controls[v]
      ensures PrevOk(y, controls[v][k])
    {
      assert ControlOk(x, majority, v, controls[v]);
      PrevGrows(x, y, controls[v][k]);
    }
  }

  ghost predicate ControlOk(x: Known, majority: nat, vol: Id, votes: Control) {
    && |votes| <= majority
    && forall k :: k in votes ==> votes[k].signer == k && votes[k].vol == vol && PrevOk(x, votes[k])
  }

  lemma VoteAddedOk(x: Known, majority: nat, votes: Control, msg: LeaderLevel, after: Control, changed: bool)
    requires ControlOk(x, majority, msg.vol, votes) && PrevOk(x, msg)
    requires VoteAdded(votes, majority, msg, after, changed)
    ensures ControlOk(x, majority, msg.vol, after)
  {
    var more := votes[msg.signer := msg];
    if msg.signer !in votes {
      assert |more| == |votes| + 1;
      if |more| > majority {
        var k :| IsLowest(more, k) && after == more - {k};
        assert |after| == |more| - 1;
      }
    } else {
      assert |votes[msg.signer := msg.(justification := [])]| == |votes|;
      StrippedOk(x, msg);
    }
    forall k | k in after
      ensures after[k].signer == k && after[k].vol == msg.vol && PrevOk(x, after[k])
    {
      assert after[k] == (if k == msg.signer then after[k] else votes[k]);
    }
  }

  lemma StrippedOk(x: Known, msg: LeaderLevel)
    requires PrevOk(x, msg)
    ensures PrevOk(x, msg.(justification := []))
  {
    if Own(x, msg) {
      var i :| 0 <= i < |x.own| && SameVote(x.own[i], msg);
      assert SameVote(x.own[i], msg.(justification := []));
    }
  }

  // ---------------------------------------------------------------- what filing a message does

  function Opened(controls: map<Id, Control>, vol: Id): map<Id, Control> {
    if vol in controls then controls else controls[vol := map[]]
  }

  /** One vote is added to the control of its volunteer. */
  ghost predicate FiledOne(majority: nat, before: map<Id, Control>, msg: LeaderLevel, after: map<Id, Control>, changed: bool) {
    msg.vol in before && exists votes :: VoteAdded(before[msg.vol], majority, msg, votes, changed)
                                      && after == before[msg.vol := votes]
  }

  /** A vote is filed after the votes before it. */
  ghost predicate Filed(majority: nat, before: map<Id, Control>, msg: LeaderLevel, after: map<Id, Control>)
    decreases msg, 1
  {
    exists mid, changed ::
      FiledBefore(majority, Opened(before, msg.vol), msg, mid) && FiledOne(majority, mid, msg, after, changed)
  }

  ghost predicate FiledBefore(majority: nat, before: map<Id, Control>, msg: LeaderLevel, after: map<Id, Control>)
    decreases msg, 0
  {
    if msg.previous.Some? then Filed(majority, before, msg.previous.value, after) else after == before
  }

  ghost predicate FiledAll(majority: nat, before: map<Id, Control>, msgs: seq<LeaderLevel>, after: map<Id, Control>) {
    if msgs == [] then after == before
    else
      var earlier, last := msgs[..|msgs| - 1], msgs[|msgs| - 1];
      exists mid :: FiledAll(majority, before, earlier, mid) && Filed(majority, mid, last, after)
  }

  lemma FiledOneMore(majority: nat, before: map<Id, Control>, msgs: seq<LeaderLevel>, j: nat, mid: map<Id, Control>,
                     after: map<Id, Control>)
    requires j < |msgs| && FiledAll(majority, before, msgs[..j], mid) && Filed(majority, mid, msgs[j], after)
    ensures FiledAll(majority, before, msgs[..j + 1], after)
  {
    assert msgs[..j + 1][..j] == msgs[..j];
  }

  lemma CarriedOneMore(volunteerVotes: map<Id, seq<Vote>>, msgs: seq<LeaderLevel>, j: nat)
    requires j < |msgs|
    ensures WithAllCarried(volunteerVotes, msgs[..j + 1]) == WithCarried(WithAllCarried(volunteerVotes, msgs[..j]), msgs[j])
  {
    assert msgs[..j + 1][..j] == msgs[..j];
  }

  /** A message is filed, then the votes that justify it. */
  ghost predicate FiledMessage(majority: nat, before: map<Id, Control>, msg: LeaderLevel, after: map<Id, Control>) {
    exists mid :: Filed(majority, before, msg, mid) && FiledAll(majority, mid, msg.justification, after)
  }

  /** The volunteers a vote and the votes before it are for, and those of a whole message. */
  function Named(msg: LeaderLevel): set<Id>
    decreases msg
  {
    {msg.vol} + if msg.previous.Some? then Named(msg.previous.value) else {}
  }

  function AllNamed(msgs: seq<LeaderLevel>): set<Id> {
    if msgs == [] then {} else AllNamed(msgs[..|msgs| - 1]) + Named(msgs[|msgs| - 1])
  }

  lemma {:induction false} FiledNames(majority: nat, before: map<Id, Control>, msg: LeaderLevel, after: map<Id, Control>)
    requires Filed(majority, before, msg, after)
    ensures after.Keys == before.Keys + Named(msg)
    decreases msg
  {
    var mid, changed :| FiledBefore(majority, Opened(before, msg.vol), msg, mid)
        && FiledOne(majority, mid, msg, after, changed);
    FiledOneNames(majority, mid, msg, after, changed);
    var ready := Opened(before, msg.vol);
    OpenedNames(before, msg.vol);
    var earlier := if msg.previous.Some? then Named(msg.previous.value) else {};
    if msg.previous.Some? {
      FiledNames(majority, ready, msg.previous.value, mid);
    }
    assert mid.Keys == ready.Keys + earlier;
    UnionTwice(before.Keys, {msg.vol}, earlier);
  }

  lemma UnionTwice(a: set<Id>, b: set<Id>, c: set<Id>)
    ensures (a + b) + c == a + (b + c)
  {
  }

  lemma FiledOneNames(majority: nat, before: map<Id, Control>, msg: LeaderLevel, after: map<Id, Control>, changed: bool)
    requires FiledOne(majority, before, msg, after, changed)
    ensures after.Keys == before.Keys
  {
    var votes :| VoteAdded(before[msg.vol], majority, msg, votes, changed) && after == before[msg.vol := votes];
  }

  lemma OpenedNames(controls: map<Id, Control>, vol: Id)
    ensures Opened(controls, vol).Keys == controls.Keys + {vol}
  {
  }

  lemma {:induction false} AllFiledNames(majority: nat, before: map<Id, Control>, msgs: seq<LeaderLevel>,
                                         after: map<Id, Control>)
    requires FiledAll(majority, before, msgs, after)
    ensures after.Keys == before.Keys + AllNamed(msgs)
    decreases |msgs|
  {
    if msgs != [] {
      var earlier, last := msgs[..|msgs| - 1], msgs[|msgs| - 1];
      var mid :| FiledAll(majority, before, earlier, mid) && Filed(majority, mid, last, after);
      AllFiledNames(majority, before, earlier, mid);
      FiledNames(majority, mid, last, after);
    }
  }

  /** After a message there is a control for everybody it names anywhere, and for nobody else that is new. */
  lemma MessageNames(majority: nat, before: map<Id, Control>, msg: LeaderLevel, after: map<Id, Control>)
    requires FiledMessage(majority, before, msg, after)
    ensures after.Keys == before.Keys + Named(msg) + AllNamed(msg.justification)
  {
    var mid :| Filed(majority, before, msg, mid) && FiledAll(majority, mid, msg.justification, after);
    FiledNames(majority, before, msg, mid);
    AllFiledNames(majority, mid, msg.justification, after);
  }

  /** A new rank does not pass the levels of the others, unless a majority is one leader and the vote is on
      top of the leader's own vote. */
  lemma RankBounded(x: Known, majority: nat, vol: Id, votes: Control, ll: LeaderLevel)
    requires ControlOk(x, majority, vol, votes) && 1 <= majority <= |votes|
    requires Countable(votes, x.self, vol, ll)
    ensures 0 < ll.rank <= ll.level && JustOk(x, ll) && RankOk(x, majority, ll)
  {
    forall j | 0 <= j < |ll.justification|
      ensures PrevOk(x, ll.justification[j]) && (ll.justification[j].level >= ll.rank)
    {
      assert ll.justification[j] in votes.Values;
      var m :| m in votes && votes[m] == ll.justification[j];
    }
    if majority >= 2 {
      assert exists k :: k in votes && k != x.self by {
        if forall k :: k in votes ==> k == x.self {
          assert votes.Keys <= {x.self};
          assert |votes.Keys| <= |{x.self}| by { SubsetSize(votes.Keys, {x.self}); }
        }
      }
      var k :| k in votes && k != x.self;
      assert ll.rank <= votes[k].level <= x.bound;
    }
  }

  ghost predicate RankOk(x: Known, majority: nat, ll: LeaderLevel) {
    ll.rank <= x.bound || (majority == 1 && AllOwn(x, ll.justification))
  }

  // ---------------------------------------------------------------- what a leader has cast

  predicate HigherAt(cast: seq<LeaderLevel>, i: nat, j: nat)
    requires i < j < |cast|
  {
    cast[i].level < cast[j].level
  }

  /** A later vote of a leader has a higher level. */
  ghost predicate LevelsRise(cast: seq<LeaderLevel>) {
    forall i: nat, j: nat :: i < j < |cast| ==> HigherAt(cast, i, j)
  }

  predicate BetterAt(cast: seq<LeaderLevel>, i: nat, j: nat)
    requires i < j < |cast|
  {
    Less(cast[i], cast[j])
  }

  /** A later vote of a leader is better. */
  ghost predicate VotesRise(cast: seq<LeaderLevel>) {
    forall i: nat, j: nat :: i < j < |cast| ==> BetterAt(cast, i, j)
  }

  predicate Follows(a: LeaderLevel, b: LeaderLevel) {
    b.priority == a.priority && b.rank == a.rank + 1 && b.level == a.level + 1
  }

  /** The last `n` votes are ranked votes for one priority, each one rank and one level above the last. */
  ghost predicate Streak(cast: seq<LeaderLevel>, n: int) {
    0 <= n <= |cast| && forall k: nat :: |cast| - n <= k < |cast| ==> StreakAt(cast, n, k)
  }

  predicate StreakAt(cast: seq<LeaderLevel>, n: int, k: nat)
    requires k < |cast|
  {
    cast[k].rank > 0 && (|cast| - n < k && k > 0 ==> Follows(cast[k - 1], cast[k]))
  }

  /** Every vote carries the one before, without what justified that. */
  ghost predicate Chained(cast: seq<LeaderLevel>) {
    forall i: nat :: 0 < i < |cast| ==> CarriesAt(cast, i)
  }

  predicate CarriesAt(cast: seq<LeaderLevel>, i: nat)
    requires 0 < i < |cast|
  {
    cast[i].previous == Some(cast[i - 1].(justification := [], previous := None))
  }

  lemma ChainedNext(auds: seq<Id>, cast: seq<LeaderLevel>, current: LeaderLevel, vote: LeaderLevel)
    requires Chained(cast) && IsCurrent(cast, current)
    ensures Chained(cast + [Voted(auds, current, vote)])
  {
    var more := cast + [Voted(auds, current, vote)];
    forall i: nat | 0 < i < |more| ensures CarriesAt(more, i) {
      if i < |cast| {
        assert CarriesAt(cast, i);
      }
    }
  }

  lemma StreakShorter(cast: seq<LeaderLevel>, m: int, n: int)
    requires Streak(cast, m) && 0 <= n <= m
    ensures Streak(cast, n)
  {
    forall k: nat | |cast| - n <= k < |cast|
      ensures StreakAt(cast, n, k)
    {
      assert StreakAt(cast, m, k);
    }
  }

  /** The longest streak is over where a vote does not follow the one before. */
  lemma StreakBroken(cast: seq<LeaderLevel>, current: LeaderLevel, v: LeaderLevel, n: nat)
    requires IsCurrent(cast, current) && !Streak(cast, n + 1)
    ensures v.rank <= 0 ==> !Streak(cast + [v], 1)
    ensures !Follows(current, v) ==> !Streak(cast + [v], 2)
    ensures !Streak(cast + [v], n + 2)
  {
    var more, one, two, long := cast + [v], 1, 2, n + 2;
    if Streak(more, one) {
      assert StreakAt(more, one, |cast|);
    }
    if Streak(more, two) {
      assert StreakAt(more, two, |cast|) && StreakAt(more, two, |cast| - 1);
    }
    if Streak(more, long) {
      var shorter := n + 1;
      forall k: nat | |cast| - shorter <= k < |cast|
        ensures StreakAt(cast, shorter, k)
      {
        assert StreakAt(more, long, k);
      }
      assert Streak(cast, shorter);
    }
  }

  lemma TallyExact(cast: seq<LeaderLevel>, current: LeaderLevel, v: LeaderLevel, tally: nat)
    requires IsCurrent(cast, current) && v.rank >= 0 && !Streak(cast, tally + 1)
    ensures !Streak(cast + [v], Tally(current, v, tally) + 1)
  {
    StreakBroken(cast, current, v, tally);
  }

  /** The current vote is the last one cast. */
  ghost predicate IsCurrent(cast: seq<LeaderLevel>, current: LeaderLevel) {
    if cast == [] then current.rank == -1 && current.priority == -1
    else
      current == cast[|cast| - 1] && current.rank >= 0
  }

  lemma VotesRiseNext(cast: seq<LeaderLevel>, current: LeaderLevel, v: LeaderLevel)
    requires VotesRise(cast) && IsCurrent(cast, current) && Less(current, v)
    ensures VotesRise(cast + [v])
  {
    var more := cast + [v];
    forall i: nat, j: nat | i < j < |more|
      ensures BetterAt(more, i, j)
    {
      if j < |cast| {
        assert BetterAt(cast, i, j);
      } else if i < |cast| - 1 {
        assert BetterAt(cast, i, |cast| - 1);
      }
    }
  }

  lemma StreakNext(cast: seq<LeaderLevel>, current: LeaderLevel, v: LeaderLevel, n: int)
    requires Streak(cast, n) && IsCurrent(cast, current) && v.rank > 0
    ensures Streak(cast + [v], 1)
    ensures cast != [] && Follows(current, v) ==> Streak(cast + [v], n + 1)
  {
    var more := cast + [v];
    assert StreakAt(more, 1, |cast|);
    if cast != [] && Follows(current, v) {
      var longer := n + 1;
      forall k: nat | |more| - longer <= k < |more|
        ensures StreakAt(more, longer, k)
      {
        if k < |cast| {
          assert StreakAt(cast, n, k);
        }
      }
    }
  }

  /** What a leader has done so far; `skipped` says that it committed because somebody else did. */
  datatype Standing = Standing(level: int, vote: LeaderLevel, committed: bool, tally: int, cast: seq<LeaderLevel>,
                               skipped: bool)
  {
    /** The votes cast without the last one if that was taken over from another leader's commit. */
    ghost function OwnCast(): seq<LeaderLevel> {
      if skipped && cast != [] then cast[..|cast| - 1] else cast
    }
  }

  predicate BelowAt(cast: seq<LeaderLevel>, level: int, i: nat)
    requires i < |cast|
  {
    0 < cast[i].level < level
  }

  ghost predicate LevelsBelow(cast: seq<LeaderLevel>, level: int) {
    forall i: nat :: i < |cast| ==> BelowAt(cast, level, i)
  }

  predicate PriorityAt(auds: seq<Id>, cast: seq<LeaderLevel>, i: nat)
    requires i < |cast|
  {
    cast[i].priority == Priority(auds, cast[i].vol)
  }

  ghost predicate PrioritiesOk(auds: seq<Id>, cast: seq<LeaderLevel>) {
    forall i: nat :: i < |cast| ==> PriorityAt(auds, cast, i)
  }

  /** What a leader's own votes always satisfy. */
  ghost predicate StandingOk(self: Id, auds: seq<Id>, s: Standing) {
    && s.level >= 1 && LevelsRise(s.cast) && LevelsBelow(s.cast, s.level) && PrioritiesOk(auds, s.cast)
    && IsCurrent(s.cast, s.vote) && (s.cast != [] ==> s.level == s.vote.level + 1)
    && -1 <= s.vote.priority <= |auds|
    && (s.vote.rank >= 0 ==> s.vote.signer == self)
    && (s.skipped ==> s.committed && s.cast != []) && VotesRise(s.OwnCast())
    && Chained(s.cast) && (!s.committed ==> 0 <= s.tally <= 3 && Streak(s.cast, s.tally) && !Streak(s.cast, s.tally + 1))
    && (s.committed && !s.skipped ==> Streak(s.cast, 4))
  }

  /** A vote as it is sent: with its volunteer's priority and on top of the one before. */
  function Voted(auds: seq<Id>, current: LeaderLevel, vote: LeaderLevel): LeaderLevel {
    vote.(priority := Priority(auds, vote.vol),
          previous := if current.rank >= 0 then Some(current.(justification := [], previous := None)) else vote.previous)
  }

  function Tally(current: LeaderLevel, v: LeaderLevel, tally: int): int {
    if v.rank == 0 then 0 else if Follows(current, v) then tally + 1 else 1
  }

  /** Casting a vote, with the next level moved to `level`. */
  function Updated(auds: seq<Id>, s: Standing, vote: LeaderLevel, level: int): Standing {
    var v := Voted(auds, s.vote, vote);
    s.(level := level, vote := v, tally := Tally(s.vote, v, s.tally), cast := s.cast + [v])
  }

  lemma LevelsRiseNext(cast: seq<LeaderLevel>, level: int, v: LeaderLevel)
    requires LevelsRise(cast) && LevelsBelow(cast, level) && 0 < level <= v.level
    ensures LevelsRise(cast + [v]) && LevelsBelow(cast + [v], v.level + 1)
  {
    var more, next := cast + [v], v.level + 1;
    forall i: nat | i < |more| ensures BelowAt(more, next, i) {
      if i < |cast| {
        assert BelowAt(cast, level, i);
      }
    }
    forall i: nat, j: nat | i < j < |more| ensures HigherAt(more, i, j) {
      if j < |cast| {
        assert HigherAt(cast, i, j);
      } else {
        assert BelowAt(cast, level, i);
      }
    }
  }

  lemma StreakUpdated(cast: seq<LeaderLevel>, current: LeaderLevel, v: LeaderLevel, tally: int)
    requires IsCurrent(cast, current) && v.rank >= 0 && 0 <= tally <= 3 && Streak(cast, tally)
    ensures 0 <= Tally(current, v, tally) <= 4 && Streak(cast + [v], Tally(current, v, tally))
  {
    if v.rank > 0 {
      StreakNext(cast, current, v, tally);
    }
  }

  /** A better vote keeps the standing in order; with a streak of four the leader has to commit. */
  lemma BetterKeepsOrder(self: Id, auds: seq<Id>, s: Standing, vote: LeaderLevel)
    requires StandingOk(self, auds, s) && !s.committed
    requires vote.signer == self && 0 <= vote.rank && s.level <= vote.level
    requires Less(s.vote, Voted(auds, s.vote, vote))
    ensures var t := Updated(auds, s, vote, vote.level + 1);
            StandingOk(self, auds, t.(committed := t.tally > 3))
  {
    var v := Voted(auds, s.vote, vote);
    LevelsRiseNext(s.cast, s.level, v);
    StreakUpdated(s.cast, s.vote, v, s.tally);
    TallyExact(s.cast, s.vote, v, s.tally);
    ChainedNext(auds, s.cast, s.vote, vote);
    VotesRiseNext(s.cast, s.vote, v);
    PrioritiesNext(auds, s.cast, v);
  }

  /** So does any vote with which a leader follows another's commit. */
  lemma FollowKeepsOrder(self: Id, auds: seq<Id>, s: Standing, vote: LeaderLevel)
    requires StandingOk(self, auds, s) && !s.committed
    requires vote.signer == self && 0 <= vote.rank && s.level <= vote.level
    ensures var t := Updated(auds, s, vote, vote.level + 1).(tally := 4, committed := true, skipped := true);
            t.OwnCast() == s.cast && StandingOk(self, auds, t)
  {
    var v := Voted(auds, s.vote, vote);
    LevelsRiseNext(s.cast, s.level, v);
    PrioritiesNext(auds, s.cast, v);
    ChainedNext(auds, s.cast, s.vote, vote);
    var t := Updated(auds, s, vote, vote.level + 1).(tally := 4, committed := true, skipped := true);
    assert t.cast[..|t.cast| - 1] == s.cast;
    assert t.OwnCast() == s.cast;
    assert IsCurrent(t.cast, t.vote);
  }

  lemma PrioritiesNext(auds: seq<Id>, cast: seq<LeaderLevel>, v: LeaderLevel)
    requires PrioritiesOk(auds, cast) && v.priority == Priority(auds, v.vol)
    ensures PrioritiesOk(auds, cast + [v])
  {
    var more := cast + [v];
    forall i: nat | i < |more| ensures PriorityAt(auds, more, i) {
      if i < |cast| {
        assert PriorityAt(auds, cast, i);
      }
    }
  }

  /** A vote that is cast is in order as a message, and from then on one of the leader's own. */
  lemma VotedOk(self: Id, bound: int, auds: seq<Id>, s: Standing, vote: LeaderLevel)
    requires StandingOk(self, auds, s) && vote.signer == self && vote.previous == None
    requires 0 < vote.level && 0 <= vote.rank && JustOk(Known(self, bound, s.cast), vote)
    ensures var v := Voted(auds, s.vote, vote);
            LevelOk(Known(self, bound, s.cast + [v]), v)
  {
    var v := Voted(auds, s.vote, vote);
    var x, y := Known(self, bound, s.cast), Known(self, bound, s.cast + [v]);
    assert SameVote(y.own[|s.cast|], v);
    if s.vote.rank >= 0 {
      assert BelowAt(s.cast, s.level, |s.cast| - 1);
      assert SameVote(y.own[|s.cast| - 1], v.previous.value);
      assert Own(y, v.previous.value);
    }
    assert Own(y, v);
    forall j | 0 <= j < |v.justification|
      ensures PrevOk(y, v.justification[j])
    {
      PrevGrows(x, y, v.justification[j]);
    }
  }

  // ---------------------------------------------------------------- what backs a vote

  /** Votes of different leaders for one volunteer. */
  ghost predicate VotesFrom(votes: seq<Vote>, vol: Id) {
    && (forall i :: 0 <= i < |votes| ==> votes[i].vol == vol)
    && (forall i, j :: 0 <= i < j < |votes| ==> votes[i].signer != votes[j].signer)
  }

  /** The collected votes, with those of the leader itself for the volunteers in `voted`. */
  ghost predicate AllVotesOk(self: Id, voted: set<Id>, volunteerVotes: map<Id, seq<Vote>>) {
    && (forall v :: v in volunteerVotes ==> VotesFrom(volunteerVotes[v], v))
    && (forall v :: v in voted ==> v in volunteerVotes && HasSigner(volunteerVotes[v], self))
  }

  function VotesFor(volunteerVotes: map<Id, seq<Vote>>, vol: Id): seq<Vote> {
    if vol in volunteerVotes then volunteerVotes[vol] else []
  }

  /** The collected votes with one more, unless its leader already voted for the volunteer. */
  function WithVote(volunteerVotes: map<Id, seq<Vote>>, vote: Vote): map<Id, seq<Vote>> {
    var known := VotesFor(volunteerVotes, vote.vol);
    volunteerVotes[vote.vol := if HasSigner(known, vote.signer) then known else known + [vote]]
  }

  /** More votes, one after the other; those that a ranked vote and the votes before it carry, the oldest
      first; and those of a whole message with what justifies it. */
  function WithVotes(volunteerVotes: map<Id, seq<Vote>>, votes: seq<Vote>): map<Id, seq<Vote>> {
    if votes == [] then volunteerVotes
    else WithVote(WithVotes(volunteerVotes, votes[..|votes| - 1]), votes[|votes| - 1])
  }

  function WithCarried(volunteerVotes: map<Id, seq<Vote>>, msg: LeaderLevel): map<Id, seq<Vote>>
    decreases msg, 1
  {
    WithVotes(WithEarlier(volunteerVotes, msg), msg.votes)
  }

  function WithEarlier(volunteerVotes: map<Id, seq<Vote>>, msg: LeaderLevel): map<Id, seq<Vote>>
    decreases msg, 0
  {
    if msg.previous.Some? then WithCarried(volunteerVotes, msg.previous.value) else volunteerVotes
  }

  function WithAllCarried(volunteerVotes: map<Id, seq<Vote>>, msgs: seq<LeaderLevel>): map<Id, seq<Vote>> {
    if msgs == [] then volunteerVotes
    else WithCarried(WithAllCarried(volunteerVotes, msgs[..|msgs| - 1]), msgs[|msgs| - 1])
  }

  function WithMessage(volunteerVotes: map<Id, seq<Vote>>, msg: LeaderLevel): map<Id, seq<Vote>> {
    WithAllCarried(WithCarried(volunteerVotes, msg), msg.justification)
  }

  /** A vote is known afterwards if and only if it was before or is the one added. */
  lemma WithVoteKnows(volunteerVotes: map<Id, seq<Vote>>, vote: Vote, vol: Id, signer: Id)
    ensures HasSigner(VotesFor(WithVote(volunteerVotes, vote), vol), signer) <==>
              HasSigner(VotesFor(volunteerVotes, vol), signer) || (vol == vote.vol && signer == vote.signer)
  {
    var known := VotesFor(volunteerVotes, vote.vol);
    HasSignerAfter(known, vote, signer);
  }

  lemma {:induction false} WithVotesKnows(volunteerVotes: map<Id, seq<Vote>>, votes: seq<Vote>, vol: Id, signer: Id)
    ensures HasSigner(VotesFor(WithVotes(volunteerVotes, votes), vol), signer) <==>
              HasSigner(VotesFor(volunteerVotes, vol), signer) || Vote(vol, signer) in votes
    decreases |votes|
  {
    if votes != [] {
      var before, last := votes[..|votes| - 1], votes[|votes| - 1];
      WithVotesKnows(volunteerVotes, before, vol, signer);
      WithVoteKnows(WithVotes(volunteerVotes, before), last, vol, signer);
      assert votes == before + [last];
    }
  }

  /** A vote for a volunteer is carried by a ranked vote or one of those before it. */
  predicate Carries(msg: LeaderLevel, vote: Vote)
    decreases msg
  {
    vote in msg.votes || (msg.previous.Some? && Carries(msg.previous.value, vote))
  }

  lemma {:induction false} CarriedIsKnown(volunteerVotes: map<Id, seq<Vote>>, msg: LeaderLevel, vol: Id, signer: Id)
    ensures HasSigner(VotesFor(WithCarried(volunteerVotes, msg), vol), signer) <==>
              HasSigner(VotesFor(volunteerVotes, vol), signer) || Carries(msg, Vote(vol, signer))
    decreases msg
  {
    WithVotesKnows(WithEarlier(volunteerVotes, msg), msg.votes, vol, signer);
    if msg.previous.Some? {
      CarriedIsKnown(volunteerVotes, msg.previous.value, vol, signer);
    }
  }

  lemma {:induction false} AllCarriedIsKnown(volunteerVotes: map<Id, seq<Vote>>, msgs: seq<LeaderLevel>, vol: Id, signer: Id)
    ensures HasSigner(VotesFor(WithAllCarried(volunteerVotes, msgs), vol), signer) <==>
              || HasSigner(VotesFor(volunteerVotes, vol), signer)
              || exists j :: 0 <= j < |msgs| && Carries(msgs[j], Vote(vol, signer))
    decreases |msgs|
  {
    if msgs != [] {
      var before, last := msgs[..|msgs| - 1], msgs[|msgs| - 1];
      AllCarriedIsKnown(volunteerVotes, before, vol, signer);
      CarriedIsKnown(WithAllCarried(volunteerVotes, before), last, vol, signer);
      assert forall j :: 0 <= j < |before| ==> before[j] == msgs[j];
    }
  }

  /** After a message a leader knows the votes it knew and all that the message brings anywhere. */
  lemma MessageIsKnown(volunteerVotes: map<Id, seq<Vote>>, msg: LeaderLevel, vol: Id, signer: Id)
    ensures HasSigner(VotesFor(WithMessage(volunteerVotes, msg), vol), signer) <==>
              || HasSigner(VotesFor(volunteerVotes, vol), signer)
              || Carries(msg, Vote(vol, signer))
              || exists j :: 0 <= j < |msg.justification| && Carries(msg.justification[j], Vote(vol, signer))
  {
    CarriedIsKnown(volunteerVotes, msg, vol, signer);
    AllCarriedIsKnown(WithCarried(volunteerVotes, msg), msg.justification, vol, signer);
  }

  lemma WithVoteOk(self: Id, voted: set<Id>, volunteerVotes: map<Id, seq<Vote>>, vote: Vote)
    requires AllVotesOk(self, voted, volunteerVotes)
    ensures AllVotesOk(self, voted, WithVote(volunteerVotes, vote))
    ensures vote.signer == self ==> AllVotesOk(self, voted + {vote.vol}, WithVote(volunteerVotes, vote))
  {
    var known := VotesFor(volunteerVotes, vote.vol);
    var after := WithVote(volunteerVotes, vote)[vote.vol];
    assert VotesFrom(after, vote.vol);
    HasSignerAfter(known, vote, self);
  }

  lemma WithVoteTwice(volunteerVotes: map<Id, seq<Vote>>, vote: Vote)
    ensures WithVote(WithVote(volunteerVotes, vote), vote) == WithVote(volunteerVotes, vote)
  {
    HasSignerAfter(VotesFor(volunteerVotes, vote.vol), vote, vote.signer);
  }

  lemma HasSignerAfter(known: seq<Vote>, vote: Vote, signer: Id)
    ensures HasSigner(known + [vote], signer) <==> HasSigner(known, signer) || vote.signer == signer
  {
    if HasSigner(known, signer) {
      var i :| 0 <= i < |known| && known[i].signer == signer;
      assert (known + [vote])[i].signer == signer;
    }
    assert (known + [vote])[|known|] == vote;
  }

  ghost function Signers(lls: seq<LeaderLevel>): set<Id> {
    set i | 0 <= i < |lls| :: lls[i].signer
  }

  /** A majority of leaders stands behind the vote: their votes for the volunteer behind a vote of rank
      0, their ranked votes for it at this rank or above behind a higher one. */
  ghost predicate Backed(majority: nat, v: LeaderLevel) {
    if v.rank == 0 then |v.votes| >= majority && VotesFrom(v.votes, v.vol)
    else
      && |Signers(v.justification)| >= majority
      && forall i :: 0 <= i < |v.justification| ==>
           v.justification[i].vol == v.vol && v.rank <= v.justification[i].level <= v.level
  }

  ghost predicate BackedAt(majority: nat, cast: seq<LeaderLevel>, i: nat)
    requires i < |cast|
  {
    Backed(majority, cast[i])
  }

  ghost predicate AllBacked(majority: nat, cast: seq<LeaderLevel>) {
    forall i: nat :: i < |cast| ==> BackedAt(majority, cast, i)
  }

  lemma BackedNext(majority: nat, cast: seq<LeaderLevel>, best: LeaderLevel, vote: LeaderLevel)
    requires AllBacked(majority, cast) && Backed(majority, best)
    requires vote.rank == best.rank && vote.vol == best.vol && best.level <= vote.level
    requires vote.votes == best.votes && vote.justification == best.justification
    ensures AllBacked(majority, cast + [vote])
  {
    assert Backed(majority, vote);
    var more := cast + [vote];
    forall i: nat | i < |more| ensures BackedAt(majority, more, i) {
      if i < |cast| {
        assert BackedAt(majority, cast, i);
      }
    }
  }

  /** What a leader sends is the last vote it cast, marked if it committed with it. */
  ghost predicate Sent(before: seq<LeaderLevel>, cast: seq<LeaderLevel>, committed: bool, vote: LeaderLevel) {
    && before <= cast && |before| < |cast|
    && vote == cast[|cast| - 1].(committed := committed)
  }

  /** The last vote cast, marked if it committed the leader. */
  ghost function LastSent(s: Standing): LeaderLevel {
    s.vote.(committed := s.committed)
  }

  /** Following another leader's commit. */
  ghost function Followed(self: Id, auds: seq<Id>, s: Standing, msg: LeaderLevel): Standing {
    Updated(auds, s, LeaderLevel(self, msg.vol, msg.rank, s.level, 0, None, [], [], false), s.level + 1)
      .(tally := 4, committed := true, skipped := true)
  }

  /** The level a ranked vote gets: the next one of the leader or, if higher, that of the votes behind it. */
  function Leveled(best: LeaderLevel, level: int): LeaderLevel {
    if level >= best.level then best.(level := level) else best
  }

  /** Casting a ranked vote. */
  ghost function Ranked(auds: seq<Id>, s: Standing, best: LeaderLevel): Standing {
    var vote := Leveled(best, s.level);
    var t := Updated(auds, s, vote, vote.level + 1);
    t.(committed := t.tally > 3)
  }

  ghost predicate InOrder(self: Id, auds: seq<Id>, majority: nat, s: Standing) {
    StandingOk(self, auds, s) && AllBacked(majority, s.OwnCast())
  }

  /** The last vote that was cast is well formed as a message. */
  ghost predicate SentOk(x: Known, s: Standing) {
    s.cast != [] ==> LevelOk(x, LastSent(s))
  }

  lemma LevelGrows(x: Known, y: Known, ll: LeaderLevel)
    requires LevelOk(x, ll) && Grows(x, y)
    ensures LevelOk(y, ll)
  {
    PrevGrows(x, y, ll);
    forall j | 0 <= j < |ll.justification|
      ensures PrevOk(y, ll.justification[j])
    {
      PrevGrows(x, y, ll.justification[j]);
    }
  }

  /** A leader's next vote: in order, on top of the votes before, and well formed as a message. */
  ghost predicate Casts(self: Id, bound: int, auds: seq<Id>, majority: nat, s: Standing, t: Standing) {
    && InOrder(self, auds, majority, t)
    && s.cast <= t.cast && |s.cast| < |t.cast|
    && LevelOk(Known(self, bound, t.cast), LastSent(t))
    && Sent(s.cast, t.cast, t.committed, LastSent(t))
    && (!t.skipped ==> Less(s.vote, t.vote))
  }

  lemma FollowedCasts(self: Id, bound: int, auds: seq<Id>, majority: nat, s: Standing, msg: LeaderLevel)
    requires InOrder(self, auds, majority, s) && !s.committed && 0 <= msg.rank
    ensures Casts(self, bound, auds, majority, s, Followed(self, auds, s, msg))
  {
    var vote := LeaderLevel(self, msg.vol, msg.rank, s.level, 0, None, [], [], false);
    FollowKeepsOrder(self, auds, s, vote);
    VotedOk(self, bound, auds, s, vote);
  }

  lemma RankedCasts(self: Id, bound: int, auds: seq<Id>, majority: nat, s: Standing, best: LeaderLevel)
    requires InOrder(self, auds, majority, s) && !s.committed && !best.committed
    requires best.signer == self && 0 < best.rank && 0 < best.level && best.previous == None && Backed(majority, best)
    requires JustOk(Known(self, bound, s.cast), best)
    requires best.priority == Priority(auds, best.vol) && Less(s.vote, best)
    ensures Casts(self, bound, auds, majority, s, Ranked(auds, s, best))
  {
    var vote := Leveled(best, s.level);
    BetterKeepsOrder(self, auds, s, vote);
    VotedOk(self, bound, auds, s, vote);
    BackedNext(majority, s.cast, best, Voted(auds, s.vote, vote));
  }

  /** Casting a vote of rank 0, if there is one. */
  ghost function Rank0Cast(self: Id, auds: seq<Id>, majority: nat, votes: map<Id, seq<Vote>>, s: Standing): Standing {
    var r := Rank0(self, auds, majority, votes, s.vote, s.level);
    if r.Some? then Updated(auds, s, r.value, s.level + 1) else s
  }

  lemma Rank0Casts(self: Id, bound: int, auds: seq<Id>, majority: nat, s: Standing, voted: set<Id>,
                   votes: map<Id, seq<Vote>>)
    requires InOrder(self, auds, majority, s) && !s.committed && AllVotesOk(self, voted, votes)
    requires Rank0(self, auds, majority, votes, s.vote, s.level).Some?
    ensures Casts(self, bound, auds, majority, s, Rank0Cast(self, auds, majority, votes, s))
  {
    var vote := Rank0(self, auds, majority, votes, s.vote, s.level).value;
    Rank0Backed(self, voted, auds, majority, votes, s.vote, s.level);
    BetterKeepsOrder(self, auds, s, vote);
    VotedOk(self, bound, auds, s, vote);
    BackedNext(majority, s.cast, vote, Voted(auds, s.vote, vote));
  }

  /** What one message does to a leader: nothing at all, or a vote for a volunteer, or one or more ranked
      votes of which the last is sent; once committed, nothing. */
  ghost predicate Acts(self: Id, bound: int, s: Standing, t: Standing, resp: Option<Message>) {
    && s.cast <= t.cast
    && (s.committed ==> resp.None?)
    && (resp.None? || !resp.value.Level? ==> t == s)
    && (resp.Some? ==> !resp.value.Volunteer?)
    && (resp.Some? && resp.value.Level? ==>
          && LevelOk(Known(self, bound, t.cast), resp.value.ll)
          && Sent(s.cast, t.cast, t.committed, resp.value.ll))
  }

  // ---------------------------------------------------------------- the election as a relation

  /** A leader: the votes it has filed and collected, and where it stands. */
  datatype Leader = Leader(controls: map<Id, Control>, votes: map<Id, seq<Vote>>, standing: Standing)

  /** The controls after asking: one with a majority has lost its votes of the lowest level. */
  ghost predicate UsedUp(majority: nat, votes: Control, after: Control) {
    if |votes| < majority then after == votes
    else exists rank :: IsLowestLevel(votes, rank) && after == map k | k in votes && votes[k].level > rank :: votes[k]
  }

  ghost predicate IsLowestLevel(votes: Control, rank: int) {
    (exists k :: k in votes && votes[k].level == rank) && forall k :: k in votes ==> rank <= votes[k].level
  }

  ghost predicate AskedAt(majority: nat, was: map<Id, Control>, now: map<Id, Control>, todo: set<Id>, v: Id)
    requires v in was && v in now
  {
    if v in todo then now[v] == was[v] else UsedUp(majority, was[v], now[v])
  }

  /** The controls after asking all but some of them. */
  ghost predicate AskedBut(majority: nat, was: map<Id, Control>, now: map<Id, Control>, todo: set<Id>) {
    todo <= was.Keys && now.Keys == was.Keys && forall v :: v in was ==> AskedAt(majority, was, now, todo, v)
  }

  /** The standing after the vote a leader casts next, if it casts one: the best its controls allow, if it beats
      the current vote; if they allow none, one of rank 0. */
  ghost function NextCast(self: Id, auds: seq<Id>, majority: nat, a: Leader, best: Option<LeaderLevel>): Option<Standing> {
    var s := a.standing;
    if best.None? then
      if Rank0(self, auds, majority, a.votes, s.vote, s.level).Some?
      then Some(Rank0Cast(self, auds, majority, a.votes, s)) else None
    else if Less(s.vote, best.value) then Some(Ranked(auds, s, best.value)) else None
  }

  /** Choosing: the leader answers with the last of `n` votes, each cast on the controls after filing the one
      before, until none is better or it commits; with nothing if `n` is zero. */
  ghost predicate Chose(self: Id, bound: int, auds: seq<Id>, majority: nat, a: Leader, b: Leader,
                        resp: Option<LeaderLevel>, n: nat)
    decreases n, 2
  {
    exists best, asked :: ChoseFrom(self, bound, auds, majority, a, best, asked, b, resp, n)
  }

  ghost predicate ChoseFrom(self: Id, bound: int, auds: seq<Id>, majority: nat, a: Leader, best: Option<LeaderLevel>,
                            asked: map<Id, Control>, b: Leader, resp: Option<LeaderLevel>, n: nat)
    decreases n, 1
  {
    && ChoseBest(Known(self, bound, a.standing.cast), majority, auds, a.controls, best, asked)
    && ChoseOn(self, bound, auds, majority, a, best, asked, b, resp, n)
  }

  /** The best vote of all controls, and the controls after asking them. */
  ghost predicate ChoseBest(x: Known, majority: nat, auds: seq<Id>, was: map<Id, Control>, best: Option<LeaderLevel>,
                            asked: map<Id, Control>) {
    BestOf(x, majority, auds, was, was.Keys, best) && AskedBut(majority, was, asked, {})
  }

  ghost predicate ChoseOn(self: Id, bound: int, auds: seq<Id>, majority: nat, a: Leader, best: Option<LeaderLevel>,
                          asked: map<Id, Control>, b: Leader, resp: Option<LeaderLevel>, n: nat)
    decreases n, 0
  {
    var next := NextCast(self, auds, majority, a, best);
    if next.None? then n == 0 && resp.None? && b == a.(controls := asked)
    else
      && n > 0 && resp.Some?
      && WentOn(self, bound, auds, majority, Leader(asked, a.votes, next.value), true, b, resp.value, n - 1)
  }

  ghost predicate FiledOwn(majority: nat, a: Leader, file: bool, c: Leader) {
    var vote := LastSent(a.standing);
    if file then
      Filed(majority, a.controls, vote, c.controls) && c == Leader(c.controls, WithCarried(a.votes, vote), a.standing)
    else c == a
  }

  ghost predicate FiledWhole(majority: nat, a: Leader, msg: LeaderLevel, c: Leader) {
    && FiledMessage(majority, a.controls, msg, c.controls)
    && c == Leader(c.controls, WithMessage(a.votes, msg), a.standing)
  }

  /** Going on from a vote just cast: it is filed, and answered like any other vote. */
  ghost predicate WentOn(self: Id, bound: int, auds: seq<Id>, majority: nat, a: Leader, file: bool, b: Leader,
                         resp: LeaderLevel, n: nat)
    decreases n, 9
  {
    exists c, better :: WentOnFrom(self, bound, auds, majority, a, file, c, better, b, resp, n)
  }

  ghost predicate WentOnFrom(self: Id, bound: int, auds: seq<Id>, majority: nat, a: Leader, file: bool, c: Leader,
                             better: Option<Message>, b: Leader, resp: LeaderLevel, n: nat)
    decreases n, 8
  {
    var vote := LastSent(a.standing);
    && FiledOwn(majority, a, file, c)
    && Answers(self, bound, auds, majority, c, Level(vote), b, better, n)
    && Some(Level(resp)) == if better.Some? then better else Some(Level(vote))
  }

  /** Executing a ranked vote: what it brings is filed, then the leader follows its commit or chooses. */
  ghost predicate Executed(self: Id, bound: int, auds: seq<Id>, majority: nat, a: Leader, msg: LeaderLevel, b: Leader,
                           resp: Option<LeaderLevel>, n: nat)
    decreases n, 5
  {
    exists d :: ExecutedFrom(self, bound, auds, majority, a, msg, d, b, resp, n)
  }

  ghost predicate ExecutedFrom(self: Id, bound: int, auds: seq<Id>, majority: nat, a: Leader, msg: LeaderLevel, d: Leader,
                               b: Leader, resp: Option<LeaderLevel>, n: nat)
    decreases n, 4
  {
    FiledWhole(majority, a, msg, d) && ExecutedOn(self, bound, auds, majority, d, msg, b, resp, n)
  }

  ghost predicate ExecutedOn(self: Id, bound: int, auds: seq<Id>, majority: nat, d: Leader, msg: LeaderLevel, b: Leader,
                             resp: Option<LeaderLevel>, n: nat)
    decreases n, 3
  {
    if msg.committed then
      && n == 1 && b == d.(standing := Followed(self, auds, d.standing, msg)) && resp == Some(LastSent(b.standing))
    else Chose(self, bound, auds, majority, d, b, resp, n)
  }

  /** Trying a vote of rank 0. */
  ghost predicate TriedRank0(self: Id, bound: int, auds: seq<Id>, majority: nat, a: Leader, file: bool, b: Leader,
                             resp: Option<LeaderLevel>, n: nat)
    decreases n, 5
  {
    var s := a.standing;
    if Rank0(self, auds, majority, a.votes, s.vote, s.level).Some? then
      && n > 0 && resp.Some?
      && WentOn(self, bound, auds, majority, a.(standing := Rank0Cast(self, auds, majority, a.votes, s)), file, b,
                resp.value, n - 1)
    else n == 0 && resp.None? && b == a
  }

  function AsLevel(resp: Option<Message>): Option<LeaderLevel> {
    if resp.Some? && resp.value.Level? then Some(resp.value.ll) else None
  }

  function AsMessage(resp: Option<LeaderLevel>): Option<Message> {
    if resp.Some? then Some(Level(resp.value)) else None
  }

  /** How a leader answers a message, exactly, up to the order in which equal votes happen to be visited: `n`
      is the number of votes it casts on the way. A leader that has committed answers nothing. */
  ghost predicate Answers(self: Id, bound: int, auds: seq<Id>, majority: nat, a: Leader, m: Message, b: Leader,
                          resp: Option<Message>, n: nat)
    decreases n, 7
  {
    if a.standing.committed then n == 0 && resp.None? && b == a
    else
      match m
      case Level(ll) => AnsweredLevel(self, bound, auds, majority, a, ll, b, resp, n)
      case VoteFor(vote) => AnsweredVote(self, bound, auds, majority, a, vote, b, resp, n)
      case Volunteer(vol) => AnsweredVolunteer(self, bound, auds, majority, a, vol, b, resp, n)
  }

  ghost predicate AnsweredLevel(self: Id, bound: int, auds: seq<Id>, majority: nat, a: Leader, ll: LeaderLevel, b: Leader,
                                resp: Option<Message>, n: nat)
    decreases n, 6
  {
    exists r :: Executed(self, bound, auds, majority, a, ll, b, r, n) && resp == AsMessage(r)
  }

  ghost predicate AnsweredVote(self: Id, bound: int, auds: seq<Id>, majority: nat, a: Leader, vote: Vote, b: Leader,
                               resp: Option<Message>, n: nat)
    decreases n, 6
  {
    exists r :: TriedRank0(self, bound, auds, majority, a.(votes := WithVote(a.votes, vote)), false, b, r, n)
        && resp == AsMessage(r)
  }

  /** A volunteer is answered with a vote for it, but only once, or with what that vote leads to. */
  ghost predicate AnsweredVolunteer(self: Id, bound: int, auds: seq<Id>, majority: nat, a: Leader, vol: Id, b: Leader,
                                    resp: Option<Message>, n: nat)
    decreases n, 6
  {
    var vote := Vote(vol, self);
    var voted := a.(votes := WithVote(a.votes, vote));
    if HasSigner(VotesFor(a.votes, vol), self) then n == 0 && resp.None? && b == voted
    else
      exists r :: TriedRank0(self, bound, auds, majority, voted, false, b, r, n)
               && resp == if r.Some? then AsMessage(r) else Some(VoteFor(vote))
  }

  /** Whether a message counts as news: if it is answered, if it is a vote not seen before, or, for a ranked
      vote, if filing it changes something. */
  ghost predicate IsNews(a: Leader, m: Message, resp: Option<Message>, change: bool) {
    && (resp.Some? ==> change)
    && (a.standing.committed || m.Volunteer? ==> (change <==> resp.Some?))
    && (m.VoteFor? && !a.standing.committed ==>
          (change <==> resp.Some? || !HasSigner(VotesFor(a.votes, m.vote.vol), m.vote.signer)))
  }

  lemma WentOnHolds(self: Id, bound: int, auds: seq<Id>, majority: nat, a: Leader, file: bool, c: Leader, b: Leader,
                    better: Option<Message>, vote: LeaderLevel, resp: LeaderLevel, n: nat)
    requires FiledOwn(majority, a, file, c) && vote == LastSent(a.standing)
    requires Answers(self, bound, auds, majority, c, Level(vote), b, better, n)
    requires Level(resp) == if better.Some? then better.value else Level(vote)
    ensures WentOn(self, bound, auds, majority, a, file, b, resp, n)
  {
    assert WentOnFrom(self, bound, auds, majority, a, file, c, better, b, resp, n);
  }

  lemma ChoseHolds(self: Id, bound: int, auds: seq<Id>, majority: nat, a: Leader, best: Option<LeaderLevel>,
                   asked: map<Id, Control>, b: Leader, resp: Option<LeaderLevel>, n: nat)
    requires ChoseBest(Known(self, bound, a.standing.cast), majority, auds, a.controls, best, asked)
    requires ChoseOn(self, bound, auds, majority, a, best, asked, b, resp, n)
    ensures Chose(self, bound, auds, majority, a, b, resp, n)
  {
    assert ChoseFrom(self, bound, auds, majority, a, best, asked, b, resp, n);
  }

  lemma ExecutedHolds(self: Id, bound: int, auds: seq<Id>, majority: nat, a: Leader, msg: LeaderLevel, d: Leader, b: Leader,
                      resp: Option<LeaderLevel>, n: nat)
    requires FiledWhole(majority, a, msg, d) && ExecutedOn(self, bound, auds, majority, d, msg, b, resp, n)
    ensures Executed(self, bound, auds, majority, a, msg, b, resp, n)
  {
    assert ExecutedFrom(self, bound, auds, majority, a, msg, d, b, resp, n);
  }

  lemma AnswersLevel(self: Id, bound: int, auds: seq<Id>, majority: nat, a: Leader, ll: LeaderLevel, b: Leader,
                     resp: Option<Message>, n: nat)
    requires !a.standing.committed && Executed(self, bound, auds, majority, a, ll, b, AsLevel(resp), n)
    requires resp.Some? ==> resp.value.Level?
    ensures Answers(self, bound, auds, majority, a, Level(ll), b, resp, n)
  {
    assert resp == AsMessage(AsLevel(resp));
    assert AnsweredLevel(self, bound, auds, majority, a, ll, b, resp, n);
  }

  lemma AnswersVote(self: Id, bound: int, auds: seq<Id>, majority: nat, a: Leader, vote: Vote, voted: Leader,
                    b: Leader, resp: Option<Message>, n: nat)
    requires !a.standing.committed && (resp.Some? ==> resp.value.Level?) && voted == a.(votes := WithVote(a.votes, vote))
    requires TriedRank0(self, bound, auds, majority, voted, false, b, AsLevel(resp), n)
    ensures Answers(self, bound, auds, majority, a, VoteFor(vote), b, resp, n)
  {
    assert resp == AsMessage(AsLevel(resp));
    assert AnsweredVote(self, bound, auds, majority, a, vote, b, resp, n);
  }

  lemma AnswersVolunteer(self: Id, bound: int, auds: seq<Id>, majority: nat, a: Leader, vote: Vote, voted: Leader, b: Leader,
                         resp: Option<Message>, n: nat)
    requires !a.standing.committed && vote.signer == self && !HasSigner(VotesFor(a.votes, vote.vol), self)
    requires voted == a.(votes := WithVote(a.votes, vote))
        && Answers(self, bound, auds, majority, voted, VoteFor(vote), b, resp, n)
    ensures Answers(self, bound, auds, majority, a, Volunteer(vote.vol), b, if resp.Some? then resp else Some(VoteFor(vote)), n)
  {
    WithVoteTwice(a.votes, vote);
    assert voted.(votes := WithVote(voted.votes, vote)) == voted;
    assert AnsweredVote(self, bound, auds, majority, voted, vote, b, resp, n);
    var r :| TriedRank0(self, bound, auds, majority, voted, false, b, r, n) && resp == AsMessage(r);
    assert AnsweredVolunteer(self, bound, auds, majority, a, vote.vol, b, if resp.Some? then resp else Some(VoteFor(vote)), n);
  }

  /** The best vote on the controls can be cast if it is better; the controls after asking are clear where
      the leader is alone. */
  ghost predicate Castable(x: Known, majority: nat, auds: seq<Id>, current: LeaderLevel, asked: map<Id, Control>,
                           best: Option<LeaderLevel>) {
    && (majority == 1 ==> NoVotes(asked))
    && (best.None? ==> current.rank <= x.bound)
    && (best.Some? ==> IsReady(x, majority, auds, current, best.value))
  }

  ghost predicate IsReady(x: Known, majority: nat, auds: seq<Id>, current: LeaderLevel, best: LeaderLevel) {
    && !best.committed && best.previous == None && best.signer == x.self
    && 0 < best.rank <= best.level && JustOk(x, best) && RankOk(x, majority, best)
    && best.priority == Priority(auds, best.vol) && Backed(majority, best)
    && (current.rank > x.bound ==> OnTopOf(current, best))
  }

  lemma BestIsCastable(x: Known, majority: nat, auds: seq<Id>, a: Leader, asked: map<Id, Control>, best: Option<LeaderLevel>)
    requires majority >= 1 && AllControlsOk(x, majority, a.controls) && AskedBut(majority, a.controls, asked, {})
    requires BestOf(x, majority, auds, a.controls, a.controls.Keys, best)
    requires a.standing.vote.rank > x.bound ==> majority == 1 && Focused(x.self, a.controls, LastSent(a.standing))
    ensures Castable(x, majority, auds, a.standing.vote, asked, best)
  {
    if majority == 1 {
      AskingEmpties(x, a.controls, asked);
    }
    if a.standing.vote.rank > x.bound {
      FocusedBest(x, auds, a.controls, LastSent(a.standing), best);
    }
    if best.Some? {
      BestBacked(x, majority, auds, a.controls, best);
    }
  }

  /** Votes of rank 0 in terms of the votes alone: the first audit server of the list with a majority of
      votes gets it, if there is no ranked vote and it beats the current one. */
  lemma Rank0Exactly(self: Id, auds: seq<Id>, majority: nat, votes: map<Id, seq<Vote>>, current: LeaderLevel, level: int)
    requires majority > 0
    ensures var r := Rank0(self, auds, majority, votes, current, level);
            r.Some? <==> current.rank <= 0 && exists i :: IsFirstElected(auds, majority, votes, i)
                                                       && (current.rank < 0 || current.priority < Priority(auds, auds[i]))
    ensures var r := Rank0(self, auds, majority, votes, current, level);
            r.Some? ==> exists i :: IsFirstElected(auds, majority, votes, i)
                                 && r.value == LeaderLevel(self, auds[i], 0, level, Priority(auds, auds[i]), None,
                                                           VotesFor(votes, auds[i]), [], false)
  {
    FirstElectedIsFirst(auds, majority, votes);
    forall i, j | IsFirstElected(auds, majority, votes, i) && IsFirstElected(auds, majority, votes, j)
      ensures i == j
    {
    }
  }

  /** Nobody before place `i` of the list has a majority of votes, and the server there has. */
  ghost predicate IsFirstElected(auds: seq<Id>, majority: nat, votes: map<Id, seq<Vote>>, i: int) {
    && 0 <= i < |auds| && |VotesFor(votes, auds[i])| >= majority
    && forall k :: 0 <= k < i ==> |VotesFor(votes, auds[k])| < majority
  }

  lemma {:induction false} FirstElectedIsFirst(auds: seq<Id>, majority: nat, votes: map<Id, seq<Vote>>)
    requires majority > 0
    ensures var r := FirstElected(auds, majority, votes);
            if r.Some? then exists i :: IsFirstElected(auds, majority, votes, i) && auds[i] == r.value
            else forall i :: !IsFirstElected(auds, majority, votes, i)
    decreases |auds|
  {
    if auds != [] {
      if |VotesFor(votes, auds[0])| >= majority {
        assert IsFirstElected(auds, majority, votes, 0);
      } else {
        var rest := auds[1..];
        FirstElectedIsFirst(rest, majority, votes);
        forall i | 0 <= i < |rest|
          ensures IsFirstElected(rest, majority, votes, i) <==> IsFirstElected(auds, majority, votes, i + 1)
        {
          ElectedInRest(auds, majority, votes, i);
        }
        if r :| IsFirstElected(rest, majority, votes, r) {
          assert IsFirstElected(auds, majority, votes, r + 1);
        }
        forall i | IsFirstElected(auds, majority, votes, i)
          ensures IsFirstElected(rest, majority, votes, i - 1)
        {
          ElectedInRest(auds, majority, votes, i - 1);
        }
      }
    }
  }

  lemma ElectedInRest(auds: seq<Id>, majority: nat, votes: map<Id, seq<Vote>>, i: nat)
    requires i + 1 < |auds| && |VotesFor(votes, auds[0])| < majority
    ensures IsFirstElected(auds[1..], majority, votes, i) <==> IsFirstElected(auds, majority, votes, i + 1)
  {
    var rest := auds[1..];
    assert forall k :: 0 <= k < |rest| ==> rest[k] == auds[k + 1];
    if IsFirstElected(auds, majority, votes, i + 1) {
      forall k | 0 <= k < i ensures |VotesFor(votes, rest[k])| < majority {
        assert |VotesFor(votes, auds[k + 1])| < majority;
      }
    }
    if IsFirstElected(rest, majority, votes, i) {
      forall k | 0 <= k < i + 1 ensures |VotesFor(votes, auds[k])| < majority {
        if k > 0 {
          assert |VotesFor(votes, rest[k - 1])| < majority;
        }
      }
    }
  }

  lemma FollowedOk(self: Id, bound: int, auds: seq<Id>, majority: nat, s: Standing, msg: LeaderLevel)
    requires InOrder(self, auds, majority, s) && !s.committed && 0 <= msg.rank
    ensures var t := Followed(self, auds, s, msg);
            && InOrder(self, auds, majority, t) && SentOk(Known(self, bound, t.cast), t)
            && t.committed && t.vote.vol == msg.vol && t.vote.rank == msg.rank && t.vote.signer == self
  {
    FollowedCasts(self, bound, auds, majority, s, msg);
  }

  /** From one standing to another by `n` votes, the last of which is sent. */
  ghost predicate Advanced(s: Standing, t: Standing, n: nat) {
    s.cast <= t.cast && |t.cast| == |s.cast| + n && (t.cast != [] ==> t.vote == t.cast[|t.cast| - 1])
  }

  ghost predicate Sends(s: Standing, t: Standing, resp: Option<LeaderLevel>, n: nat) {
    && Advanced(s, t, n) && (n == 0 <==> resp.None?) && (n == 0 ==> t == s)
    && (resp.Some? ==> resp.value == LastSent(t))
  }

  ghost predicate Ends(s: Standing) {
    s.cast != [] ==> s.vote == s.cast[|s.cast| - 1]
  }

  /** What is sent is the last of the votes cast on the way. */
  lemma {:induction false} WentOnSends(self: Id, bound: int, auds: seq<Id>, majority: nat, a: Leader, file: bool,
                                       b: Leader, resp: LeaderLevel, n: nat)
    requires WentOn(self, bound, auds, majority, a, file, b, resp, n) && Ends(a.standing) && a.standing.cast != []
    ensures Advanced(a.standing, b.standing, n) && resp == LastSent(b.standing)
    decreases n, 9
  {
    var c, better :| WentOnFrom(self, bound, auds, majority, a, file, c, better, b, resp, n);
    assert c.standing == a.standing;
    AnswersSends(self, bound, auds, majority, c, Level(LastSent(a.standing)), b, better, n);
  }

  lemma {:induction false} AnswersSends(self: Id, bound: int, auds: seq<Id>, majority: nat, a: Leader, m: Message,
                                        b: Leader, resp: Option<Message>, n: nat)
    requires Answers(self, bound, auds, majority, a, m, b, resp, n) && Ends(a.standing)
    ensures Sends(a.standing, b.standing, AsLevel(resp), n)
    ensures resp.Some? ==> resp.value.Level? || (m.Volunteer? && resp.value == VoteFor(Vote(m.vol, self)))
    ensures a.standing.committed ==> resp.None?
    decreases n, 7
  {
    if !a.standing.committed {
      match m
      case Level(ll) =>
        assert AnsweredLevel(self, bound, auds, majority, a, ll, b, resp, n);
        var r :| Executed(self, bound, auds, majority, a, ll, b, r, n) && resp == AsMessage(r);
        ExecutedSends(self, bound, auds, majority, a, ll, b, r, n);
      case VoteFor(vote) =>
        assert AnsweredVote(self, bound, auds, majority, a, vote, b, resp, n);
        var voted := a.(votes := WithVote(a.votes, vote));
        var r :| TriedRank0(self, bound, auds, majority, voted, false, b, r, n) && resp == AsMessage(r);
        TriedSends(self, bound, auds, majority, voted, false, b, r, n);
      case Volunteer(vol) =>
        assert AnsweredVolunteer(self, bound, auds, majority, a, vol, b, resp, n);
        var vote := Vote(vol, self);
        var voted := a.(votes := WithVote(a.votes, vote));
        if !HasSigner(VotesFor(a.votes, vol), self) {
          var r :| TriedRank0(self, bound, auds, majority, voted, false, b, r, n)
              && resp == if r.Some? then AsMessage(r) else Some(VoteFor(vote));
          TriedSends(self, bound, auds, majority, voted, false, b, r, n);
        }
    }
  }

  lemma {:induction false} TriedSends(self: Id, bound: int, auds: seq<Id>, majority: nat, a: Leader, file: bool,
                                      b: Leader, resp: Option<LeaderLevel>, n: nat)
    requires TriedRank0(self, bound, auds, majority, a, file, b, resp, n) && Ends(a.standing)
    ensures Sends(a.standing, b.standing, resp, n)
    decreases n, 5
  {
    var s := a.standing;
    if Rank0(self, auds, majority, a.votes, s.vote, s.level).Some? {
      var t := Rank0Cast(self, auds, majority, a.votes, s);
      WentOnSends(self, bound, auds, majority, a.(standing := t), file, b, resp.value, n - 1);
    }
  }

  lemma {:induction false} ExecutedSends(self: Id, bound: int, auds: seq<Id>, majority: nat, a: Leader,
                                         msg: LeaderLevel, b: Leader, resp: Option<LeaderLevel>, n: nat)
    requires Executed(self, bound, auds, majority, a, msg, b, resp, n) && Ends(a.standing)
    ensures Sends(a.standing, b.standing, resp, n)
    decreases n, 5
  {
    var d :| ExecutedFrom(self, bound, auds, majority, a, msg, d, b, resp, n);
    assert ExecutedOn(self, bound, auds, majority, d, msg, b, resp, n);
    if !msg.committed {
      ChoseSends(self, bound, auds, majority, d, b, resp, n);
    }
  }

  lemma {:induction false} ChoseSends(self: Id, bound: int, auds: seq<Id>, majority: nat, a: Leader, b: Leader,
                                      resp: Option<LeaderLevel>, n: nat)
    requires Chose(self, bound, auds, majority, a, b, resp, n) && Ends(a.standing)
    ensures Sends(a.standing, b.standing, resp, n)
    decreases n, 2
  {
    var best, asked :| ChoseFrom(self, bound, auds, majority, a, best, asked, b, resp, n);
    ChoseOnSends(self, bound, auds, majority, a, best, asked, b, resp, n);
  }

  lemma {:induction false} ChoseOnSends(self: Id, bound: int, auds: seq<Id>, majority: nat, a: Leader,
                                        best: Option<LeaderLevel>,
                                        asked: map<Id, Control>, b: Leader, resp: Option<LeaderLevel>, n: nat)
    requires ChoseOn(self, bound, auds, majority, a, best, asked, b, resp, n) && Ends(a.standing)
    ensures Sends(a.standing, b.standing, resp, n)
    decreases n, 1
  {
    var next := NextCast(self, auds, majority, a, best);
    if next.Some? {
      NextAdvances(self, auds, majority, a, best);
      WentOnSends(self, bound, auds, majority, Leader(asked, a.votes, next.value), true, b, resp.value, n - 1);
    }
  }

  lemma NextAdvances(self: Id, auds: seq<Id>, majority: nat, a: Leader, best: Option<LeaderLevel>)
    ensures var next := NextCast(self, auds, majority, a, best);
            next.Some? ==> Advanced(a.standing, next.value, 1)
  {
  }

  lemma AnswersActs(self: Id, bound: int, auds: seq<Id>, majority: nat, a: Leader, m: Message, b: Leader,
                    resp: Option<Message>, n: nat)
    requires Answers(self, bound, auds, majority, a, m, b, resp, n) && Ends(a.standing)
        && SentOk(Known(self, bound, b.standing.cast), b.standing)
    ensures Acts(self, bound, a.standing, b.standing, resp) && n == |b.standing.cast| - |a.standing.cast|
    ensures resp.Some? ==> WellFormed(resp.value)
  {
    AnswersSends(self, bound, auds, majority, a, m, b, resp, n);
    if resp.Some? {
      OkIsWellFormed(Known(self, bound, b.standing.cast), resp.value);
    }
  }

  // ---------------------------------------------------------------- progress

  /** Nothing that the controls allow beats the current vote. */
  ghost predicate NothingBetter(auds: seq<Id>, majority: nat, controls: map<Id, Control>, current: LeaderLevel) {
    forall v :: v in controls && |controls[v]| >= majority ==> NotBeaten(auds, current, v, controls[v])
  }

  /** A leader that has looked at controls and found nothing to cast: no control allows a better vote and,
      if none allows any, the volunteers' votes do not either. */
  ghost predicate Settled(self: Id, auds: seq<Id>, majority: nat, was: map<Id, Control>, b: Leader) {
    && AskedBut(majority, was, b.controls, {})
    && NothingBetter(auds, majority, was, b.standing.vote)
    && ((forall v :: v in was ==> |was[v]| < majority) ==>
          Rank0(self, auds, majority, b.votes, b.standing.vote, b.standing.level).None?)
  }

  ghost predicate AtRest(self: Id, auds: seq<Id>, majority: nat, b: Leader) {
    b.standing.committed || exists was :: Settled(self, auds, majority, was, b)
  }

  lemma BestLeavesNothing(x: Known, auds: seq<Id>, majority: nat, controls: map<Id, Control>, best: LeaderLevel,
                          current: LeaderLevel)
    requires BestOf(x, majority, auds, controls, controls.Keys, Some(best)) && !Less(current, best)
    ensures NothingBetter(auds, majority, controls, current)
  {
    forall v | v in controls && |controls[v]| >= majority
      ensures NotBeaten(auds, current, v, controls[v])
    {
      assert NotBeaten(auds, best, v, controls[v]);
      var k :| k in controls[v] && !Worse(best, controls[v][k].level, Priority(auds, v));
    }
  }

  /** Where a leader casts nothing, nothing better can be cast. */
  lemma NoCastIsSettled(self: Id, bound: int, auds: seq<Id>, majority: nat, a: Leader, best: Option<LeaderLevel>,
                        asked: map<Id, Control>)
    requires BestOf(Known(self, bound, a.standing.cast), majority, auds, a.controls, a.controls.Keys, best)
    requires AskedBut(majority, a.controls, asked, {}) && NextCast(self, auds, majority, a, best).None?
    ensures Settled(self, auds, majority, a.controls, a.(controls := asked))
  {
    if best.Some? {
      BestLeavesNothing(Known(self, bound, a.standing.cast), auds, majority, a.controls, best.value, a.standing.vote);
      assert |a.controls[best.value.vol]| >= majority;
    }
  }

  lemma {:induction false} ChoseRests(self: Id, bound: int, auds: seq<Id>, majority: nat, a: Leader, b: Leader,
                                      resp: Option<LeaderLevel>, n: nat)
    requires Chose(self, bound, auds, majority, a, b, resp, n)
    ensures AtRest(self, auds, majority, b)
    ensures resp.None? ==> Settled(self, auds, majority, a.controls, b) && b.standing == a.standing && b.votes == a.votes
    decreases n, 2
  {
    var best, asked :| ChoseFrom(self, bound, auds, majority, a, best, asked, b, resp, n);
    ChoseOnRests(self, bound, auds, majority, a, best, asked, b, resp, n);
    if resp.None? {
      NoCastIsSettled(self, bound, auds, majority, a, best, asked);
    }
  }

  lemma {:induction false} ChoseOnRests(self: Id, bound: int, auds: seq<Id>, majority: nat, a: Leader,
                                        best: Option<LeaderLevel>, asked: map<Id, Control>, b: Leader,
                                        resp: Option<LeaderLevel>, n: nat)
    requires BestOf(Known(self, bound, a.standing.cast), majority, auds, a.controls, a.controls.Keys, best)
    requires AskedBut(majority, a.controls, asked, {})
    requires ChoseOn(self, bound, auds, majority, a, best, asked, b, resp, n)
    ensures AtRest(self, auds, majority, b)
    ensures resp.None? ==> NextCast(self, auds, majority, a, best).None? && b == a.(controls := asked)
    decreases n, 1
  {
    var next := NextCast(self, auds, majority, a, best);
    if next.Some? {
      WentOnRests(self, bound, auds, majority, Leader(asked, a.votes, next.value), true, b, resp.value, n - 1);
    } else {
      NoCastIsSettled(self, bound, auds, majority, a, best, asked);
    }
  }

  lemma {:induction false} WentOnRests(self: Id, bound: int, auds: seq<Id>, majority: nat, a: Leader, file: bool, b: Leader,
                                       resp: LeaderLevel, n: nat)
    requires WentOn(self, bound, auds, majority, a, file, b, resp, n)
    ensures AtRest(self, auds, majority, b)
    decreases n, 9
  {
    var c, better :| WentOnFrom(self, bound, auds, majority, a, file, c, better, b, resp, n);
    var vote := LastSent(a.standing);
    assert Answers(self, bound, auds, majority, c, Level(vote), b, better, n);
    if !c.standing.committed {
      assert AnsweredLevel(self, bound, auds, majority, c, vote, b, better, n);
      var r :| Executed(self, bound, auds, majority, c, vote, b, r, n) && better == AsMessage(r);
      ExecutedRests(self, bound, auds, majority, c, vote, b, r, n);
    }
  }

  lemma {:induction false} ExecutedRests(self: Id, bound: int, auds: seq<Id>, majority: nat, a: Leader, msg: LeaderLevel,
                                         b: Leader, resp: Option<LeaderLevel>, n: nat)
    requires Executed(self, bound, auds, majority, a, msg, b, resp, n)
    ensures AtRest(self, auds, majority, b)
    ensures resp.None? ==>
              !msg.committed && exists d :: FiledWhole(majority, a, msg, d) && Settled(self, auds, majority, d.controls, b)
    decreases n, 5
  {
    var d :| ExecutedFrom(self, bound, auds, majority, a, msg, d, b, resp, n);
    assert ExecutedOn(self, bound, auds, majority, d, msg, b, resp, n);
    if !msg.committed {
      ChoseRests(self, bound, auds, majority, d, b, resp, n);
    }
  }

  /** Whatever a leader answers to a ranked vote, and whenever it answers with one, it is committed or there
      is nothing better left to cast. If it says nothing to a ranked vote, then because nothing that is
      filed with that vote is better than its own. */
  lemma AnswersRest(self: Id, bound: int, auds: seq<Id>, majority: nat, a: Leader, m: Message, b: Leader,
                    resp: Option<Message>, n: nat)
    requires Answers(self, bound, auds, majority, a, m, b, resp, n) && !a.standing.committed
    ensures m.Level? || (resp.Some? && resp.value.Level?) ==> AtRest(self, auds, majority, b)
    ensures m.Level? && resp.None? ==>
              !m.ll.committed && exists d :: FiledWhole(majority, a, m.ll, d) && Settled(self, auds, majority, d.controls, b)
  {
    match m
    case Level(ll) =>
      assert AnsweredLevel(self, bound, auds, majority, a, ll, b, resp, n);
      var r :| Executed(self, bound, auds, majority, a, ll, b, r, n) && resp == AsMessage(r);
      ExecutedRests(self, bound, auds, majority, a, ll, b, r, n);
    case VoteFor(vote) =>
      assert AnsweredVote(self, bound, auds, majority, a, vote, b, resp, n);
      var voted := a.(votes := WithVote(a.votes, vote));
      var r :| TriedRank0(self, bound, auds, majority, voted, false, b, r, n) && resp == AsMessage(r);
      if r.Some? {
        WentOnRests(self, bound, auds, majority,
                    voted.(standing := Rank0Cast(self, auds, majority, voted.votes, a.standing)), false, b, r.value,
                        n - 1);
      }
    case Volunteer(vol) =>
      assert AnsweredVolunteer(self, bound, auds, majority, a, vol, b, resp, n);
      var vote := Vote(vol, self);
      var voted := a.(votes := WithVote(a.votes, vote));
      if !HasSigner(VotesFor(a.votes, vol), self) {
        var r :| TriedRank0(self, bound, auds, majority, voted, false, b, r, n)
            && resp == if r.Some? then AsMessage(r) else Some(VoteFor(vote));
        if r.Some? {
          WentOnRests(self, bound, auds, majority,
                      voted.(standing := Rank0Cast(self, auds, majority, voted.votes, a.standing)), false, b, r.value,
                          n - 1);
        }
      }
  }

  /** Who gets a vote of rank 0: the first audit server that a majority voted for, if the leader has no ranked
      vote and that server beats the one it voted for before. */
  ghost predicate SomebodyElected(auds: seq<Id>, majority: nat, votes: map<Id, seq<Vote>>, current: LeaderLevel) {
    && current.rank <= 0
    && exists i :: IsFirstElected(auds, majority, votes, i) && (current.rank < 0 || current.priority < Priority(auds, auds[i]))
  }

  /** A vote for a volunteer makes a leader cast a vote exactly when it completes, or finds, a majority for
      somebody better. A volunteer is answered unless the leader already voted for it: with a vote for it, or
      with a ranked vote exactly when its own vote completes such a majority. */
  lemma VoteIsAnswered(self: Id, bound: int, auds: seq<Id>, majority: nat, a: Leader, m: Message, b: Leader,
                       resp: Option<Message>, n: nat)
    requires Answers(self, bound, auds, majority, a, m, b, resp, n) && !a.standing.committed && majority > 0
    ensures m.VoteFor? ==>
              (resp.Some? <==> SomebodyElected(auds, majority, WithVote(a.votes, m.vote), a.standing.vote))
    ensures m.Volunteer? ==>
              && (resp.None? <==> HasSigner(VotesFor(a.votes, m.vol), self))
              && (resp.Some? ==>
                    (resp.value.Level? <==>
                       SomebodyElected(auds, majority, WithVote(a.votes, Vote(m.vol, self)), a.standing.vote)))
  {
    match m
    case Level(ll) =>
    case VoteFor(vote) =>
      assert AnsweredVote(self, bound, auds, majority, a, vote, b, resp, n);
      Rank0Exactly(self, auds, majority, WithVote(a.votes, vote), a.standing.vote, a.standing.level);
    case Volunteer(vol) =>
      assert AnsweredVolunteer(self, bound, auds, majority, a, vol, b, resp, n);
      Rank0Exactly(self, auds, majority, WithVote(a.votes, Vote(vol, self)), a.standing.vote, a.standing.level);
  }

  lemma BestBacked(x: Known, majority: nat, auds: seq<Id>, controls: map<Id, Control>,
                   best: Option<LeaderLevel>)
    requires AllControlsOk(x, majority, controls) && best.Some?
    requires BestOf(x, majority, auds, controls, controls.Keys, best)
    ensures Backed(majority, best.value)
  {
    var vol := best.value.vol;
    CandidateBacked(x, majority, auds, vol, controls[vol], best.value);
  }

  lemma {:induction false} PriorityIsPlace(auds: seq<Id>, vol: Id)
    requires vol in auds
    ensures exists i :: 0 <= i < |auds| && auds[i] == vol && Priority(auds, vol) == |auds| - 1 - i
  {
    if auds[0] != vol {
      PriorityIsPlace(auds[1..], vol);
      var i :| 0 <= i < |auds[1..]| && auds[1..][i] == vol && Priority(auds[1..], vol) == |auds[1..]| - 1 - i;
      assert auds[i + 1] == vol;
    }
  }

  /** Audit servers have different priorities. */
  lemma PriorityIdentifies(auds: seq<Id>, a: Id, b: Id)
    requires a in auds && b in auds && Priority(auds, a) == Priority(auds, b)
    ensures a == b
  {
    PriorityIsPlace(auds, a);
    PriorityIsPlace(auds, b);
  }

  /** A leader that commits by itself has cast its last four votes for one audit server, each one rank
      and one level above the one before, and each with a majority behind it. */
  lemma CommitNeedsFour(self: Id, auds: seq<Id>, majority: nat, s: Standing, i: nat)
    requires InOrder(self, auds, majority, s) && s.committed && !s.skipped
    requires forall k :: 0 <= k < |s.cast| ==> s.cast[k].vol in auds
    requires i < 4
    ensures var n := |s.cast|;
            && n >= 4 && s.cast[n - 1 - i].vol == s.cast[n - 1].vol
            && s.cast[n - 1 - i].rank == s.cast[n - 1].rank - i > 0
            && s.cast[n - 1 - i].level == s.cast[n - 1].level - i
            && Backed(majority, s.cast[n - 1 - i])
  {
    var n := |s.cast|;
    assert StreakAt(s.cast, 4, n - 1 - i) && BackedAt(majority, s.cast, n - 1 - i);
    assert PriorityAt(auds, s.cast, n - 1 - i) && PriorityAt(auds, s.cast, n - 1);
    if i > 0 {
      CommitNeedsFour(self, auds, majority, s, i - 1);
      assert StreakAt(s.cast, 4, n - i) && PriorityAt(auds, s.cast, n - i);
    }
    PriorityIdentifies(auds, s.cast[n - 1 - i].vol, s.cast[n - 1].vol);
  }

  /** A leader commits by itself with the fourth vote in a row, and not without. */
  lemma CommitsExactly(self: Id, auds: seq<Id>, majority: nat, s: Standing)
    requires InOrder(self, auds, majority, s) && !s.skipped
    ensures s.committed <==> Streak(s.cast, 4)
  {
    if !s.committed && Streak(s.cast, 4) {
      StreakShorter(s.cast, 4, s.tally + 1);
    }
  }

  /** Any two ranked votes have a leader behind both, whoever cast them. */
  lemma MajoritiesMeet(leaders: set<Id>, majority: nat, a: LeaderLevel, b: LeaderLevel)
    requires Backed(majority, a) && Backed(majority, b) && a.rank > 0 && b.rank > 0
    requires Signers(a.justification) <= leaders && Signers(b.justification) <= leaders && |leaders| < 2 * majority
    ensures exists x :: x in Signers(a.justification) && x in Signers(b.justification)
  {
    var sa, sb := Signers(a.justification), Signers(b.justification);
    if sa !! sb {
      assert |sa + sb| == |sa| + |sb|;
      SubsetSize(sa + sb, leaders);
    }
  }

  /** The first audit server with a majority of votes. */
  function FirstElected(auds: seq<Id>, majority: nat, votes: map<Id, seq<Vote>>): (r: Option<Id>)
    ensures r.Some? ==> r.value in auds && r.value in votes && |votes[r.value]| >= majority
  {
    if auds == [] then None
    else if auds[0] in votes && |votes[auds[0]]| >= majority then Some(auds[0])
    else FirstElected(auds[1..], majority, votes)
  }

  /** The vote of rank 0 a leader can cast: only while it has no ranked one, and only if it is better. */
  function Rank0(self: Id, auds: seq<Id>, majority: nat, votes: map<Id, seq<Vote>>, current: LeaderLevel, level: int)
    : (r: Option<LeaderLevel>)
    ensures r.Some? ==> Less(current, r.value)
  {
    var vol := FirstElected(auds, majority, votes);
    if current.rank > 0 || vol.None? then None
    else
      var ll := LeaderLevel(self, vol.value, 0, level, Priority(auds, vol.value), None, votes[vol.value], [], false);
      if Less(current, ll) then Some(ll) else None
  }

  lemma Rank0Backed(self: Id, voted: set<Id>, auds: seq<Id>, majority: nat, votes: map<Id, seq<Vote>>,
                    current: LeaderLevel, level: int)
    requires AllVotesOk(self, voted, votes) && Rank0(self, auds, majority, votes, current, level).Some?
    ensures Backed(majority, Rank0(self, auds, majority, votes, current, level).value)
  {
  }

  lemma CandidateBacked(x: Known, majority: nat, auds: seq<Id>, vol: Id, votes: Control, c: LeaderLevel)
    requires ControlOk(x, majority, vol, votes) && |votes| >= majority
    requires IsCandidate(x, majority, auds, vol, votes, c)
    ensures Backed(majority, c)
  {
    forall i | 0 <= i < |c.justification|
      ensures c.justification[i].signer in votes && c.justification[i] == votes[c.justification[i].signer]
    {
      assert c.justification[i] in votes.Values;
    }
    forall k | k in votes
      ensures k in Signers(c.justification)
    {
      var i :| 0 <= i < |c.justification| && c.justification[i] == votes[k];
    }
    assert Signers(c.justification) == votes.Keys;
  }

  // ---------------------------------------------------------------- the election

  class Election {
    const self: Id
    const auds: seq<Id>
    const majority: nat
    var volunteerVotes: map<Id, seq<Vote>>
    var controls: map<Id, Control>
    var currentLevel: int
    var currentVote: LeaderLevel
    var committed: bool
    var tally: int
    ghost var cast: seq<LeaderLevel>   // every vote made, also those never sent because a better one followed
    ghost var skipped: bool            // committed because somebody else did
    ghost var voted: set<Id>           // the volunteers this leader has voted for
    ghost var bound: int               // no level that has been seen is above this, but for the leader's own

    ghost predicate Valid()
      reads this
    {
      && majority >= 1 && bound >= 0
      && AllControlsOk(Knows(), majority, controls) && AllVotesOk(self, voted, volunteerVotes)
      && InOrder(self, auds, majority, Now()) && SentOk(Knows(), Now())
      && (majority >= 2 && !committed ==> currentVote.rank <= bound)
    }

    ghost function All(): Leader
      reads this`controls, this`volunteerVotes, this`currentLevel, this`currentVote, this`committed, this`tally, this`cast,
            this`skipped
    {
      Leader(controls, volunteerVotes, Now())
    }

    ghost function Knows(): Known
      reads this`bound, this`cast
    {
      Known(self, bound, cast)
    }

    ghost function Now(): Standing
      reads this`currentLevel, this`currentVote, this`committed, this`tally, this`cast, this`skipped
    {
      Standing(currentLevel, currentVote, committed, tally, cast, skipped)
    }

    constructor (self: Id, auds: seq<Id>, majority: nat)
      requires majority >= 1
      ensures Valid() && cast == [] && !committed
      ensures this.self == self && this.auds == auds && this.majority == majority
    {
      this.self, this.auds, this.majority := self, auds, majority;
      volunteerVotes, controls := map[], map[];
      currentLevel := 1;
      currentVote := LeaderLevel(0, 0, -1, 0, -1, None, [], [], false);
      committed, tally := false, 0;
      cast, skipped, voted, bound := [], false, {}, 0;
    }

    /** Remembers a vote for a volunteer; says whether it is new. */
    method AddVote(vote: Vote) returns (isNew: bool)
      requires AllVotesOk(self, voted, volunteerVotes)
      modifies this`volunteerVotes
      ensures isNew <==> !HasSigner(VotesFor(old(volunteerVotes), vote.vol), vote.signer)
      ensures volunteerVotes == WithVote(old(volunteerVotes), vote)
      ensures AllVotesOk(self, voted, volunteerVotes)
      ensures vote.signer == self ==> AllVotesOk(self, voted + {vote.vol}, volunteerVotes)
    {
      WithVoteOk(self, voted, volunteerVotes, vote);
      if vote.vol !in volunteerVotes {
        volunteerVotes := volunteerVotes[vote.vol := []];
      }
      var known := volunteerVotes[vote.vol];
      isNew := !HasSigner(known, vote.signer);
      if isNew {
        volunteerVotes := volunteerVotes[vote.vol := known + [vote]];
      }
    }

    /** Files a ranked vote, the votes before it and the votes it carries. If there is a focus, that is a
        vote above everything that is filed, it is kept, or found if it is the vote filed. */
    method AddLeaderLevelMessage(msg: LeaderLevel, ghost focus: Option<LeaderLevel>) returns (change: bool)
      requires AllControlsOk(Knows(), majority, controls) && PrevOk(Knows(), msg)
      requires AllVotesOk(self, voted, volunteerVotes)
      requires focus.Some? ==> majority == 1 && FilesOk(self, focus.value, msg)
      modifies this`controls, this`volunteerVotes
      ensures AllControlsOk(Knows(), majority, controls) && AllVotesOk(self, voted, volunteerVotes)
      ensures old(controls).Keys + {msg.vol} <= controls.Keys
      ensures Filed(majority, old(controls), msg, controls)
      ensures volunteerVotes == WithCarried(old(volunteerVotes), msg)
      ensures focus.Some? ==> KeepsFocus(self, old(controls), controls, focus.value, Finds(self, focus.value, msg))
      decreases msg, 1
    {
      OpenControl(msg.vol, focus);
      ghost var ready := controls;
      change := FilePrevious(msg, focus);
      ghost var before := controls;
      var c := FileVote(msg, focus);
      assert FiledBefore(majority, Opened(old(controls), msg.vol), msg, before) && FiledOne(majority, before, msg, controls, c);
      if focus.Some? {
        FocusKept(self, old(controls), ready, before, controls, focus.value, Finds(self, focus.value, msg));
      }
      change := c || change;
      c := AddVotes(msg.votes);
      change := c || change;
    }

    /** Files the votes before a vote. */
    method FilePrevious(msg: LeaderLevel, ghost focus: Option<LeaderLevel>) returns (change: bool)
      requires AllControlsOk(Knows(), majority, controls) && PrevOk(Knows(), msg)
      requires AllVotesOk(self, voted, volunteerVotes)
      requires focus.Some? ==> majority == 1 && FilesOk(self, focus.value, msg)
      modifies this`controls, this`volunteerVotes
      ensures AllControlsOk(Knows(), majority, controls) && AllVotesOk(self, voted, volunteerVotes)
      ensures old(controls).Keys <= controls.Keys
      ensures FiledBefore(majority, old(controls), msg, controls)
      ensures volunteerVotes == WithEarlier(old(volunteerVotes), msg)
      ensures focus.Some? ==> exists f :: KeepsFocus(self, old(controls), controls, focus.value, f)
      decreases msg, 0
    {
      change := false;
      if msg.previous.Some? {
        change := AddLeaderLevelMessage(msg.previous.value, focus);
      }
      if focus.Some? && msg.previous.None? {
        assert KeepsFocus(self, old(controls), controls, focus.value, false);
      }
    }

    method OpenControl(vol: Id, ghost focus: Option<LeaderLevel>)
      requires AllControlsOk(Knows(), majority, controls)
      modifies this`controls
      ensures AllControlsOk(Knows(), majority, controls)
      ensures controls == Opened(old(controls), vol)
      ensures focus.Some? ==> KeepsFocus(self, old(controls), controls, focus.value, false)
    {
      if vol !in controls {
        ControlReplaced(Knows(), majority, controls, vol, map[]);
        controls := controls[vol := map[]];
      }
    }

    method AddVotes(votes: seq<Vote>) returns (change: bool)
      requires AllVotesOk(self, voted, volunteerVotes)
      modifies this`volunteerVotes
      ensures AllVotesOk(self, voted, volunteerVotes)
      ensures volunteerVotes == WithVotes(old(volunteerVotes), votes)
    {
      change := false;
      for i := 0 to |votes|
        invariant AllVotesOk(self, voted, volunteerVotes)
        invariant volunteerVotes == WithVotes(old(volunteerVotes), votes[..i])
      {
        assert votes[..i + 1][..i] == votes[..i];
        var c := AddVote(votes[i]);
        change := c || change;
      }
      assert votes[..|votes|] == votes;
    }

    method FileVote(msg: LeaderLevel, ghost focus: Option<LeaderLevel>) returns (changed: bool)
      requires AllControlsOk(Knows(), majority, controls) && PrevOk(Knows(), msg)
      requires msg.vol in controls
      requires focus.Some? ==> majority == 1 && FileOk(self, focus.value, msg)
      modifies this`controls
      ensures AllControlsOk(Knows(), majority, controls)
      ensures controls.Keys == old(controls).Keys
      ensures FiledOne(majority, old(controls), msg, controls, changed)
      ensures focus.Some? ==> KeepsFocus(self, old(controls), controls, focus.value, Finds(self, focus.value, msg))
    {
      var after;
      after, changed := VolunteerControl.AddVote(controls[msg.vol], majority, msg);
      VoteAddedOk(Knows(), majority, controls[msg.vol], msg, after, changed);
      ControlReplaced(Knows(), majority, controls, msg.vol, after);
      if focus.Some? {
        FiledKeepsFocus(Knows(), controls, focus.value, msg, after, changed);
      }
      controls := controls[msg.vol := after];
    }

    /** Asks one control for a vote, which uses its lowest votes up. */
    method AskControl(v: Id) returns (vote: Option<LeaderLevel>)
      requires majority >= 1 && AllControlsOk(Knows(), majority, controls) && v in controls
      modifies this`controls
      ensures AllControlsOk(Knows(), majority, controls)
      ensures OnlyChanged(old(controls), controls, v) && UsedUp(majority, old(controls)[v], controls[v])
      ensures vote.Some? <==> |old(controls)[v]| >= majority
      ensures vote.Some? ==> IsCandidate(Knows(), majority, auds, v, old(controls)[v], vote.value)
    {
      var votes := controls[v];
      assert ControlOk(Knows(), majority, v, votes);
      var after;
      after, vote := CheckVoteCount(votes, majority, self, v);
      if vote.Some? {
        RankBounded(Knows(), majority, v, votes, vote.value);
        UsedUpOk(Knows(), majority, v, votes, after);
        assert IsLowestLevel(votes, vote.value.rank);
        vote := Some(vote.value.(priority := Priority(auds, v)));
      }
      ControlReplaced(Knows(), majority, controls, v, after);
      controls := controls[v := after];
    }

    /** The better of a vote and what one more control allows. */
    method AskNext(v: Id, best: Option<LeaderLevel>, ghost was: map<Id, Control>, ghost todo: set<Id>)
      returns (better: Option<LeaderLevel>)
      requires majority >= 1 && AllControlsOk(Knows(), majority, controls)
      requires v in todo && AskedBut(majority, was, controls, todo)
      requires BestOf(Knows(), majority, auds, was, was.Keys - todo, best)
      modifies this`controls
      ensures AllControlsOk(Knows(), majority, controls)
      ensures AskedBut(majority, was, controls, todo - {v})
      ensures BestOf(Knows(), majority, auds, was, was.Keys - (todo - {v}), better)
    {
      ghost var before := controls;
      var vote := AskControl(v);
      AskedOneMore(majority, was, before, controls, todo, v);
      BestOfNext(Knows(), majority, auds, was, was.Keys - todo, best, v, vote);
      better := if vote.Some? && (best.None? || Less(best.value, vote.value)) then vote else best;
    }

    /** The best vote that the controls allow. */
    method BestVote() returns (best: Option<LeaderLevel>)
      requires majority >= 1 && AllControlsOk(Knows(), majority, controls)
      modifies this`controls
      ensures AllControlsOk(Knows(), majority, controls)
      ensures BestOf(Knows(), majority, auds, old(controls), old(controls).Keys, best)
      ensures AskedBut(majority, old(controls), controls, {})
    {
      ghost var was := controls;
      best := None;
      var todo := controls.Keys;
      while todo != {}
        invariant AllControlsOk(Knows(), majority, controls)
        invariant AskedBut(majority, was, controls, todo)
        invariant BestOf(Knows(), majority, auds, was, was.Keys - todo, best)
        decreases todo
      {
        var v :| v in todo;
        best := AskNext(v, best, was, todo);
        todo := todo - {v};
      }
      assert was.Keys - {} == was.Keys;
    }

    /** Makes a vote the current one and counts how far it follows from the last. */
    method UpdateCurrentVote(vote: LeaderLevel) returns (v: LeaderLevel)
      modifies this`currentVote, this`tally, this`cast
      ensures v == Voted(auds, old(currentVote), vote)
      ensures Now() == Updated(auds, old(Now()), vote, old(currentLevel))
    {
      v := vote.(priority := Priority(auds, vote.vol));
      if currentVote.rank >= 0 {
        v := v.(previous := Some(currentVote.(justification := [], previous := None)));
      }
      if v.priority == currentVote.priority && currentVote.rank + 1 == v.rank && currentVote.level + 1 == v.level {
        tally := tally + 1;
      } else {
        tally := 1;
      }
      if v.rank == 0 {
        tally := 0;
      }
      currentVote := v;
      cast := cast + [v];
    }

    /** A vote of rank 0 for the first audit server that a majority voted for, if it beats the current vote. */
    method GetRank0Vote() returns (r: Option<LeaderLevel>)
      modifies this`currentLevel
      ensures r == Rank0(self, auds, majority, volunteerVotes, currentVote, old(currentLevel))
      ensures currentLevel == if r.Some? then old(currentLevel) + 1 else old(currentLevel)
    {
      if currentVote.rank > 0 {
        return None;
      }
      for i := 0 to |auds|
        invariant FirstElected(auds, majority, volunteerVotes) == FirstElected(auds[i..], majority, volunteerVotes)
      {
        var vol := auds[i];
        if vol in volunteerVotes && |volunteerVotes[vol]| >= majority {
          var ll := LeaderLevel(self, vol, 0, currentLevel, Priority(auds, vol), None, volunteerVotes[vol], [], false);
          if Less(currentVote, ll) {
            currentLevel := currentLevel + 1;
            return Some(ll);
          } else {
            return None;
          }
        }
      }
      return None;
    }

    /** Files a ranked vote and everything it brings along. */
    method FileMessage(msg: LeaderLevel, ghost focus: Option<LeaderLevel>) returns (change: bool)
      requires AllControlsOk(Knows(), majority, controls) && LevelOk(Knows(), msg)
      requires AllVotesOk(self, voted, volunteerVotes)
      requires focus.Some? ==> majority == 1 && FilesAll(self, focus.value, msg)
      modifies this`controls, this`volunteerVotes
      ensures AllControlsOk(Knows(), majority, controls) && AllVotesOk(self, voted, volunteerVotes)
      ensures FiledMessage(majority, old(controls), msg, controls)
      ensures volunteerVotes == WithMessage(old(volunteerVotes), msg)
      ensures focus.Some? ==> KeepsFocus(self, old(controls), controls, focus.value, false)
    {
      change := AddLeaderLevelMessage(msg, focus);
      ghost var first := controls;
      var c := FileJustification(msg.justification, focus);
      change := c || change;
      if focus.Some? {
        FocusTwice(self, old(controls), first, controls, focus.value);
      }
    }

    /** Files one of the votes that justify a message. */
    method FileJustified(lls: seq<LeaderLevel>, j: nat, ghost focus: Option<LeaderLevel>, ghost start: map<Id, Control>,
                         ghost known: map<Id, seq<Vote>>)
      returns (change: bool)
      requires AllControlsOk(Knows(), majority, controls) && AllVotesOk(self, voted, volunteerVotes)
      requires j < |lls| && PrevOk(Knows(), lls[j])
      requires FiledAll(majority, start, lls[..j], controls) && volunteerVotes == WithAllCarried(known, lls[..j])
      requires focus.Some? ==> majority == 1 && FilesOk(self, focus.value, lls[j])
      requires focus.Some? ==> KeepsFocus(self, start, controls, focus.value, false)
      modifies this`controls, this`volunteerVotes
      ensures AllControlsOk(Knows(), majority, controls) && AllVotesOk(self, voted, volunteerVotes)
      ensures FiledAll(majority, start, lls[..j + 1], controls) && volunteerVotes == WithAllCarried(known, lls[..j + 1])
      ensures focus.Some? ==> KeepsFocus(self, start, controls, focus.value, false)
    {
      ghost var before := controls;
      change := AddLeaderLevelMessage(lls[j], focus);
      FiledOneMore(majority, start, lls, j, before, controls);
      CarriedOneMore(known, lls, j);
      if focus.Some? {
        FocusTwice(self, start, before, controls, focus.value);
      }
    }

    method FileJustification(lls: seq<LeaderLevel>, ghost focus: Option<LeaderLevel>) returns (change: bool)
      requires AllControlsOk(Knows(), majority, controls) && AllVotesOk(self, voted, volunteerVotes)
      requires forall j :: 0 <= j < |lls| ==> PrevOk(Knows(), lls[j])
      requires focus.Some? ==> majority == 1 && forall j :: 0 <= j < |lls| ==> FilesOk(self, focus.value, lls[j])
      modifies this`controls, this`volunteerVotes
      ensures AllControlsOk(Knows(), majority, controls) && AllVotesOk(self, voted, volunteerVotes)
      ensures FiledAll(majority, old(controls), lls, controls)
      ensures volunteerVotes == WithAllCarried(old(volunteerVotes), lls)
      ensures focus.Some? ==> KeepsFocus(self, old(controls), controls, focus.value, false)
    {
      change := false;
      for j := 0 to |lls|
        invariant AllControlsOk(Knows(), majority, controls) && AllVotesOk(self, voted, volunteerVotes)
        invariant FiledAll(majority, old(controls), lls[..j], controls)
        invariant volunteerVotes == WithAllCarried(old(volunteerVotes), lls[..j])
        invariant focus.Some? ==> KeepsFocus(self, old(controls), controls, focus.value, false)
      {
        var c := FileJustified(lls, j, focus, old(controls), old(volunteerVotes));
        change := c || change;
      }
      assert lls[..|lls|] == lls;
    }

    /** Takes over the commit of another leader. */
    method FollowCommit(msg: LeaderLevel) returns (vote: LeaderLevel)
      modifies this`currentLevel, this`currentVote, this`tally, this`cast, this`skipped, this`committed
      ensures Now() == Followed(self, auds, old(Now()), msg)
      ensures vote == LastSent(Now())
    {
      vote := LeaderLevel(self, msg.vol, msg.rank, currentLevel, 0, None, [], [], false);
      currentLevel := currentLevel + 1;
      vote := UpdateCurrentVote(vote);
      tally := 4;
      committed, skipped := true, true;
      vote := vote.(committed := true);
    }

    /** Casts a ranked vote, and commits if it is the fourth in a row. */
    method CastRanked(best: LeaderLevel) returns (vote: LeaderLevel)
      requires !committed && !best.committed
      modifies this`currentLevel, this`currentVote, this`tally, this`cast, this`committed
      ensures Now() == Ranked(auds, old(Now()), best)
      ensures vote == LastSent(Now())
    {
      vote := best;
      if currentLevel >= best.level {
        vote := vote.(level := currentLevel);
        currentLevel := currentLevel + 1;
      } else {
        currentLevel := best.level + 1;
      }
      vote := UpdateCurrentVote(vote);
      if tally > 3 {
        committed := true;
        vote := vote.(committed := true);
      }
    }

    /** Casts a vote of rank 0, if there is one. */
    method CastRank0() returns (r: Option<LeaderLevel>)
      requires !committed
      modifies this`currentLevel, this`currentVote, this`tally, this`cast
      ensures r.Some? <==> Rank0(self, auds, majority, volunteerVotes, old(currentVote), old(currentLevel)).Some?
      ensures Now() == Rank0Cast(self, auds, majority, volunteerVotes, old(Now()))
      ensures r.Some? ==> r.value == LastSent(Now())
    {
      r := GetRank0Vote();
      if r.Some? {
        var v := UpdateCurrentVote(r.value);
        r := Some(v);
      }
    }

    /** Having cast a vote, looks for a better one on top of it; what is sent is the last of them. */
    method GoOn(vote: LeaderLevel, file: bool) returns (resp: Message, ghost n: nat)
      requires Valid() && cast != [] && vote == LastSent(Now())
      requires currentVote.rank > bound ==> majority == 1 && file && NoVotes(controls) && FilesAll(self, vote, vote)
      modifies this`controls, this`volunteerVotes, this`currentLevel, this`currentVote, this`tally, this`cast,
               this`skipped, this`committed
      ensures Valid() && resp.Level? && WentOn(self, bound, auds, majority, old(All()), file, All(), resp.ll, n)
      decreases Room(bound, currentVote), Stage(bound, auds, currentVote, tally), 7
    {
      ghost var start := All();
      if file {
        FileCast(vote);
      }
      ghost var filed := All();
      var better, c;
      better, c, n := ExecuteVote(Level(vote));
      resp := if better.Some? then better.value else Level(vote);
      WentOnHolds(self, bound, auds, majority, start, file, filed, All(), better, vote, resp.ll, n);
    }

    /** Files the vote just cast. */
    method FileCast(vote: LeaderLevel)
      requires AllControlsOk(Knows(), majority, controls) && AllVotesOk(self, voted, volunteerVotes)
      requires LevelOk(Knows(), vote) && vote.signer == self
      requires vote.rank > bound ==> majority == 1 && NoVotes(controls) && FilesAll(self, vote, vote)
      modifies this`controls, this`volunteerVotes
      ensures AllControlsOk(Knows(), majority, controls) && AllVotesOk(self, voted, volunteerVotes)
      ensures vote == LastSent(Now()) ==> FiledOwn(majority, old(All()), true, All())
      ensures vote.rank > bound ==> Focused(self, controls, vote)
    {
      ghost var focus := if vote.rank > bound then Some(vote) else None;
      var _ := AddLeaderLevelMessage(vote, focus);
    }

    /** Casts a ranked vote. */
    method CastAndGoOn(best: LeaderLevel) returns (resp: Message, ghost n: nat)
      requires Valid() && !committed && Less(currentVote, best) && IsReady(Knows(), majority, auds, currentVote, best)
      requires majority == 1 ==> NoVotes(controls)
      modifies this`controls, this`volunteerVotes, this`currentLevel, this`currentVote, this`tally, this`cast,
               this`skipped, this`committed
      ensures Valid() && resp.Level?
      ensures WentOn(self, bound, auds, majority,
                     Leader(old(controls), old(volunteerVotes), Ranked(auds, old(Now()), best)), true,
                     All(), resp.ll, n)
      decreases Room(bound, currentVote), Stage(bound, auds, currentVote, tally), 1
    {
      ghost var was, knew := Now(), Knows();
      RankedReady(self, bound, auds, majority, was, best);
      var vote := CastRanked(best);
      ControlsGrow(knew, Knows(), majority, controls);
      resp, n := GoOn(vote, true);
    }

    /** Casts a vote of rank 0 if it can. */
    method Rank0AndGoOn(file: bool) returns (resp: Option<Message>, ghost n: nat)
      requires Valid() && !committed
      modifies this`controls, this`volunteerVotes, this`currentLevel, this`currentVote, this`tally, this`cast,
               this`skipped, this`committed
      ensures Valid() && (resp.Some? ==> resp.value.Level?)
      ensures TriedRank0(self, bound, auds, majority, old(All()), file, All(), AsLevel(resp), n)
      decreases Room(bound, currentVote), Stage(bound, auds, currentVote, tally), 1
    {
      ghost var was, knew := Now(), Knows();
      var r := CastRank0();
      if r.None? {
        return None, 0;
      }
      Rank0Casts(self, bound, auds, majority, was, voted, volunteerVotes);
      ControlsGrow(knew, Knows(), majority, controls);
      var m, more := GoOn(r.value, file);
      resp, n := Some(m), more + 1;
    }

    /** Answers another leader's commit. */
    method AnswerCommit(msg: LeaderLevel) returns (resp: Message)
      requires Valid() && !committed && 0 <= msg.rank
      modifies this`currentLevel, this`currentVote, this`tally, this`cast, this`skipped, this`committed
      ensures Valid()
      ensures Now() == Followed(self, auds, old(Now()), msg) && resp == Level(LastSent(Now()))
    {
      ghost var knew := Knows();
      FollowedOk(self, bound, auds, majority, Now(), msg);
      var vote := FollowCommit(msg);
      ControlsGrow(knew, Knows(), majority, controls);
      resp := Level(vote);
    }

    /** The best vote that the controls allow, with what is needed to cast it. */
    method AskAll() returns (best: Option<LeaderLevel>)
      requires Valid() && !committed
      requires currentVote.rank > bound ==> majority == 1 && Focused(self, controls, LastSent(Now()))
      modifies this`controls
      ensures Valid() && Castable(Knows(), majority, auds, currentVote, controls, best)
      ensures ChoseBest(Knows(), majority, auds, old(controls), best, controls)
    {
      ghost var start := All();
      best := BestVote();
      BestIsCastable(Knows(), majority, auds, start, controls, best);
    }

    /** The best vote there now is, if it beats the current one. */
    method ChooseVote() returns (resp: Option<Message>, ghost n: nat)
      requires Valid() && !committed
      requires currentVote.rank > bound ==> majority == 1 && Focused(self, controls, LastSent(Now()))
      modifies this`controls, this`volunteerVotes, this`currentLevel, this`currentVote, this`tally, this`cast,
               this`skipped, this`committed
      ensures Valid() && (resp.Some? ==> resp.value.Level?)
      ensures Chose(self, bound, auds, majority, old(All()), All(), AsLevel(resp), n)
      decreases Room(bound, currentVote), Stage(bound, auds, currentVote, tally), 3
    {
      ghost var start := All();
      var best := AskAll();
      ghost var asked := controls;
      resp, n := CastBest(best, start);
      ChoseHolds(self, bound, auds, majority, start, best, asked, All(), AsLevel(resp), n);
    }

    /** Casts the best vote, if it beats the current one; where there is none, one of rank 0. */
    method CastBest(best: Option<LeaderLevel>, ghost start: Leader) returns (resp: Option<Message>, ghost n: nat)
      requires Valid() && !committed && Castable(Knows(), majority, auds, currentVote, controls, best)
      requires start == Leader(start.controls, volunteerVotes, Now())
      modifies this`controls, this`volunteerVotes, this`currentLevel, this`currentVote, this`tally, this`cast,
               this`skipped, this`committed
      ensures Valid() && (resp.Some? ==> resp.value.Level?)
      ensures ChoseOn(self, bound, auds, majority, start, best, old(controls), All(), AsLevel(resp), n)
      decreases Room(bound, currentVote), Stage(bound, auds, currentVote, tally), 2
    {
      if best.None? {
        resp, n := Rank0AndGoOn(true);
      } else if Less(currentVote, best.value) {
        var vote, more := CastAndGoOn(best.value);
        resp, n := Some(vote), more + 1;
      } else {
        resp, n := None, 0;
      }
    }

    /** Where the current vote has passed the bound, only the leader's own current vote is executed. */
    ghost predicate Continues(m: Message)
      reads this
    {
      currentVote.rank > bound && !committed ==>
        && majority == 1 && m == Level(LastSent(Now()))
        && Focused(self, controls, m.ll) && FilesAll(self, m.ll, m.ll)
    }

    /** Follows a ranked vote that is filed if it commits, and looks for a better one otherwise. */
    method AnswerFiled(msg: LeaderLevel) returns (resp: Option<Message>, ghost n: nat)
      requires Valid() && !committed && 0 <= msg.rank
      requires currentVote.rank > bound ==> !msg.committed && majority == 1 && Focused(self, controls, LastSent(Now()))
      modifies this`controls, this`volunteerVotes, this`currentLevel, this`currentVote, this`tally, this`cast,
               this`skipped, this`committed
      ensures Valid() && (resp.Some? ==> resp.value.Level?)
      ensures ExecutedOn(self, bound, auds, majority, old(All()), msg, All(), AsLevel(resp), n)
      decreases Room(bound, currentVote), Stage(bound, auds, currentVote, tally), 4
    {
      if msg.committed {
        var eom := AnswerCommit(msg);
        resp, n := Some(eom), 1;
      } else {
        resp, n := ChooseVote();
      }
    }

    /** Files a ranked vote and answers with a better one, or follows it if it commits. */
    method ExecuteLeaderLevelMessage(msg: LeaderLevel) returns (resp: Option<Message>, change: bool, ghost n: nat)
      requires Valid() && !committed && LevelOk(Knows(), msg) && Continues(Level(msg))
      modifies this`controls, this`volunteerVotes, this`currentLevel, this`currentVote, this`tally, this`cast,
               this`skipped, this`committed
      ensures Valid() && (resp.Some? ==> resp.value.Level?)
      ensures Executed(self, bound, auds, majority, old(All()), msg, All(), AsLevel(resp), n)
      ensures resp.Some? ==> change
      decreases Room(bound, currentVote), Stage(bound, auds, currentVote, tally), 5
    {
      ghost var focus := if currentVote.rank > bound then Some(msg) else None;
      ghost var start := All();
      change := FileMessage(msg, focus);
      ghost var filed := All();
      resp, n := AnswerFiled(msg);
      if resp.Some? {
        change := true;
      }
      ExecutedHolds(self, bound, auds, majority, start, msg, filed, All(), AsLevel(resp), n);
    }

    /** Answers a vote. */
    method ExecuteVote(m: Message) returns (resp: Option<Message>, change: bool, ghost n: nat)
      requires Valid() && MessageOk(Knows(), m) && !m.Volunteer? && Continues(m)
      modifies this`controls, this`volunteerVotes, this`currentLevel, this`currentVote, this`tally, this`cast,
               this`skipped, this`committed
      ensures Valid() && (resp.Some? ==> resp.value.Level?)
      ensures Answers(self, bound, auds, majority, old(All()), m, All(), resp, n) && IsNews(old(All()), m, resp, change)
      decreases Room(bound, currentVote), Stage(bound, auds, currentVote, tally), 6
    {
      if committed {
        return None, false, 0;
      }
      ghost var start := All();
      match m
      case Level(ll) =>
        resp, change, n := ExecuteLeaderLevelMessage(ll);
        AnswersLevel(self, bound, auds, majority, start, ll, All(), resp, n);
      case VoteFor(vote) =>
        change := AddVote(vote);
        ghost var voted := All();
        resp, n := Rank0AndGoOn(false);
        if resp.Some? {
          change := true;
        }
        AnswersVote(self, bound, auds, majority, start, vote, voted, All(), resp, n);
    }

    /** Answers a message. */
    method Execute(m: Message) returns (resp: Option<Message>, change: bool, ghost n: nat)
      requires Valid() && MessageOk(Knows(), m) && (!committed ==> currentVote.rank <= bound)
      modifies this`controls, this`volunteerVotes, this`currentLevel, this`currentVote, this`tally, this`cast,
               this`skipped, this`committed, this`voted
      ensures Valid()
      ensures old(voted) <= voted
      ensures Answers(self, bound, auds, majority, old(All()), m, All(), resp, n) && IsNews(old(All()), m, resp, change)
      ensures resp.Some? && resp.value.VoteFor? ==> resp.value.vote.vol !in old(voted) && resp.value.vote.vol in voted
    {
      if m.Volunteer? {
        resp, change, n := ExecuteVolunteer(m.vol);
      } else {
        resp, change, n := ExecuteVote(m);
      }
    }

    /** Votes for a volunteer, unless the leader already has. */
    method VoteOnce(vol: Id) returns (isNew: bool)
      requires AllVotesOk(self, voted, volunteerVotes)
      modifies this`volunteerVotes, this`voted
      ensures AllVotesOk(self, voted, volunteerVotes)
      ensures if isNew then vol !in old(voted) && voted == old(voted) + {vol} else voted == old(voted)
      ensures isNew <==> !HasSigner(VotesFor(old(volunteerVotes), vol), self)
      ensures volunteerVotes == WithVote(old(volunteerVotes), Vote(vol, self))
    {
      isNew := AddVote(Vote(vol, self));
      if isNew {
        voted := voted + {vol};
      }
    }

    /** Answers a volunteer with a vote for it, once, or with a better vote that this allows. */
    method ExecuteVolunteer(vol: Id) returns (resp: Option<Message>, change: bool, ghost n: nat)
      requires Valid() && (!committed ==> currentVote.rank <= bound)
      modifies this`controls, this`volunteerVotes, this`currentLevel, this`currentVote, this`tally, this`cast,
               this`skipped, this`committed, this`voted
      ensures Valid()
      ensures old(voted) <= voted
      ensures Answers(self, bound, auds, majority, old(All()), Volunteer(vol), All(), resp, n)
      ensures change <==> resp.Some?
      ensures resp.Some? && resp.value.VoteFor? ==> resp.value.vote.vol !in old(voted) && resp.value.vote.vol in voted
    {
      if committed {
        return None, false, 0;
      }
      ghost var start := All();
      change := VoteOnce(vol);
      if !change {
        return None, false, 0;
      }
      var vote := Vote(vol, self);
      ghost var voted := All();
      var c;
      resp, c, n := ExecuteVote(VoteFor(vote));
      AnswersVolunteer(self, bound, auds, majority, start, vote, voted, All(), resp, n);
      if resp.None? {
        resp := Some(VoteFor(vote));
      }
    }

    /** Raises the bound above everything in a message. */
    ghost method RaiseBound(m: Message)
      requires Valid() && WellFormed(m)
      modifies this`bound
      ensures Valid() && old(bound) <= bound && currentVote.rank <= bound && MessageOk(Knows(), m)
    {
      var top := bound + Highest(m) + if currentVote.rank > 0 then currentVote.rank else 0;
      ControlsGrow(Knows(), Known(self, top, cast), majority, controls);
      WellFormedIsOk(Known(self, top, cast), m);
      if cast != [] {
        LevelGrows(Knows(), Known(self, top, cast), LastSent(Now()));
      }
      bound := top;
    }

    /** Takes a message from the network. Whatever leaders send is well formed, so the panics on a level
        that is not positive and on a rank above the level never happen. */
    method Receive(m: Message) returns (resp: Option<Message>, change: bool, ghost n: nat)
      requires Valid() && WellFormed(m)
      modifies this
      ensures Valid() && old(bound) <= bound
      ensures Acts(self, bound, old(Now()), Now(), resp)
      ensures resp.Some? ==> WellFormed(resp.value)
      ensures old(voted) <= voted
      ensures Answers(self, bound, auds, majority, old(All()), m, All(), resp, n) && n == |cast| - |old(cast)|
      ensures IsNews(old(All()), m, resp, change)
      ensures resp.Some? && resp.value.VoteFor? ==> resp.value.vote.vol !in old(voted) && resp.value.vote.vol in voted
    {
      RaiseBound(m);
      ghost var start := All();
      resp, change, n := Execute(m);
      AnswersActs(self, bound, auds, majority, start, m, All(), resp, n);
    }
  }

  // ---------------------------------------------------------------- why the recursion ends

  /** How far the rank of the current vote can still rise below the bound, and how many votes are left for
      a rank. Above the bound, which only a sole leader reaches, every vote is on top of the one before, so
      that it commits soon. */
  function Room(bound: int, vote: LeaderLevel): nat {
    if vote.rank <= bound then bound - vote.rank + 1 else 0
  }

  function Stage(bound: int, auds: seq<Id>, vote: LeaderLevel, tally: int): int {
    if vote.rank <= bound then |auds| - vote.priority
    else if vote.level == vote.rank + 1 then 4 - tally
    else 4
  }

  /** A vote on top of the leader's own vote alone. */
  predicate OnTopOf(vote: LeaderLevel, best: LeaderLevel) {
    best.rank == vote.level && best.level == vote.level && best.vol == vote.vol
  }

  lemma RankedCloser(self: Id, bound: int, auds: seq<Id>, s: Standing, best: LeaderLevel)
    requires StandingOk(self, auds, s) && !s.committed && best.rank > 0 && bound >= 0
    requires best.priority == Priority(auds, best.vol) && Less(s.vote, best)
    requires s.vote.rank > bound ==> OnTopOf(s.vote, best)
    ensures var t := Ranked(auds, s, best);
            || Room(bound, t.vote) < Room(bound, s.vote)
            || (Room(bound, t.vote) == Room(bound, s.vote)
                && Stage(bound, auds, t.vote, t.tally) < Stage(bound, auds, s.vote, s.tally))
  {
    if s.vote.rank > bound {
      assert PriorityAt(auds, s.cast, |s.cast| - 1);
    }
  }

  /** Only votes below the focus are filed beside it, and none of the leader's own for the same volunteer
      that could take its place. */
  ghost predicate FileOk(self: Id, focus: LeaderLevel, ll: LeaderLevel) {
    || Finds(self, focus, ll)
    || (ll.level < focus.level && (ll.signer == self && ll.vol == focus.vol ==> ll.rank < focus.rank))
  }

  predicate Finds(self: Id, focus: LeaderLevel, ll: LeaderLevel) {
    ll.signer == self && SameVote(ll, focus)
  }

  ghost predicate FilesOk(self: Id, focus: LeaderLevel, ll: LeaderLevel)
    decreases ll
  {
    FileOk(self, focus, ll) && (ll.previous.Some? ==> FilesOk(self, focus, ll.previous.value))
  }

  ghost predicate FilesAll(self: Id, focus: LeaderLevel, ll: LeaderLevel) {
    && FilesOk(self, focus, ll)
    && forall j :: 0 <= j < |ll.justification| ==> FilesOk(self, focus, ll.justification[j])
  }

  ghost predicate NoVotes(controls: map<Id, Control>) {
    forall v :: v in controls ==> controls[v] == map[]
  }

  ghost predicate Near(self: Id, controls: map<Id, Control>, focus: LeaderLevel) {
    forall v :: v in controls ==> NearAt(self, controls, focus, v)
  }

  ghost predicate NearAt(self: Id, controls: map<Id, Control>, focus: LeaderLevel, v: Id)
    requires v in controls
  {
    forall k :: k in controls[v] ==> FileOk(self, focus, controls[v][k])
  }

  /** The focus is filed, and everything else is below it. */
  ghost predicate Focused(self: Id, controls: map<Id, Control>, focus: LeaderLevel) {
    && Near(self, controls, focus)
    && focus.vol in controls && self in controls[focus.vol] && SameVote(controls[focus.vol][self], focus)
  }

  ghost predicate KeepsFocus(self: Id, before: map<Id, Control>, after: map<Id, Control>, focus: LeaderLevel, found: bool) {
    && (Near(self, before, focus) ==> Near(self, after, focus))
    && (Near(self, before, focus) && (found || Focused(self, before, focus)) ==> Focused(self, after, focus))
  }

  lemma FocusTwice(self: Id, a: map<Id, Control>, b: map<Id, Control>, c: map<Id, Control>, focus: LeaderLevel)
    requires exists f :: KeepsFocus(self, a, b, focus, f)
    requires exists f :: KeepsFocus(self, b, c, focus, f)
    ensures KeepsFocus(self, a, c, focus, false)
  {
  }

  lemma FocusKept(self: Id, a: map<Id, Control>, b: map<Id, Control>, c: map<Id, Control>, d: map<Id, Control>,
                  focus: LeaderLevel, found: bool)
    requires KeepsFocus(self, a, b, focus, false) && KeepsFocus(self, c, d, focus, found)
    requires exists f :: KeepsFocus(self, b, c, focus, f)
    ensures KeepsFocus(self, a, d, focus, found)
  {
  }

  lemma OneOnly(votes: Control, a: Id, b: Id)
    requires |votes| <= 1 && a in votes && b in votes
    ensures a == b
  {
    if a != b {
      SubsetSize({a, b}, votes.Keys);
    }
  }

  /** Where a majority is one leader, asking a control empties it. */
  lemma SoleIsUsedUp(votes: Control, after: Control)
    requires |votes| <= 1 && UsedUp(1, votes, after)
    ensures after == map[]
  {
    if |votes| == 1 {
      var rank :| IsLowestLevel(votes, rank) && after == map k | k in votes && votes[k].level > rank :: votes[k];
      var low :| low in votes && votes[low].level == rank;
      forall k | k in votes
        ensures votes[k].level == rank
      {
        OneOnly(votes, k, low);
      }
    }
  }

  lemma AskingEmpties(x: Known, was: map<Id, Control>, now: map<Id, Control>)
    requires AllControlsOk(x, 1, was) && AskedBut(1, was, now, {})
    ensures NoVotes(now)
  {
    forall v | v in now
      ensures now[v] == map[]
    {
      assert AskedAt(1, was, now, {}, v) && ControlOk(x, 1, v, was[v]);
      SoleIsUsedUp(was[v], now[v]);
    }
  }

  ghost predicate HasFocus(self: Id, votes: Control, focus: LeaderLevel) {
    self in votes && SameVote(votes[self], focus)
  }

  lemma AddedNear(x: Known, votes: Control, focus: LeaderLevel, msg: LeaderLevel, after: Control, changed: bool)
    requires ControlOk(x, 1, msg.vol, votes) && FileOk(x.self, focus, msg)
    requires forall k :: k in votes ==> FileOk(x.self, focus, votes[k])
    requires VoteAdded(votes, 1, msg, after, changed)
    ensures forall k :: k in after ==> FileOk(x.self, focus, after[k])
    ensures msg.vol == focus.vol && (Finds(x.self, focus, msg) || HasFocus(x.self, votes, focus)) ==>
              HasFocus(x.self, after, focus)
  {
    if msg.signer !in votes && msg.vol == focus.vol {
      var more := votes[msg.signer := msg];
      assert |more| == |votes| + 1;
      if |more| > 1 {
        var low :| IsLowest(more, low) && after == more - {low};
        if k :| k in votes {
          assert more.Keys == {k, msg.signer} by {
            forall i | i in votes ensures i == k { OneOnly(votes, i, k); }
          }
        }
      }
    }
  }

  lemma FiledKeepsFocus(x: Known, controls: map<Id, Control>, focus: LeaderLevel, msg: LeaderLevel, after: Control,
                        changed: bool)
    requires AllControlsOk(x, 1, controls) && msg.vol in controls && FileOk(x.self, focus, msg)
    requires VoteAdded(controls[msg.vol], 1, msg, after, changed)
    ensures KeepsFocus(x.self, controls, controls[msg.vol := after], focus, Finds(x.self, focus, msg))
  {
    if Near(x.self, controls, focus) {
      assert NearAt(x.self, controls, focus, msg.vol);
      AddedNear(x, controls[msg.vol], focus, msg, after, changed);
      var filed := controls[msg.vol := after];
      forall v | v in filed
        ensures NearAt(x.self, filed, focus, v)
      {
        if v != msg.vol {
          assert NearAt(x.self, controls, focus, v);
        }
      }
    }
  }

  /** With the focus filed, the best vote is the one on top of it. */
  lemma FocusedBest(x: Known, auds: seq<Id>, controls: map<Id, Control>, focus: LeaderLevel, best: Option<LeaderLevel>)
    requires AllControlsOk(x, 1, controls) && Focused(x.self, controls, focus)
    requires BestOf(x, 1, auds, controls, controls.Keys, best)
    ensures best.Some? && OnTopOf(focus, best.value)
  {
    var votes := controls[focus.vol];
    assert |votes| >= 1;
    assert NotBeaten(auds, best.value, focus.vol, votes);
    var k :| k in votes && !Worse(best.value, votes[k].level, Priority(auds, focus.vol));
    OneOnly(votes, k, x.self);
    var c := best.value;
    var behind := controls[c.vol];
    var low :| low in behind && behind[low].level == c.rank;
    assert NearAt(x.self, controls, focus, c.vol) && FileOk(x.self, focus, behind[low]);
    assert c.rank == focus.level && c.vol == focus.vol;
    var high :| high in behind && behind[high].level == c.level;
    OneOnly(behind, high, low);
  }

  /** A vote of the leader's own is below a later one and cannot take its place. */
  lemma OwnIsBelow(self: Id, auds: seq<Id>, cast: seq<LeaderLevel>, v: LeaderLevel, ll: LeaderLevel)
    requires LevelsRise(cast + [v]) && VotesRise(cast + [v]) && PrioritiesOk(auds, cast + [v])
    requires InCast(cast, ll)
    ensures FileOk(self, v, ll)
  {
    var i :| 0 <= i < |cast| && SameVote(cast[i], ll);
    var more := cast + [v];
    assert more[i] == cast[i] && more[|cast|] == v;
    assert BetterAt(more, i, |cast|) && HigherAt(more, i, |cast|);
    assert PriorityAt(auds, more, i) && PriorityAt(auds, more, |cast|);
  }

  lemma RankedFiles(self: Id, bound: int, auds: seq<Id>, majority: nat, s: Standing, best: LeaderLevel)
    requires StandingOk(self, auds, s) && !s.committed && best.signer == self && best.previous == None && !best.committed
    requires Casts(self, bound, auds, majority, s, Ranked(auds, s, best))
    requires AllOwn(Known(self, bound, s.cast), best.justification)
    ensures var v := LastSent(Ranked(auds, s, best)); FilesAll(self, v, v)
  {
    var t := Ranked(auds, s, best);
    var v := t.vote;
    assert t.cast == s.cast + [v];
    if s.vote.rank >= 0 {
      assert SameVote(s.cast[|s.cast| - 1], v.previous.value);
      OwnIsBelow(self, auds, s.cast, v, v.previous.value);
    }
    forall j | 0 <= j < |v.justification|
      ensures FilesOk(self, v, v.justification[j])
    {
      var ll := v.justification[j];
      assert Own(Known(self, bound, s.cast), ll);
      OwnIsBelow(self, auds, s.cast, v, ll);
      if ll.previous.Some? {
        OwnIsBelow(self, auds, s.cast, v, ll.previous.value);
      }
    }
    FilesAllSame(self, v, LastSent(t));
  }

  /** All that is needed to go on from a ranked vote. */
  lemma RankedReady(self: Id, bound: int, auds: seq<Id>, majority: nat, s: Standing, best: LeaderLevel)
    requires InOrder(self, auds, majority, s) && !s.committed && !best.committed && bound >= 0
    requires best.signer == self && 0 < best.rank <= best.level && best.previous == None && Backed(majority, best)
    requires JustOk(Known(self, bound, s.cast), best) && RankOk(Known(self, bound, s.cast), majority, best)
    requires best.priority == Priority(auds, best.vol) && Less(s.vote, best)
    requires s.vote.rank > bound ==> OnTopOf(s.vote, best)
    ensures var t := Ranked(auds, s, best);
            && Casts(self, bound, auds, majority, s, t) && s.cast <= t.cast && !t.skipped
            && t.vote.rank == best.rank
            && (best.rank > bound ==> majority == 1 && FilesAll(self, LastSent(t), LastSent(t)))
            && (|| Room(bound, t.vote) < Room(bound, s.vote)
                || (Room(bound, t.vote) == Room(bound, s.vote)
                    && Stage(bound, auds, t.vote, t.tally) < Stage(bound, auds, s.vote, s.tally)))
            && 0 <= Stage(bound, auds, s.vote, s.tally)
  {
    RankedCasts(self, bound, auds, majority, s, best);
    RankedCloser(self, bound, auds, s, best);
    if best.rank > bound {
      RankedFiles(self, bound, auds, majority, s, best);
    }
  }

  lemma {:induction false} FilesSame(self: Id, a: LeaderLevel, b: LeaderLevel, ll: LeaderLevel)
    requires FilesOk(self, a, ll) && SameVote(a, b)
    ensures FilesOk(self, b, ll)
    decreases ll
  {
    if ll.previous.Some? {
      FilesSame(self, a, b, ll.previous.value);
    }
  }

  lemma FilesAllSame(self: Id, a: LeaderLevel, b: LeaderLevel)
    requires FilesAll(self, a, a) && b == a.(committed := b.committed)
    ensures FilesAll(self, b, b)
  {
    FilesSame(self, a, b, a);
    forall j | 0 <= j < |b.justification|
      ensures FilesOk(self, b, b.justification[j])
    {
      FilesSame(self, a, b, a.justification[j]);
    }
  }

  /** A vote the control of a volunteer allows, with the volunteer's priority. */
  ghost predicate IsCandidate(x: Known, majority: nat, auds: seq<Id>, vol: Id, votes: Control, c: LeaderLevel) {
    && Countable(votes, x.self, vol, c.(priority := 0))
    && c.priority == Priority(auds, vol)
    && 0 < c.rank <= c.level && JustOk(x, c) && RankOk(x, majority, c)
  }

  ghost predicate OnlyChanged(before: map<Id, Control>, after: map<Id, Control>, v: Id) {
    before.Keys == after.Keys && forall u :: u in before && u != v ==> after[u] == before[u]
  }

  lemma AskedOneMore(majority: nat, was: map<Id, Control>, before: map<Id, Control>, after: map<Id, Control>, todo: set<Id>,
                     v: Id)
    requires AskedBut(majority, was, before, todo) && v in todo && OnlyChanged(before, after, v)
    requires UsedUp(majority, before[v], after[v])
    ensures AskedBut(majority, was, after, todo - {v}) && v in was && before[v] == was[v]
    ensures was.Keys - (todo - {v}) == (was.Keys - todo) + {v}
  {
    assert AskedAt(majority, was, before, todo, v);
    forall u | u in was
      ensures AskedAt(majority, was, after, todo - {v}, u)
    {
      assert AskedAt(majority, was, before, todo, u);
    }
  }

  /** The best of the votes that the controls of some volunteers allow. */
  ghost predicate BestOf(x: Known, majority: nat, auds: seq<Id>, controls: map<Id, Control>, vols: set<Id>,
                         best: Option<LeaderLevel>) {
    && (best.Some? ==>
          && best.value.vol in controls && best.value.vol in vols && |controls[best.value.vol]| >= majority
          && IsCandidate(x, majority, auds, best.value.vol, controls[best.value.vol], best.value))
    && forall v :: v in vols && v in controls && |controls[v]| >= majority ==>
         best.Some? && NotBeaten(auds, best.value, v, controls[v])
  }

  predicate Worse(a: LeaderLevel, rank: int, priority: int) {
    Less(a, a.(rank := rank, priority := priority))
  }

  /** No vote the control allows is better: its rank would be the lowest level among its votes. */
  ghost predicate NotBeaten(auds: seq<Id>, best: LeaderLevel, vol: Id, votes: Control) {
    exists k :: k in votes && !Worse(best, votes[k].level, Priority(auds, vol))
  }

  lemma NotBeatenByBetter(auds: seq<Id>, best: LeaderLevel, better: LeaderLevel, vol: Id, votes: Control)
    requires NotBeaten(auds, best, vol, votes) && Less(best, better)
    ensures NotBeaten(auds, better, vol, votes)
  {
    var k :| k in votes && !Worse(best, votes[k].level, Priority(auds, vol));
  }

  lemma CandidateNotBeaten(x: Known, majority: nat, auds: seq<Id>, vol: Id, votes: Control, c: LeaderLevel, best: LeaderLevel)
    requires IsCandidate(x, majority, auds, vol, votes, c) && !Less(best, c)
    ensures NotBeaten(auds, best, vol, votes)
  {
    var k :| k in votes && votes[k].level == c.rank;
  }

  lemma BestOfNext(x: Known, majority: nat, auds: seq<Id>, controls: map<Id, Control>, vols: set<Id>,
                   best: Option<LeaderLevel>, v: Id, vote: Option<LeaderLevel>)
    requires BestOf(x, majority, auds, controls, vols, best) && v in controls
    requires vote.Some? <==> |controls[v]| >= majority
    requires vote.Some? ==> IsCandidate(x, majority, auds, v, controls[v], vote.value)
    ensures BestOf(x, majority, auds, controls, vols + {v},
                   if vote.Some? && (best.None? || Less(best.value, vote.value)) then vote else best)
  {
    if vote.Some? {
      var replaced := best.None? || Less(best.value, vote.value);
      var now := if replaced then vote.value else best.value;
      CandidateNotBeaten(x, majority, auds, v, controls[v], vote.value, now);
      forall u | u in vols && u in controls && |controls[u]| >= majority
        ensures NotBeaten(auds, now, u, controls[u])
      {
        if replaced {
          NotBeatenByBetter(auds, best.value, now, u, controls[u]);
        }
      }
    }
  }

  lemma UsedUpOk(x: Known, majority: nat, vol: Id, votes: Control, after: Control)
    requires ControlOk(x, majority, vol, votes)
    requires after.Keys <= votes.Keys && forall k :: k in after ==> after[k] == votes[k]
    ensures ControlOk(x, majority, vol, after)
  {
    SubsetSize(after.Keys, votes.Keys);
  }

  ghost predicate AllControlsOk(x: Known, majority: nat, controls: map<Id, Control>) {
    forall v :: v in controls ==> ControlOk(x, majority, v, controls[v])
  }

  lemma ControlReplaced(x: Known, majority: nat, controls: map<Id, Control>, vol: Id, votes: Control)
    requires AllControlsOk(x, majority, controls) && ControlOk(x, majority, vol, votes)
    ensures AllControlsOk(x, majority, controls[vol := votes])
  {
  }

  predicate HasSigner(votes: seq<Vote>, signer: Id) {
    exists i :: 0 <= i < |votes| && votes[i].signer == signer
  }
}
