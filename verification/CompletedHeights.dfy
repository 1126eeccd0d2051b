/** The window of completed heights (engine/pluginMap.go:156-209): a slice of completion times that
    slides upwards, seen as a map from heights to times without bounds. */
module CompletedHeights {

  /** The reference: heights below `base` are done with; `times` has when a height was last let through. */
  datatype Record = Record(base: int, times: map<int, int>)

  const RETRY_SECONDS := 240
  const MIN_GROWTH := 500
  const MIN_CLEAR := 200

  predicate Allows(r: Record, height: int, now: int) {
    height >= r.base && (height in r.times ==> r.times[height] <= now - RETRY_SECONDS)
  }

  function Completed(r: Record, height: int, now: int): Record {
    if Allows(r, height, now) then r.(times := r.times[height := now]) else r
  }

  function ClearedTo(r: Record, height: int): Record {
    if height <= r.base + MIN_CLEAR then r
    else Record(height, map h | h in r.times && h >= height :: r.times[h])
  }

  function TimeAt(base: int, completed: seq<int>, h: int): int {
    if base <= h < base + |completed| then completed[h - base] else 0
  }

  /** The times a window holds: a zero means never. */
  function Times(base: int, completed: seq<int>): map<int, int> {
    map h | base <= h < base + |completed| && TimeAt(base, completed, h) != 0 :: TimeAt(base, completed, h)
  }

  class CompletedHeightsManager {
    var completed: seq<int>
    var base: int

    function View(): Record
      reads this
    {
      Record(base, Times(base, completed))
    }

    constructor ()
      ensures View() == Record(0, map[])
    {
      completed, base := [], 0;
    }

    /** Whether the height may be processed now. The clock is positive. */
    method CompleteHeight(height: int, now: int) returns (allowed: bool)
      requires now > 0
      modifies this
      ensures allowed <==> Allows(old(View()), height, now)
      ensures View() == Completed(old(View()), height, now)
    {
      if height < base {
        return false;
      }
      var endHeight := |completed| + base;
      if endHeight <= height {
        var needed := height - endHeight + 1;
        if needed < MIN_GROWTH {
          needed := MIN_GROWTH;
        }
        GrowthAddsNothing(base, completed, needed);
        completed := completed + seq(needed, _ => 0);
      }
      var last := completed[height - base];
      SetTime(base, completed, height, now);
      if last == 0 {
        completed := completed[height - base := now];
        return true;
      } else if now - RETRY_SECONDS < last {
        return false;
      }
      completed := completed[height - base := now];
      return true;
    }

    method ClearTo(height: int)
      modifies this
      ensures View() == ClearedTo(old(View()), height)
    {
      if height <= base + MIN_CLEAR {
        return;
      }
      var clear := height - base;
      SlidTimes(base, completed, height);
      base := height;
      if |completed| < clear {
        completed := [];
        return;
      }
      completed := completed[clear..];
    }
  }

  lemma GrowthAddsNothing(base: int, completed: seq<int>, n: nat)
    ensures Times(base, completed + seq(n, _ => 0)) == Times(base, completed)
  {
  }

  lemma SetTime(base: int, completed: seq<int>, height: int, now: int)
    requires base <= height < base + |completed| && now != 0
    ensures Times(base, completed[height - base := now]) == Times(base, completed)[height := now]
    ensures height in Times(base, completed) <==> completed[height - base] != 0
  {
  }

  lemma SlidTimes(base: int, completed: seq<int>, height: int)
    requires height >= base
    ensures Times(height, if |completed| < height - base then [] else completed[height - base..])
         == map h | h in Times(base, completed) && h >= height :: Times(base, completed)[h]
  {
  }

  // ---------------------------------------------------------------- whole runs

  datatype Op = Complete(height: int, now: int) | Clear(upTo: int)

  function Step(r: Record, op: Op): Record {
    match op
    case Complete(height, now) => Completed(r, height, now)
    case Clear(upTo) => ClearedTo(r, upTo)
  }

  function After(r: Record, ops: seq<Op>): Record {
    if ops == [] then r else Step(After(r, ops[..|ops| - 1]), ops[|ops| - 1])
  }

  /** Operation `n` of the run asks for the height and is let through. */
  ghost predicate Accepted(r: Record, ops: seq<Op>, n: nat, height: int)
    requires n < |ops|
  {
    ops[n].Complete? && ops[n].height == height && Allows(After(r, ops[..n]), height, ops[n].now)
  }

  /** The clock never goes back. */
  ghost predicate ClockAdvances(ops: seq<Op>) {
    forall i, j :: 0 <= i <= j < |ops| && ops[i].Complete? && ops[j].Complete? ==> ops[i].now <= ops[j].now
  }

  /** The window only moves up. */
  lemma {:induction false} BaseNeverDecreases(r: Record, ops: seq<Op>, n: nat)
    requires n <= |ops|
    ensures After(r, ops[..n]).base <= After(r, ops).base
    decreases |ops|
  {
    if n == |ops| {
      assert ops[..n] == ops;
    } else {
      var before := ops[..|ops| - 1];
      assert before[..n] == ops[..n];
      BaseNeverDecreases(r, before, n);
    }
  }

  /** Once let through, a height stays on record with that time or a later one, until it is cleared. */
  lemma {:induction false} AcceptedIsRemembered(r: Record, ops: seq<Op>, i: nat, height: int)
    requires i < |ops| && Accepted(r, ops, i, height) && ClockAdvances(ops)
    ensures var s := After(r, ops);
            height < s.base || (height in s.times && s.times[height] >= ops[i].now)
    decreases |ops|
  {
    var last := |ops| - 1;
    var before := ops[..last];
    if i < last {
      assert before[..i] == ops[..i] && before[i] == ops[i];
      assert Accepted(r, before, i, height);
      ClockPrefix(ops);
      AcceptedIsRemembered(r, before, i, height);
    }
  }

  lemma ClockPrefix(ops: seq<Op>)
    requires ops != [] && ClockAdvances(ops)
    ensures ClockAdvances(ops[..|ops| - 1])
  {
  }

  /** In any interleaving of completions and clearings, two acceptances of one height are at least
      four minutes apart. */
  lemma AcceptancesAreApart(r: Record, ops: seq<Op>, i: nat, j: nat, height: int)
    requires i < j < |ops| && ClockAdvances(ops)
    requires Accepted(r, ops, i, height) && Accepted(r, ops, j, height)
    ensures ops[j].now - ops[i].now >= RETRY_SECONDS
  {
    var before := ops[..j];
    assert before[..i] == ops[..i] && before[i] == ops[i];
    assert Accepted(r, before, i, height);
    assert ClockAdvances(before);
    AcceptedIsRemembered(r, before, i, height);
  }

  /** A height below the window is never let through again. */
  lemma ClearedIsNeverAccepted(r: Record, ops: seq<Op>, i: nat, j: nat, height: int)
    requires i <= j < |ops| && height < After(r, ops[..i]).base
    ensures !Accepted(r, ops, j, height)
  {
    assert ops[..j][..i] == ops[..i];
    BaseNeverDecreases(r, ops[..j], i);
  }

  /** Whatever is on record was let through at that time. */
  lemma {:induction false} OnRecordWasAccepted(r: Record, ops: seq<Op>, height: int)
    requires r.times == map[] && height in After(r, ops).times
    ensures exists n: nat :: n < |ops| && Accepted(r, ops, n, height) && ops[n].now == After(r, ops).times[height]
    decreases |ops|
  {
    var last := |ops| - 1;
    var before := ops[..last];
    var s := After(r, before);
    if ops[last].Complete? && ops[last].height == height && Allows(s, height, ops[last].now) {
      assert Accepted(r, ops, last, height);
    } else {
      OnRecordWasAccepted(r, before, height);
      var n: nat :| n < |before| && Accepted(r, before, n, height) && before[n].now == s.times[height];
      assert before[..n] == ops[..n];
      assert Accepted(r, ops, n, height);
    }
  }

  /** A height is let through exactly if the window has not passed it and it was not let through in the
      last four minutes, whatever happened before. */
  lemma LetThroughIff(ops: seq<Op>, height: int, now: int)
    requires ClockAdvances(ops)
    ensures var r := Record(0, map[]);
            Allows(After(r, ops), height, now) <==>
              && After(r, ops).base <= height
              && forall n: nat :: n < |ops| && Accepted(r, ops, n, height) ==> now - ops[n].now >= 4 * 60
  {
    var r := Record(0, map[]);
    var s := After(r, ops);
    if height in s.times {
      OnRecordWasAccepted(r, ops, height);
    }
    forall n: nat | n < |ops| && Accepted(r, ops, n, height)
      ensures height < s.base || (height in s.times && s.times[height] >= ops[n].now)
    {
      AcceptedIsRemembered(r, ops, n, height);
    }
  }

  /** Clearing moves the window up to the height or, if that is within 200 of where it stands, not at all;
      what is in the window stays there. */
  lemma ClearingLags(r: Record, height: int)
    ensures var c := ClearedTo(r, height);
            && c.base in {r.base, height} && r.base <= c.base && height - c.base <= 200
            && (c.base != r.base ==> height - r.base > 200)
            && (forall h :: h >= c.base ==> (h in c.times <==> h in r.times))
            && (forall h :: h in c.times ==> c.times[h] == r.times[h])
            && (c.base == r.base ==> c == r)
  {
  }
}
