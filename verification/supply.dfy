/**
  What one cycle of `main_loop` does with a `totalSupply()` reading, and what
  a finite run of cycles does, as functions of the readings. The watcher class
  in module Watcher is proved to follow these.
*/
module Supply {

  /** One `totalSupply()` read: the supply the contract returned, or an exception. */
  datatype Reading = Supply(value: nat) | ReadFailed

  /** `range(lo, hi)`: the ids lo, lo + 1, ..., hi - 1. */
  function Range(lo: nat, hi: nat): (r: seq<nat>)
    ensures |r| == if lo <= hi then hi - lo else 0
    ensures forall i :: 0 <= i < |r| ==> r[i] == lo + i
  {
    seq(if lo <= hi then hi - lo else 0, i requires 0 <= i => lo + i)
  }

  /** Every id at most once, and in ascending order. */
  ghost predicate StrictlyIncreasing(s: seq<nat>) {
    forall i, j :: 0 <= i < j < |s| ==> s[i] < s[j]
  }

  lemma RangeShape(lo: nat, hi: nat)
    ensures StrictlyIncreasing(Range(lo, hi))
    ensures forall x :: x in Range(lo, hi) <==> lo <= x < hi
  {
    var r := Range(lo, hi);
    forall x | lo <= x < hi ensures x in r {
      assert r[x - lo] == x;
    }
  }

  lemma {:induction false} RangeConcat(a: nat, b: nat, c: nat)
    requires a <= b <= c
    ensures Range(a, b) + Range(b, c) == Range(a, c)
  {
    var left, right := Range(a, b), Range(b, c);
    forall i | 0 <= i < |Range(a, c)| ensures (left + right)[i] == Range(a, c)[i] {
      if i >= |left| {
        assert (left + right)[i] == right[i - |left|];
      }
    }
  }

  lemma RangeSnoc(lo: nat, hi: nat)
    requires lo <= hi
    ensures Range(lo, hi + 1) == Range(lo, hi) + [hi]
  {
    RangeConcat(lo, hi, hi + 1);
    assert Range(hi, hi + 1) == [hi];
  }

  /** The supply the watcher remembers after a cycle that started from `last`. */
  function NextSupply(last: nat, r: Reading): (next: nat)
    ensures next >= last
    ensures r.Supply? ==> next >= r.value
    ensures next == last || r == Supply(next)
  {
    if r.Supply? && r.value > last then r.value else last
  }

  /** The token ids a cycle processes, in the order it processes them. */
  function CycleIds(last: nat, r: Reading): (ids: seq<nat>)
    ensures |ids| == NextSupply(last, r) - last
    ensures forall i :: 0 <= i < |ids| ==> ids[i] == last + 1 + i
  {
    if r.Supply? && r.value > last then Range(last + 1, r.value + 1) else []
  }

  /**
    A cycle processes exactly the ids above the remembered supply up to the new
    one, once each, ascending; a failed read, an equal supply or a lower supply
    processes nothing and leaves the remembered supply alone.
  */
  lemma CycleShape(last: nat, r: Reading)
    ensures CycleIds(last, r) == Range(last + 1, NextSupply(last, r) + 1)
    ensures StrictlyIncreasing(CycleIds(last, r))
    ensures forall x :: x in CycleIds(last, r) <==> last < x <= NextSupply(last, r)
    ensures !(r.Supply? && r.value > last) ==> CycleIds(last, r) == [] && NextSupply(last, r) == last
  {
    RangeShape(last + 1, NextSupply(last, r) + 1);
  }

  /** The remembered supply after the cycles `rs`. */
  function RunSupply(last: nat, rs: seq<Reading>): (final: nat)
    ensures final >= last
    decreases |rs|
  {
    if rs == [] then last else RunSupply(NextSupply(last, rs[0]), rs[1..])
  }

  /** The token ids processed over the cycles `rs`, in order. */
  function RunIds(last: nat, rs: seq<Reading>): (ids: seq<nat>)
    ensures forall i :: 0 <= i < |ids| ==> last < ids[i] <= RunSupply(last, rs)
    decreases |rs|
  {
    if rs == [] then [] else CycleIds(last, rs[0]) + RunIds(NextSupply(last, rs[0]), rs[1..])
  }

  /** The first cycle of a run, and the rest of the run from where it leaves the supply. */
  lemma RunStep(last: nat, rs: seq<Reading>)
    requires rs != []
    ensures RunSupply(last, rs) == RunSupply(NextSupply(last, rs[0]), rs[1..])
    ensures RunIds(last, rs) == CycleIds(last, rs[0]) + RunIds(NextSupply(last, rs[0]), rs[1..])
  {
  }

  /** `m` is the largest of the starting supply and every successful reading in `rs`. */
  ghost predicate IsHighest(m: nat, start: nat, rs: seq<Reading>) {
    && m >= start
    && (forall i :: 0 <= i < |rs| && rs[i].Supply? ==> rs[i].value <= m)
    && (m == start || exists i :: 0 <= i < |rs| && rs[i] == Supply(m))
  }

  /** Over a run the remembered supply ends at the highest supply seen. */
  lemma {:induction false} RunSupplyHighest(start: nat, rs: seq<Reading>)
    ensures IsHighest(RunSupply(start, rs), start, rs)
    decreases |rs|
  {
    if rs != [] {
      var next := NextSupply(start, rs[0]);
      var rest := rs[1..];
      RunSupplyHighest(next, rest);
      var m := RunSupply(start, rs);
      assert m == RunSupply(next, rest);
      forall i | 0 <= i < |rs| && rs[i].Supply? ensures rs[i].value <= m {
        if i > 0 {
          assert rs[i] == rest[i - 1];
        }
      }
      if m != start && m != next {
        var i :| 0 <= i < |rest| && rest[i] == Supply(m);
        assert rs[i + 1] == Supply(m);
      }
    }
  }

  /** Over a run the ids processed are those above the starting supply up to the final one. */
  lemma {:induction false} RunIdsRange(start: nat, rs: seq<Reading>)
    ensures RunIds(start, rs) == Range(start + 1, RunSupply(start, rs) + 1)
    decreases |rs|
  {
    if rs != [] {
      var next := NextSupply(start, rs[0]);
      var rest := rs[1..];
      RunIdsRange(next, rest);
      var m := RunSupply(next, rest);
      assert RunSupply(start, rs) == m;
      assert RunIds(start, rs) == CycleIds(start, rs[0]) + RunIds(next, rest);
      assert CycleIds(start, rs[0]) == Range(start + 1, next + 1);
      RangeConcat(start + 1, next + 1, m + 1);
    }
  }

  /**
    The processed ids of a run are exactly those above the starting supply up
    to the highest supply seen, once each and ascending.
  */
  lemma RunShape(start: nat, rs: seq<Reading>)
    ensures IsHighest(RunSupply(start, rs), start, rs)
    ensures RunIds(start, rs) == Range(start + 1, RunSupply(start, rs) + 1)
    ensures StrictlyIncreasing(RunIds(start, rs))
    ensures forall x :: x in RunIds(start, rs) <==> start < x <= RunSupply(start, rs)
  {
    RunSupplyHighest(start, rs);
    RunIdsRange(start, rs);
    RangeShape(start + 1, RunSupply(start, rs) + 1);
  }

  lemma {:induction false} RunSupplyAppend(start: nat, a: seq<Reading>, b: seq<Reading>)
    ensures RunSupply(start, a + b) == RunSupply(RunSupply(start, a), b)
    decreases |a|
  {
    if a == [] {
      assert a + b == b;
    } else {
      var next := NextSupply(start, a[0]);
      assert (a + b)[0] == a[0] && (a + b)[1..] == a[1..] + b;
      assert RunSupply(start, a + b) == RunSupply(next, a[1..] + b);
      RunSupplyAppend(next, a[1..], b);
    }
  }

  lemma {:induction false} RunIdsAppend(start: nat, a: seq<Reading>, b: seq<Reading>)
    ensures RunIds(start, a + b) == RunIds(start, a) + RunIds(RunSupply(start, a), b)
    decreases |a|
  {
    if a == [] {
      assert a + b == b;
    } else {
      var next := NextSupply(start, a[0]);
      assert (a + b)[0] == a[0] && (a + b)[1..] == a[1..] + b;
      assert RunIds(start, a + b) == CycleIds(start, a[0]) + RunIds(next, a[1..] + b);
      RunIdsAppend(next, a[1..], b);
      assert RunSupply(start, a) == RunSupply(next, a[1..]);
    }
  }

  /** The remembered supply never decreases: a later point of a run is never below an earlier one. */
  lemma {:induction false} RunSupplyMonotone(start: nat, rs: seq<Reading>, i: nat, j: nat)
    requires i <= j <= |rs|
    ensures start <= RunSupply(start, rs[..i]) <= RunSupply(start, rs[..j])
  {
    assert rs[..j] == rs[..i] + rs[i..j];
    RunSupplyAppend(start, rs[..i], rs[i..j]);
    RunSupplyHighest(start, rs[..i]);
    RunSupplyHighest(RunSupply(start, rs[..i]), rs[i..j]);
  }

  /**
    Supply 5 at start-up, a failed read, then 7 twice and a dip to 6: tokens 6
    and 7 are processed once each, in that order, and the watcher stays at 7.
  */
  lemma {:induction false} SkippedPollScenario()
    ensures RunIds(5, [ReadFailed, Supply(7), Supply(7), Supply(6)]) == [6, 7]
    ensures RunSupply(5, [ReadFailed, Supply(7), Supply(7), Supply(6)]) == 7
  {
    var rs := [ReadFailed, Supply(7), Supply(7), Supply(6)];
    RunIdsRange(5, rs);
    RunStep(5, rs);
    RunStep(5, rs[1..]);
    RunStep(7, rs[2..]);
    RunStep(7, rs[3..]);
    assert rs[4..] == [];
    var r := Range(6, 8);
    assert r[0] == 6 && r[1] == 7;
  }

  /**
    A supply that drops (a burn) and climbs back to where it was hides the
    token minted in between: nothing is processed.
  */
  lemma {:induction false} DipHidesRemint()
    ensures RunIds(5, [Supply(4), Supply(5)]) == []
    ensures RunSupply(5, [Supply(4), Supply(5)]) == 5
  {
    var rs := [Supply(4), Supply(5)];
    RunStep(5, rs);
    RunStep(5, rs[1..]);
    assert rs[2..] == [];
  }
}
