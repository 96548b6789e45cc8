/** Free slots of the coming days, joined into the longest runs of half-hour steps. */
module Rebooking {
  import opened Sorting
  import opened SlotTimes

  const STEP: nat := 30

  type Group = seq<string>

  predicate Valid(slots: seq<string>) {
    forall i :: 0 <= i < |slots| ==> IsSlotTime(slots[i])
  }

  predicate Adjacent(previous: string, next: string) {
    IsSlotTime(previous) && IsSlotTime(next) && Minutes(next) - Minutes(previous) == STEP
  }

  function Joined(groups: seq<Group>): seq<string> {
    if groups == [] then [] else Joined(groups[..|groups| - 1]) + groups[|groups| - 1]
  }

  /** Neighbours inside a group are one step apart. */
  predicate Unbroken(g: Group) {
    Valid(g) && forall i :: 0 <= i < |g| - 1 ==> Adjacent(g[i], g[i + 1])
  }

  /** Groups are not empty, unbroken, and no group could be continued by the next. */
  predicate MaximalRuns(groups: seq<Group>) {
    && (forall i :: 0 <= i < |groups| ==> groups[i] != [] && Unbroken(groups[i]))
    && (forall i :: 0 <= i < |groups| - 1 ==> !Adjacent(groups[i][|groups[i]| - 1], groups[i + 1][0]))
  }

  // One more slot, extending the last group or opening a new one.
  function WithSlot(groups: seq<Group>, slot: string): seq<Group> {
    var last := |groups| - 1;
    if last >= 0 && groups[last] != [] && Adjacent(groups[last][|groups[last]| - 1], slot)
    then groups[last := groups[last] + [slot]]
    else groups + [[slot]]
  }

  function Grouped(sorted: seq<string>): seq<Group> {
    if sorted == [] then [] else WithSlot(Grouped(sorted[..|sorted| - 1]), sorted[|sorted| - 1])
  }

  /** Grouping yields maximal runs and loses no slot; `RunsUnique` says nothing else does. */
  lemma {:induction false} GroupedRuns(sorted: seq<string>)
    requires Valid(sorted)
    ensures MaximalRuns(Grouped(sorted)) && Joined(Grouped(sorted)) == sorted
  {
    hide IsSlotTime, Minutes, MaximalRuns;
    if sorted == [] {
      NoRuns();
    } else {
      var n := |sorted| - 1;
      GroupedRuns(sorted[..n]);
      OneMoreSlot(Grouped(sorted[..n]), sorted[n]);
      assert sorted == sorted[..n] + [sorted[n]];
    }
  }

  lemma NoRuns()
    ensures MaximalRuns([])
  {}

  lemma OneMoreSlot(groups: seq<Group>, slot: string)
    requires MaximalRuns(groups) && IsSlotTime(slot)
    ensures MaximalRuns(WithSlot(groups, slot)) && Joined(WithSlot(groups, slot)) == Joined(groups) + [slot]
  {
    hide IsSlotTime, Minutes, Adjacent;
    if groups == [] {
      assert Unbroken([slot]);
      assert [[slot]][..0] == [];
    } else {
      var current := groups[|groups| - 1];
      if Adjacent(current[|current| - 1], slot) {
        Extended(groups, slot);
      } else {
        Opened(groups, slot);
      }
    }
  }

  /** Walks through the sorted slots, extending the last group or opening a new one. */
  method GroupAdjacentSlots(slots: seq<string>) returns (groups: seq<Group>)
    requires Valid(slots)
    ensures groups == Grouped(Sort(NotLater, slots))
    ensures Joined(groups) == Sort(NotLater, slots)
    ensures MaximalRuns(groups)
    ensures TotalSlots(groups) == |slots|
  {
    hide IsSlotTime, Minutes, Adjacent, Joined;
    var sorted := Sort(NotLater, slots);
    SortedValid(slots);
    groups := [];
    NoRuns();
    for i := 0 to |sorted|
      invariant groups == Grouped(sorted[..i]) && MaximalRuns(groups)
    {
      var slot := sorted[i];
      assert sorted[..i + 1][..i] == sorted[..i];
      OneMoreSlot(groups, slot);
      if groups == [] {
        groups := [[slot]];
      } else {
        var last := |groups| - 1;
        var current := groups[last];
        if Adjacent(current[|current| - 1], slot) {
          groups := groups[last := current + [slot]];
        } else {
          groups := groups + [[slot]];
        }
      }
    }
    assert sorted[..|sorted|] == sorted;
    GroupedRuns(sorted);
    CountsAddUp(groups);
    SortMembers(NotLater, slots, "");
  }

  lemma SortedValid(slots: seq<string>)
    requires Valid(slots)
    ensures Valid(Sort(NotLater, slots)) && Ordered(NotLater, Sort(NotLater, slots))
  {
    SortOrdered(NotLater, slots);
    var sorted := Sort(NotLater, slots);
    forall i | 0 <= i < |sorted| ensures IsSlotTime(sorted[i]) {
      SortMembers(NotLater, slots, sorted[i]);
    }
  }

  lemma Extended(groups: seq<Group>, slot: string)
    requires MaximalRuns(groups) && groups != [] && IsSlotTime(slot)
    requires var current := groups[|groups| - 1]; Adjacent(current[|current| - 1], slot)
    ensures var after := groups[|groups| - 1 := groups[|groups| - 1] + [slot]];
            MaximalRuns(after) && Joined(after) == Joined(groups) + [slot]
  {
    hide IsSlotTime, Adjacent;
    var last := |groups| - 1;
    var current := groups[last] + [slot];
    var after := groups[last := current];
    assert after[..last] == groups[..last];
    LongerRun(groups[last], slot);
    forall i | 0 <= i < |after| - 1 ensures !Adjacent(after[i][|after[i]| - 1], after[i + 1][0]) {
      assert !Adjacent(groups[i][|groups[i]| - 1], groups[i + 1][0]);
    }
  }

  lemma LongerRun(g: Group, slot: string)
    requires g != [] && Unbroken(g) && IsSlotTime(slot) && Adjacent(g[|g| - 1], slot)
    ensures Unbroken(g + [slot])
  {
    hide IsSlotTime, Adjacent;
    var longer := g + [slot];
    forall i | 0 <= i < |longer| - 1 ensures Adjacent(longer[i], longer[i + 1]) {
      if i < |g| - 1 {
        assert Adjacent(g[i], g[i + 1]);
      }
    }
  }

  lemma Opened(groups: seq<Group>, slot: string)
    requires MaximalRuns(groups) && groups != [] && IsSlotTime(slot)
    requires var current := groups[|groups| - 1]; !Adjacent(current[|current| - 1], slot)
    ensures MaximalRuns(groups + [[slot]]) && Joined(groups + [[slot]]) == Joined(groups) + [slot]
  {
    hide IsSlotTime, Minutes;
    assert (groups + [[slot]])[..|groups|] == groups;
    assert Unbroken([slot]);
  }

  // ---------------------------------------------------------------------------
  // There is only one such grouping
  // ---------------------------------------------------------------------------

  /** Maximal runs with the same slots in the same order are the same groups. */
  lemma {:induction false} RunsUnique(a: seq<Group>, b: seq<Group>)
    requires MaximalRuns(a) && MaximalRuns(b) && Joined(a) == Joined(b)
    ensures a == b
    decreases |a|
  {
    hide Adjacent, Joined, Unbroken;
    if a == [] || b == [] {
      if a != [] {
        NonEmptyJoined(a);
      }
      if b != [] {
        NonEmptyJoined(b);
      }
      NothingJoined();
    } else {
      var m, n := |a| - 1, |b| - 1;
      SameLast(a, b);
      RunsUnique(a[..m], b[..n]);
      assert a == a[..m] + [a[m]] && b == b[..n] + [b[n]];
    }
  }

  lemma NothingJoined()
    ensures Joined([]) == []
  {}

  lemma SameLast(a: seq<Group>, b: seq<Group>)
    requires MaximalRuns(a) && MaximalRuns(b) && Joined(a) == Joined(b) && a != [] && b != []
    ensures a[|a| - 1] == b[|b| - 1]
    ensures Joined(a[..|a| - 1]) == Joined(b[..|b| - 1])
  {
    hide MaximalRuns;
    var m, n := |a| - 1, |b| - 1;
    LastNotLonger(a, b);
    LastNotLonger(b, a);
    var all, cut := Joined(a), |Joined(a[..m])|;
    assert all == Joined(a[..m]) + a[m] && all == Joined(b[..n]) + b[n];
    assert all[cut..] == a[m] && all[cut..] == b[n];
    assert all[..cut] == Joined(a[..m]) && all[..cut] == Joined(b[..n]);
  }

  lemma NonEmptyJoined(groups: seq<Group>)
    requires MaximalRuns(groups) && groups != []
    ensures Joined(groups) != []
  {}

  // The last group is a run, and the slot before it, if any, breaks off.
  lemma LastGroup(groups: seq<Group>)
    requires MaximalRuns(groups) && groups != []
    ensures var all, last := Joined(groups), groups[|groups| - 1];
            var cut := |all| - |last|;
            && cut >= 0
            && (forall k :: cut < k < |all| ==> Adjacent(all[k - 1], all[k]))
            && (cut > 0 ==> !Adjacent(all[cut - 1], all[cut]))
  {
    hide Adjacent;
    var n := |groups| - 1;
    var all, last := Joined(groups), groups[n];
    var cut := |all| - |last|;
    forall k | cut < k < |all| ensures Adjacent(all[k - 1], all[k]) {
      assert Adjacent(last[k - cut - 1], last[k - cut - 1 + 1]);
    }
    assert all == Joined(groups[..n]) + last;
    if n == 0 {
      assert Joined(groups[..n]) == [];
    } else {
      var before := groups[n - 1];
      assert groups[..n][n - 1] == before && Joined(groups[..n]) == Joined(groups[..n][..n - 1]) + before;
      assert all[cut - 1] == before[|before| - 1] && all[cut] == last[0];
      assert !Adjacent(groups[n - 1][|groups[n - 1]| - 1], groups[n - 1 + 1][0]);
    }
  }

  lemma LastNotLonger(a: seq<Group>, b: seq<Group>)
    requires MaximalRuns(a) && MaximalRuns(b) && Joined(a) == Joined(b) && a != [] && b != []
    ensures |a[|a| - 1]| <= |b[|b| - 1]|
  {
    hide Adjacent, Joined;
    LastGroup(a);
    LastGroup(b);
  }

  // ---------------------------------------------------------------------------
  // Where a group ends, and how many slots it holds
  // ---------------------------------------------------------------------------

  // No wrap: a group up to half past eleven at night ends at "24:00".
  function EndTime(g: Group): string
    requires g != [] && Valid(g)
  {
    TimeText(Minutes(g[|g| - 1]) + STEP)
  }

  lemma {:induction false} InsideRun(g: Group, k: nat)
    requires Unbroken(g) && k < |g|
    ensures Minutes(g[k]) == Minutes(g[0]) + STEP * k
  {
    hide IsSlotTime, Minutes;
    if k > 0 {
      InsideRun(g, k - 1);
      assert Adjacent(g[k - 1], g[k - 1 + 1]);
    }
  }

  /** A group ends one step per slot after its start. */
  lemma EndOfRun(g: Group)
    requires g != [] && Unbroken(g)
    ensures Minutes(g[0]) + STEP * |g| < 6000
    ensures EndTime(g) == TimeText(Minutes(g[0]) + STEP * |g|)
  {
    hide IsSlotTime, Minutes, TimeText;
    InsideRun(g, |g| - 1);
  }

  function TotalSlots(groups: seq<Group>): nat {
    if groups == [] then 0 else TotalSlots(groups[..|groups| - 1]) + |groups[|groups| - 1]|
  }

  lemma {:induction false} CountsAddUp(groups: seq<Group>)
    ensures TotalSlots(groups) == |Joined(groups)|
  {
    if groups != [] {
      CountsAddUp(groups[..|groups| - 1]);
    }
  }

  /** In sorted slots the groups come in order: none starts before the one before it has had its last slot. */
  lemma {:induction false} RunsInOrder(groups: seq<Group>, i: nat)
    requires MaximalRuns(groups) && Ordered(NotLater, Joined(groups)) && i + 1 < |groups|
    ensures Minutes(groups[i][|groups[i]| - 1]) <= Minutes(groups[i + 1][0])
  {
    hide IsSlotTime, Minutes, Adjacent;
    var n := |groups| - 1;
    var earlier := groups[..n];
    assert Joined(groups) == Joined(earlier) + groups[n];
    if i + 1 < n {
      forall j, k | 0 <= j < k < |Joined(earlier)| ensures NotLater(Joined(earlier)[j], Joined(earlier)[k]) {
        assert NotLater(Joined(groups)[j], Joined(groups)[k]);
      }
      RunsInOrder(earlier, i);
    } else {
      var cut := |Joined(earlier)|;
      assert earlier[i] == groups[i] && Joined(earlier) == Joined(earlier[..i]) + groups[i];
      assert Joined(groups)[cut - 1] == groups[i][|groups[i]| - 1] && Joined(groups)[cut] == groups[n][0];
      assert NotLater(Joined(groups)[cut - 1], Joined(groups)[cut]);
    }
  }
}
