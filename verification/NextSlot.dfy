/** The slot editor's own normal form of a list of times, and its search for the next free one. */
module NextSlot {
  import opened Sorting
  import opened Sets
  import opened SlotTimes

  // What JavaScript trims.
  predicate IsSpace(c: char) {
    c in {' ', '\t', '\n', '\r', '\U{000B}', '\U{000C}', '\U{00A0}', '\U{1680}', '\U{2028}', '\U{2029}', '\U{202F}',
          '\U{205F}', '\U{3000}', '\U{FEFF}'} || '\U{2000}' <= c <= '\U{200A}'
  }

  function Trim(s: string): string {
    if s == "" then ""
    else if IsSpace(s[0]) then Trim(s[1..])
    else if IsSpace(s[|s| - 1]) then Trim(s[..|s| - 1])
    else s
  }

  lemma TrimKeepsTimes(s: string)
    requires IsSlotTime(s)
    ensures Trim(s) == s
  {}

  ghost predicate Blank(s: string) {
    forall i :: 0 <= i < |s| ==> IsSpace(s[i])
  }

  /** Trimming takes the white space off both ends and leaves all that is between. */
  lemma {:induction false} TrimExact(s: string) returns (left: string, right: string)
    ensures s == left + Trim(s) + right && Blank(left) && Blank(right)
    ensures Trim(s) != "" ==> !IsSpace(Trim(s)[0]) && !IsSpace(Trim(s)[|Trim(s)| - 1])
    decreases |s|
  {
    hide IsSpace;
    left, right := "", "";
    if s != "" {
      var n := |s| - 1;
      if IsSpace(s[0]) {
        left, right := TrimExact(s[1..]);
        left := [s[0]] + left;
      } else if IsSpace(s[n]) {
        left, right := TrimExact(s[..n]);
        right := right + [s[n]];
      }
    }
  }

  function Trimmed(xs: seq<string>): seq<string> {
    if xs == [] then [] else [Trim(xs[0])] + Trimmed(xs[1..])
  }

  /** Times that are valid once trimmed, trimmed, each once, in order. */
  function NormalizeSlotTimes(times: seq<string>): seq<string> {
    Sort(NotLater, Distinct(Trimmed(Filter((t: string) => IsSlotTime(Trim(t)), times))))
  }

  lemma {:induction false} TrimmedValid(times: seq<string>)
    ensures Filter(IsSlotTime, Trimmed(times)) == Trimmed(Filter((t: string) => IsSlotTime(Trim(t)), times))
  {
    if times != [] {
      TrimmedValid(times[1..]);
      assert Trimmed(times)[1..] == Trimmed(times[1..]);
    }
  }

  lemma {:induction false} TrimmedMembers(times: seq<string>, t: string)
    ensures t in Trimmed(times) <==> exists x :: x in times && Trim(x) == t
  {
    hide Trim;
    if times != [] {
      TrimmedMembers(times[1..], t);
      assert times == [times[0]] + times[1..];
      if x :| x in times[1..] && Trim(x) == t {
        assert x in times;
      }
      assert times[0] in times;
    }
  }

  /** The editor's normal form is the server's, of the trimmed texts. */
  lemma EditorNormalForm(times: seq<string>)
    ensures NormalizeSlotTimes(times) == NormalSlots(Trimmed(times))
    ensures IsNormal(NormalizeSlotTimes(times))
    ensures forall t :: t in NormalizeSlotTimes(times) <==> IsSlotTime(t) && exists x :: x in times && Trim(x) == t
  {
    TrimmedValid(times);
    NormalSlotsMeaning(Trimmed(times));
    forall t ensures t in NormalizeSlotTimes(times) <==> IsSlotTime(t) && exists x :: x in times && Trim(x) == t {
      TrimmedMembers(times, t);
    }
  }

  // ---------------------------------------------------------------------------
  // The search
  // ---------------------------------------------------------------------------

  // Wraps at midnight, also for negative minutes.
  function MinutesToTime(m: int): string {
    TimeText(m % 1440)
  }

  function Used(xs: seq<string>): set<string> {
    set x | x in xs
  }

  function MaxAttempts(step: int): nat {
    var n := 1440 / (if step < 1 then 1 else step);
    if n < 1 then 1 else n
  }

  // The first candidate not in use, within so many attempts.
  function Search(used: set<string>, from: int, step: int, attempts: nat, fallback: string): string
    decreases attempts
  {
    if attempts == 0 then fallback
    else if MinutesToTime(from) !in used then MinutesToTime(from)
    else Search(used, from + step, step, attempts - 1, fallback)
  }

  function Next(times: seq<string>, fallback: string, step: int): string {
    var normalized := NormalizeSlotTimes(times);
    if normalized == [] then fallback
    else
      EditorNormalForm(times);
      Search(Used(normalized), Minutes(normalized[|normalized| - 1]) + step, step, MaxAttempts(step), fallback)
  }

  lemma NormalLast(xs: seq<string>)
    requires IsNormal(xs)
    ensures xs != [] ==> IsSlotTime(xs[|xs| - 1])
  {}

  // The search starts behind the last slot.
  lemma NextIsSearch(times: seq<string>, fallback: string, step: int)
    ensures var normalized := NormalizeSlotTimes(times);
            && IsNormal(normalized)
            && (normalized == [] ==> Next(times, fallback, step) == fallback)
            && (normalized != [] ==>
                  && IsSlotTime(normalized[|normalized| - 1])
                  && Next(times, fallback, step) ==
                     Search(Used(normalized), Minutes(normalized[|normalized| - 1]) + step, step, MaxAttempts(step), fallback))
  {
    hide NormalizeSlotTimes, MinutesToTime, IsNormal, MaxAttempts, Minutes, IsSlotTime, Search;
    EditorNormalForm(times);
    NormalLast(NormalizeSlotTimes(times));
  }

  method GetNextSlotTime(times: seq<string>, fallback: string, step: int) returns (r: string)
    ensures r == Next(times, fallback, step)
  {
    hide NormalizeSlotTimes, MinutesToTime, IsNormal, MaxAttempts, Minutes, IsSlotTime, Next;
    var normalized := NormalizeSlotTimes(times);
    NextIsSearch(times, fallback, step);
    if normalized == [] {
      return fallback;
    }
    var used := Used(normalized);
    var candidate := Minutes(normalized[|normalized| - 1]) + step;
    var attempt := 0;
    while attempt < MaxAttempts(step)
      invariant 0 <= attempt <= MaxAttempts(step)
      invariant Search(used, candidate, step, MaxAttempts(step) - attempt, fallback) == Next(times, fallback, step)
    {
      r := MinutesToTime(candidate);
      if r !in used {
        return;
      }
      candidate := candidate + step;
      attempt := attempt + 1;
    }
    r := fallback;
  }

  // ---------------------------------------------------------------------------
  // Candidates never repeat
  // ---------------------------------------------------------------------------

  ghost function Candidates(from: int, step: int, n: nat): set<string>
    decreases n
  {
    if n == 0 then {} else {MinutesToTime(from)} + Candidates(from + step, step, n - 1)
  }

  lemma SmallStepsDiffer(a: int, gap: int)
    requires 0 < gap < 1440
    ensures (a + gap) % 1440 != a % 1440
  {}

  lemma GapBound(step: int, n: nat, d: nat)
    requires 1 <= step && step * n <= 1440 && 0 < d < n
    ensures 0 < step * d < 1440
  {
    assert step * d <= step * (n - 1) by {
      assert step * (n - 1 - d) >= 0;
      assert step * (n - 1 - d) == step * (n - 1) - step * d;
    }
    assert step * (n - 1) == step * n - step;
    assert step * d >= 1 by {
      assert step * (d - 1) >= 0;
      assert step * d == step * (d - 1) + step;
    }
  }

  lemma {:induction false} CandidateIs(from: int, step: int, n: nat, c: string) returns (k: nat)
    requires c in Candidates(from, step, n)
    ensures k < n && c == MinutesToTime(from + step * k)
    decreases n
  {
    hide MinutesToTime;
    if c == MinutesToTime(from) {
      k := 0;
    } else {
      k := CandidateIs(from + step, step, n - 1, c);
      assert from + step + step * k == from + step * (k + 1);
      k := k + 1;
    }
  }

  lemma TimesDiffer(a: int, b: int)
    requires a % 1440 != b % 1440
    ensures MinutesToTime(a) != MinutesToTime(b)
  {
    TextIsSlotTime(a % 1440);
    TextIsSlotTime(b % 1440);
  }

  lemma {:induction false} CandidateCount(from: int, step: int, n: nat)
    requires 1 <= step && step * n <= 1440
    ensures |Candidates(from, step, n)| == n
    decreases n
  {
    hide MinutesToTime;
    if n > 0 {
      assert step * (n - 1) == step * n - step;
      CandidateCount(from + step, step, n - 1);
      var first, later := MinutesToTime(from), Candidates(from + step, step, n - 1);
      if first in later {
        var k := CandidateIs(from + step, step, n - 1, first);
        GapBound(step, n, k + 1);
        assert from + step + step * k == from + step * (k + 1);
        SmallStepsDiffer(from, step * (k + 1));
        TimesDiffer(from, from + step * (k + 1));
        assert false;
      }
      assert |{first} + later| == 1 + |later|;
    }
  }

  /** The search gives a candidate not in use, unless all of them are. */
  lemma {:induction false} SearchFinds(used: set<string>, from: int, step: int, attempts: nat, fallback: string)
    ensures var r := Search(used, from, step, attempts, fallback);
            if Candidates(from, step, attempts) <= used then r == fallback
            else r !in used && r in Candidates(from, step, attempts)
    decreases attempts
  {
    hide MinutesToTime;
    if attempts > 0 {
      SearchFinds(used, from + step, step, attempts - 1, fallback);
    }
  }

  lemma {:induction false} DistinctCount(xs: seq<string>)
    requires forall i, j :: 0 <= i < j < |xs| ==> xs[i] != xs[j]
    ensures |Used(xs)| == |xs|
  {
    if xs != [] {
      var n := |xs| - 1;
      DistinctCount(xs[..n]);
      assert xs == xs[..n] + [xs[n]];
      assert Used(xs) == Used(xs[..n]) + {xs[n]};
    }
  }

  lemma NormalCount(xs: seq<string>)
    requires IsNormal(xs)
    ensures |Used(xs)| == |xs|
  {
    DistinctCount(xs);
  }

  /** With fewer times in use than fit in a day at the given step, the search finds a valid free one. */
  lemma NextIsFree(times: seq<string>, fallback: string, step: int)
    requires 1 <= step && |NormalizeSlotTimes(times)| < 1440 / step
    requires NormalizeSlotTimes(times) == [] ==> IsSlotTime(fallback)
    ensures IsSlotTime(Next(times, fallback, step)) && Next(times, fallback, step) !in NormalizeSlotTimes(times)
  {
    hide NormalizeSlotTimes, IsNormal, IsSlotTime, Minutes, MaxAttempts, Search, Next;
    var normalized := NormalizeSlotTimes(times);
    NextIsSearch(times, fallback, step);
    if normalized != [] {
      StepsFit(step);
      NormalCount(normalized);
      FreeIsFound(Used(normalized), Minutes(normalized[|normalized| - 1]) + step, step, 1440 / step, fallback);
    }
  }

  lemma StepsFit(step: int)
    requires 1 <= step && 0 < 1440 / step
    ensures MaxAttempts(step) == 1440 / step && step * (1440 / step) <= 1440
  {}

  // With fewer times in use than candidates one of the candidates is free.
  lemma FreeIsFound(used: set<string>, from: int, step: int, n: nat, fallback: string)
    requires 1 <= step && step * n <= 1440 && |used| < n
    ensures IsSlotTime(Search(used, from, step, n, fallback)) && Search(used, from, step, n, fallback) !in used
  {
    hide Candidates, Search, IsSlotTime;
    CandidateCount(from, step, n);
    SearchFinds(used, from, step, n, fallback);
    if Candidates(from, step, n) <= used {
      SubsetSmaller(Candidates(from, step, n), used);
      assert false;
    }
    CandidatesValid(from, step, n, Search(used, from, step, n, fallback));
  }

  lemma CandidatesValid(from: int, step: int, n: nat, c: string)
    requires c in Candidates(from, step, n)
    ensures IsSlotTime(c)
  {
    hide TimeText, IsSlotTime;
    var k := CandidateIs(from, step, n, c);
    TextIsSlotTime((from + step * k) % 1440);
  }

  /** A free valid time raises the number of slots by exactly one. */
  lemma AddingRaisesCount(times: seq<string>, t: string)
    requires IsSlotTime(t) && t !in NormalizeSlotTimes(times)
    ensures |NormalizeSlotTimes(times + [t])| == |NormalizeSlotTimes(times)| + 1
  {
    hide NormalizeSlotTimes;
    EditorNormalForm(times);
    EditorNormalForm(times + [t]);
    TrimKeepsTimes(t);
    NormalCount(NormalizeSlotTimes(times));
    NormalCount(NormalizeSlotTimes(times + [t]));
    forall x ensures x in NormalizeSlotTimes(times + [t]) <==> x in NormalizeSlotTimes(times) || x == t {
      if x in NormalizeSlotTimes(times) {
        var y :| y in times && Trim(y) == x;
        assert y in times + [t];
      }
      if x == t {
        assert t in times + [t];
      }
    }
    assert Used(NormalizeSlotTimes(times + [t])) == Used(NormalizeSlotTimes(times)) + {t};
  }

  /** Adding the next slot therefore adds one slot. */
  lemma NextRaisesCount(times: seq<string>, step: int)
    requires 1 <= step && |NormalizeSlotTimes(times)| < 1440 / step
    ensures |NormalizeSlotTimes(times + [Next(times, "09:00", step)])| == |NormalizeSlotTimes(times)| + 1
  {
    hide NormalizeSlotTimes, Next;
    NextIsFree(times, "09:00", step);
    AddingRaisesCount(times, Next(times, "09:00", step));
  }
}
