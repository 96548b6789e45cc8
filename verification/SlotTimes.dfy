/** Times of day as "HH:MM" text, and the normal form of a list of them. */
module SlotTimes {
  import opened Numerals
  import opened Sorting

  function Digit(c: char): (d: nat)
    requires '0' <= c <= '9'
    ensures d < 10
  {
    c as int - '0' as int
  }

  predicate IsDigit(c: char) { '0' <= c <= '9' }

  /** Two digits up to 23, a colon, two digits up to 59. */
  predicate IsSlotTime(s: string) {
    && |s| == 5
    && ((s[0] in {'0', '1'} && IsDigit(s[1])) || (s[0] == '2' && '0' <= s[1] <= '3'))
    && s[2] == ':' && '0' <= s[3] <= '5' && IsDigit(s[4])
  }

  function Minutes(s: string): (m: nat)
    requires IsSlotTime(s)
    ensures m < 1440
  {
    (10 * Digit(s[0]) + Digit(s[1])) * 60 + 10 * Digit(s[3]) + Digit(s[4])
  }

  function TwoDigits(n: nat): (s: string)
    requires n < 100
  {
    [DIGITS[n / 10], DIGITS[n % 10]]
  }

  /** Hours and minutes, each padded to two digits; no wrap at midnight. */
  function TimeText(m: nat): (s: string)
    requires m < 6000
  {
    TwoDigits(m / 60) + ":" + TwoDigits(m % 60)
  }

  lemma DigitText(n: nat)
    requires n < 10
    ensures IsDigit(DIGITS[n]) && Digit(DIGITS[n]) == n
  {}

  lemma TextIsSlotTime(m: nat)
    requires m < 1440
    ensures IsSlotTime(TimeText(m)) && Minutes(TimeText(m)) == m
  {
    var h, r := m / 60, m % 60;
    assert h < 24 && r < 60;
    DigitText(h / 10);
    DigitText(h % 10);
    DigitText(r / 10);
    DigitText(r % 10);
    var s := TimeText(m);
    assert s == [DIGITS[h / 10], DIGITS[h % 10], ':', DIGITS[r / 10], DIGITS[r % 10]];
  }

  lemma MinutesInjective(s: string, t: string)
    requires IsSlotTime(s) && IsSlotTime(t) && Minutes(s) == Minutes(t)
    ensures s == t
  {
    assert s == [s[0], s[1], s[2], s[3], s[4]];
    assert t == [t[0], t[1], t[2], t[3], t[4]];
  }

  lemma TextOfMinutes(s: string)
    requires IsSlotTime(s)
    ensures TimeText(Minutes(s)) == s
  {
    TextIsSlotTime(Minutes(s));
    MinutesInjective(s, TimeText(Minutes(s)));
  }

  // The order of text, character by character.
  predicate TextLess(s: string, t: string) {
    t != "" && (s == "" || s[0] < t[0] || (s[0] == t[0] && TextLess(s[1..], t[1..])))
  }

  /** On valid times the order of text is the order of the clock. */
  lemma TextOrderIsClockOrder(s: string, t: string)
    requires IsSlotTime(s) && IsSlotTime(t)
    ensures TextLess(s, t) <==> Minutes(s) < Minutes(t)
  {
    assert s[1..][1..] == s[2..] && t[1..][1..] == t[2..];
    assert s[2..][1..] == s[3..] && t[2..][1..] == t[3..];
    assert s[3..][1..] == s[4..] && t[3..][1..] == t[4..];
    assert TextLess(s[4..], t[4..]) <==> s[4] < t[4] by {
      assert s[4..][1..] == "" && t[4..][1..] == "";
    }
    assert TextLess(s[3..], t[3..]) <==> s[3] < t[3] || (s[3] == t[3] && s[4] < t[4]);
    assert TextLess(s[2..], t[2..]) <==> TextLess(s[3..], t[3..]);
    assert TextLess(s[1..], t[1..]) <==> s[1] < t[1] || (s[1] == t[1] && TextLess(s[2..], t[2..]));
  }

  // ---------------------------------------------------------------------------
  // Normal form
  // ---------------------------------------------------------------------------

  function Rank(s: string): int {
    if IsSlotTime(s) then Minutes(s) else -1
  }

  const NotLater: Order<string> := (s, t) => Rank(s) <= Rank(t)

  /** Each element once, at its first position. */
  function Distinct(xs: seq<string>): seq<string> {
    if xs == [] then []
    else
      var n := |xs| - 1;
      if xs[n] in xs[..n] then Distinct(xs[..n]) else Distinct(xs[..n]) + [xs[n]]
  }

  function NormalSlots(xs: seq<string>): seq<string> {
    Sort(NotLater, Distinct(Filter(IsSlotTime, xs)))
  }

  predicate IsNormal(xs: seq<string>) {
    && (forall i :: 0 <= i < |xs| ==> IsSlotTime(xs[i]))
    && (forall i, j :: 0 <= i < j < |xs| ==> Minutes(xs[i]) < Minutes(xs[j]))
  }

  lemma {:induction false} DistinctMembers(xs: seq<string>)
    ensures forall x :: x in Distinct(xs) <==> x in xs
    ensures forall i, j :: 0 <= i < j < |Distinct(xs)| ==> Distinct(xs)[i] != Distinct(xs)[j]
  {
    if xs != [] {
      DistinctMembers(xs[..|xs| - 1]);
      assert xs == xs[..|xs| - 1] + [xs[|xs| - 1]];
    }
  }

  lemma OrderedDistinctIsNormal(xs: seq<string>, ys: seq<string>)
    requires Ordered(NotLater, ys) && multiset(xs) == multiset(ys)
    requires forall x :: x in xs ==> IsSlotTime(x)
    requires forall i, j :: 0 <= i < j < |xs| ==> xs[i] != xs[j]
    ensures IsNormal(ys)
  {
    forall i | 0 <= i < |ys| ensures IsSlotTime(ys[i]) {
      assert ys[i] in multiset(xs);
    }
    forall i, j | 0 <= i < j < |ys| ensures Minutes(ys[i]) < Minutes(ys[j]) {
      if Minutes(ys[i]) == Minutes(ys[j]) {
        MinutesInjective(ys[i], ys[j]);
        OnceIn(xs, ys[i]);
        TwiceIn(ys, i, j);
      }
    }
  }

  /** Normalising keeps exactly the valid times, each once, in clock order. */
  lemma NormalSlotsMeaning(xs: seq<string>)
    ensures IsNormal(NormalSlots(xs))
    ensures forall t :: t in NormalSlots(xs) <==> t in xs && IsSlotTime(t)
  {
    var valid := Filter(IsSlotTime, xs);
    var ds := Distinct(valid);
    DistinctMembers(valid);
    forall t ensures t in NormalSlots(xs) <==> t in xs && IsSlotTime(t) {
      FilterMembers(IsSlotTime, xs, t);
      SortMembers(NotLater, ds, t);
    }
    forall t ensures t in valid ==> IsSlotTime(t) {
      FilterMembers(IsSlotTime, xs, t);
    }
    SortOrdered(NotLater, ds);
    SortMultiset(NotLater, ds);
    OrderedDistinctIsNormal(ds, NormalSlots(xs));
  }

  /** A normal list is determined by its elements. */
  lemma {:induction false} NormalUnique(xs: seq<string>, ys: seq<string>)
    requires IsNormal(xs) && IsNormal(ys)
    requires forall t :: t in xs <==> t in ys
    ensures xs == ys
  {
    assert xs == [] <==> ys == [] by {
      if xs != [] {
        assert xs[0] in xs;
      }
      if ys != [] {
        assert ys[0] in ys;
      }
    }
    if xs != [] {
      assert xs[0] in xs && xs[0] in ys;
      assert ys[0] in ys && ys[0] in xs;
      assert xs[0] == ys[0];
      forall t ensures t in xs[1..] <==> t in ys[1..] {
        if t in xs[1..] {
          assert t in ys;
        }
        if t in ys[1..] {
          assert t in xs;
        }
      }
      NormalUnique(xs[1..], ys[1..]);
      assert xs == [xs[0]] + xs[1..] && ys == [ys[0]] + ys[1..];
    }
  }

  /** A list already normal is left as it is; so normalising twice is normalising once. */
  lemma NormalSlotsFixed(xs: seq<string>)
    requires IsNormal(xs)
    ensures NormalSlots(xs) == xs
  {
    NormalSlotsMeaning(xs);
    NormalUnique(NormalSlots(xs), xs);
  }
}
