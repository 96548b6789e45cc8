/**
 Tenant slugs: a base made from the lower-cased Latin form of the name, and a numbered search for one
 not in use. The name's transliteration is taken as given: any text may come in.
 */
module Slug {
  import opened Numerals
  import opened Sets
  import opened NextSlot

  predicate IsAlnum(c: char) { 'a' <= c <= 'z' || '0' <= c <= '9' }

  // Drops everything but letters, digits, white space and dashes.
  function Kept(s: string): string {
    if s == "" then ""
    else if IsAlnum(s[0]) || IsSpace(s[0]) || s[0] == '-' then [s[0]] + Kept(s[1..])
    else Kept(s[1..])
  }

  // Each longest run of white space becomes one dash.
  function SpacesToDashes(s: string): string {
    if s == "" then ""
    else if !IsSpace(s[0]) then [s[0]] + SpacesToDashes(s[1..])
    else if |s| > 1 && IsSpace(s[1]) then SpacesToDashes(s[1..])
    else "-" + SpacesToDashes(s[1..])
  }

  // Each longest run of dashes becomes one dash.
  function CollapseDashes(s: string): string {
    if s == "" then ""
    else if s[0] == '-' && |s| > 1 && s[1] == '-' then CollapseDashes(s[1..])
    else [s[0]] + CollapseDashes(s[1..])
  }

  function First40(s: string): string {
    if |s| <= 40 then s else s[..40]
  }

  function Collapsed(text: string): string {
    CollapseDashes(SpacesToDashes(Kept(text)))
  }

  function BaseSlug(text: string): string {
    var slug := First40(Collapsed(text));
    if slug == "" then "master" else slug
  }

  // ---------------------------------------------------------------------------
  // The shape of a base slug
  // ---------------------------------------------------------------------------

  predicate IsSlugText(s: string) {
    && (forall i :: 0 <= i < |s| ==> IsAlnum(s[i]) || s[i] == '-')
    && (forall i :: 0 <= i < |s| - 1 ==> !(s[i] == '-' && s[i + 1] == '-'))
  }

  lemma {:induction false} KeptChars(s: string)
    ensures forall i :: 0 <= i < |Kept(s)| ==> IsAlnum(Kept(s)[i]) || IsSpace(Kept(s)[i]) || Kept(s)[i] == '-'
  {
    hide IsSpace;
    if s != "" {
      KeptChars(s[1..]);
    }
  }

  lemma {:induction false} DashedChars(s: string)
    requires forall i :: 0 <= i < |s| ==> IsAlnum(s[i]) || IsSpace(s[i]) || s[i] == '-'
    ensures forall i :: 0 <= i < |SpacesToDashes(s)| ==> IsAlnum(SpacesToDashes(s)[i]) || SpacesToDashes(s)[i] == '-'
  {
    hide IsSpace;
    if s != "" {
      DashedChars(s[1..]);
    }
  }

  lemma {:induction false} CollapsedIsSlugText(s: string)
    requires forall i :: 0 <= i < |s| ==> IsAlnum(s[i]) || s[i] == '-'
    ensures IsSlugText(CollapseDashes(s))
    ensures s != "" ==> CollapseDashes(s) != "" && CollapseDashes(s)[0] == s[0]
  {
    if s != "" {
      CollapsedIsSlugText(s[1..]);
    }
  }

  /** Never empty, at most 40 characters, only letters, digits and dashes, no two dashes in a row. */
  lemma BaseSlugShape(text: string)
    ensures var slug := BaseSlug(text); 0 < |slug| <= 40 && IsSlugText(slug)
  {
    hide IsSpace, Kept, SpacesToDashes, CollapseDashes;
    KeptChars(text);
    DashedChars(Kept(text));
    CollapsedIsSlugText(SpacesToDashes(Kept(text)));
  }

  /** It is the collapsed text cut at forty characters, or "master" when nothing is left of the text. */
  lemma BaseSlugLength(text: string)
    ensures Collapsed(text) == "" ==> BaseSlug(text) == "master"
    ensures Collapsed(text) != "" ==> BaseSlug(text) <= Collapsed(text)
    ensures Collapsed(text) != "" ==> |BaseSlug(text)| == if |Collapsed(text)| < 40 then |Collapsed(text)| else 40
  {
    hide Collapsed;
  }

  /** The letters and digits of a text, in order. */
  function Alnums(s: string): string {
    if s == "" then "" else if IsAlnum(s[0]) then [s[0]] + Alnums(s[1..]) else Alnums(s[1..])
  }

  lemma {:induction false} KeptAlnums(s: string)
    ensures Alnums(Kept(s)) == Alnums(s)
  {
    hide IsSpace;
    if s != "" {
      KeptAlnums(s[1..]);
      if IsAlnum(s[0]) || IsSpace(s[0]) || s[0] == '-' {
        assert Kept(s)[1..] == Kept(s[1..]);
      }
    }
  }

  lemma SpaceIsNoAlnum(c: char)
    requires IsSpace(c)
    ensures !IsAlnum(c)
  {}

  lemma {:induction false} DashedAlnums(s: string)
    ensures Alnums(SpacesToDashes(s)) == Alnums(s)
  {
    hide IsSpace;
    if s != "" {
      DashedAlnums(s[1..]);
      if IsSpace(s[0]) {
        SpaceIsNoAlnum(s[0]);
        assert ("-" + SpacesToDashes(s[1..]))[1..] == SpacesToDashes(s[1..]);
      } else {
        assert ([s[0]] + SpacesToDashes(s[1..]))[1..] == SpacesToDashes(s[1..]);
      }
    }
  }

  lemma {:induction false} CollapsedAlnums(s: string)
    ensures Alnums(CollapseDashes(s)) == Alnums(s)
  {
    if s != "" {
      CollapsedAlnums(s[1..]);
      assert ([s[0]] + CollapseDashes(s[1..]))[1..] == CollapseDashes(s[1..]);
    }
  }

  lemma {:induction false} AlnumsOfPrefix(s: string, n: nat)
    requires n <= |s|
    ensures Alnums(s[..n]) <= Alnums(s)
  {
    if n > 0 {
      AlnumsOfPrefix(s[1..], n - 1);
      assert s[..n][1..] == s[1..][..n - 1];
    }
  }

  // No two dashes in a row: at least every other character is a letter or digit.
  lemma {:induction false} HalfAreAlnums(s: string)
    requires IsSlugText(s)
    ensures 2 * |Alnums(s)| + 1 >= |s|
    ensures s != "" && s[0] != '-' ==> 2 * |Alnums(s)| >= |s|
  {
    if s != "" {
      var rest := s[1..];
      forall i | 0 <= i < |rest| - 1 ensures !(rest[i] == '-' && rest[i + 1] == '-') {
        assert rest[i] == s[i + 1] && rest[i + 1] == s[i + 1 + 1];
      }
      HalfAreAlnums(rest);
      if rest != "" && s[0] == '-' {
        assert !(s[0] == '-' && s[0 + 1] == '-');
      }
    }
  }

  /**
   Unless nothing usable was typed, the slug spells the text's letters and digits in order: all of them
   when the collapsed text has at most 40 characters, else the first of them, at least twenty.
   */
  lemma SlugSpellsText(text: string)
    ensures Collapsed(text) == "" ==> BaseSlug(text) == "master"
    ensures Collapsed(text) != "" && |Collapsed(text)| <= 40 ==> Alnums(BaseSlug(text)) == Alnums(text)
    ensures |Collapsed(text)| > 40 ==> Alnums(BaseSlug(text)) <= Alnums(text) && |Alnums(BaseSlug(text))| >= 20
  {
    hide IsSpace, Kept, SpacesToDashes, CollapseDashes, IsSlugText;
    var whole := Collapsed(text);
    KeptAlnums(text);
    DashedAlnums(Kept(text));
    CollapsedAlnums(SpacesToDashes(Kept(text)));
    AlnumsOfPrefix(whole, |First40(whole)|);
    BaseSlugShape(text);
    HalfAreAlnums(BaseSlug(text));
  }

  // ---------------------------------------------------------------------------
  // A slug is left as it is
  // ---------------------------------------------------------------------------

  lemma {:induction false} SlugTextFixed(s: string)
    requires IsSlugText(s)
    ensures Kept(s) == s && SpacesToDashes(s) == s && CollapseDashes(s) == s
  {
    if s != "" {
      var rest := s[1..];
      forall i | 0 <= i < |rest| - 1 ensures !(rest[i] == '-' && rest[i + 1] == '-') {
        assert rest[i] == s[i + 1] && rest[i + 1] == s[i + 1 + 1];
      }
      SlugTextFixed(s[1..]);
      assert s == [s[0]] + s[1..];
      assert !IsSpace(s[0]) by {
        if IsSpace(s[0]) {
          SpaceIsNoAlnum(s[0]);
        }
      }
    }
  }

  /** Making a slug of a slug changes nothing. */
  lemma BaseSlugIdempotent(text: string)
    ensures BaseSlug(BaseSlug(text)) == BaseSlug(text)
  {
    hide IsSlugText, Kept, SpacesToDashes, CollapseDashes;
    BaseSlugShape(text);
    SlugTextFixed(BaseSlug(text));
  }

  // ---------------------------------------------------------------------------
  // The search
  // ---------------------------------------------------------------------------

  // The candidates in the order they are tried.
  function Candidate(slug: string, k: nat): string {
    if k == 0 then slug else slug + "-" + Decimal(k)
  }

  lemma DigitsAreAlnum(n: nat)
    ensures forall i :: 0 <= i < |Decimal(n)| ==> IsAlnum(Decimal(n)[i])
  {
    hide Decimal;
    var d := Decimal(n);
    forall i | 0 <= i < |d| ensures IsAlnum(d[i]) {
      assert d[i] in DIGITS;
    }
  }

  /** A numbered candidate has the shape of a slug if and only if its base does not end in a dash. */
  lemma NumberedShape(slug: string, k: nat)
    requires IsSlugText(slug) && slug != ""
    ensures IsSlugText(Candidate(slug, k)) <==> k == 0 || slug[|slug| - 1] != '-'
  {
    hide Decimal;
    if k > 0 {
      DigitsAreAlnum(k);
      WithNumber(slug, Decimal(k));
    }
  }

  lemma WithNumber(slug: string, number: string)
    requires IsSlugText(slug) && slug != "" && number != "" && forall i :: 0 <= i < |number| ==> IsAlnum(number[i])
    ensures IsSlugText(slug + "-" + number) <==> slug[|slug| - 1] != '-'
  {
    hide IsAlnum;
    var c, n := slug + "-" + number, |slug|;
    forall i | 0 <= i < |c| ensures c[i] == if i < n then slug[i] else if i == n then '-' else number[i - n - 1] {}
    if slug[n - 1] == '-' {
      assert c[n - 1] == '-' && c[n - 1 + 1] == '-';
    } else {
      NumberHasNoDash(number);
      forall i | 0 <= i < |c| - 1 ensures !(c[i] == '-' && c[i + 1] == '-') {
        if i < n - 1 {
          assert !(slug[i] == '-' && slug[i + 1] == '-');
        }
      }
    }
  }

  lemma NumberHasNoDash(number: string)
    requires forall i :: 0 <= i < |number| ==> IsAlnum(number[i])
    ensures '-' !in number
  {}

  lemma CandidatesDistinct(slug: string, j: nat, k: nat)
    requires j != k
    ensures Candidate(slug, j) != Candidate(slug, k)
  {
    if j > 0 && k > 0 && Candidate(slug, j) == Candidate(slug, k) {
      assert Candidate(slug, j)[|slug| + 1..] == Decimal(j);
      assert Candidate(slug, k)[|slug| + 1..] == Decimal(k);
      DecimalInjective(j, k);
    }
  }

  ghost function Tried(slug: string, n: nat): set<string> {
    if n == 0 then {} else Tried(slug, n - 1) + {Candidate(slug, n - 1)}
  }

  lemma {:induction false} TriedCount(slug: string, n: nat, m: nat)
    requires n <= m
    ensures |Tried(slug, n)| == n
    ensures Candidate(slug, m) !in Tried(slug, n)
  {
    hide Candidate;
    if n > 0 {
      TriedCount(slug, n - 1, n - 1);
      TriedCount(slug, n - 1, m);
      CandidatesDistinct(slug, n - 1, m);
    }
  }

  /** The first candidate not in use, found within one look-up more than there are slugs. */
  method GenerateUniqueSlug(text: string, existing: set<string>) returns (candidate: string, lookups: nat)
    ensures candidate !in existing
    ensures 1 <= lookups <= |existing| + 1
    ensures candidate == Candidate(BaseSlug(text), lookups - 1)
    ensures forall k :: 0 <= k < lookups - 1 ==> Candidate(BaseSlug(text), k) in existing
    ensures BaseSlug(text) != ""
    ensures IsSlugText(candidate) <==> lookups == 1 || BaseSlug(text)[|BaseSlug(text)| - 1] != '-'
  {
    hide BaseSlug, Candidate, IsSlugText, Tried, Decimal;
    NoneTried(BaseSlug(text));
    var slug := BaseSlug(text);
    candidate := slug;
    FirstCandidate(slug);
    var counter := 1;
    lookups := 1;
    while candidate in existing
      invariant lookups == counter && candidate == Candidate(slug, counter - 1)
      invariant forall k :: 0 <= k < counter - 1 ==> Candidate(slug, k) in existing
      invariant Tried(slug, counter - 1) <= existing
      invariant counter - 1 <= |existing|
      decreases |existing| - counter
    {
      OneMoreTried(slug, counter, existing);
      NextCandidate(slug, counter);
      candidate := slug + "-" + Decimal(counter);
      counter := counter + 1;
      lookups := lookups + 1;
    }
    BaseSlugShape(text);
    NumberedShape(slug, counter - 1);
  }

  lemma NoneTried(slug: string)
    ensures Tried(slug, 0) == {}
  {}

  // As many slugs are in use as candidates were tried in vain.
  lemma OneMoreTried(slug: string, n: nat, existing: set<string>)
    requires n > 0 && Tried(slug, n - 1) <= existing && Candidate(slug, n - 1) in existing
    ensures Tried(slug, n) <= existing && n <= |existing|
  {
    hide Candidate;
    TriedCount(slug, n, n);
    SubsetSmaller(Tried(slug, n), existing);
  }

  lemma FirstCandidate(slug: string)
    ensures Candidate(slug, 0) == slug
  {}

  lemma NextCandidate(slug: string, k: nat)
    requires k > 0
    ensures Candidate(slug, k) == slug + "-" + Decimal(k)
  {}

  // Text that is a slug but for one blank at its end.
  lemma {:induction false} BlankAtEnd(s: string)
    requires forall i :: 0 <= i < |s| ==> IsAlnum(s[i])
    ensures Kept(s + " ") == s + " " && SpacesToDashes(s + " ") == s + "-"
  {
    if s == "" {
      assert Kept(" "[1..]) == "" && SpacesToDashes(" "[1..]) == "";
    } else {
      BlankAtEnd(s[1..]);
      assert (s + " ")[1..] == s[1..] + " ";
      assert !IsSpace(s[0]) by {
        if IsSpace(s[0]) {
          SpaceIsNoAlnum(s[0]);
        }
      }
      assert s == [s[0]] + s[1..];
    }
  }

  /** A trailing blank in the name gives such a base: the second master of that name gets two dashes. */
  lemma TrailingDash()
    ensures BaseSlug("anna ") == "anna-" && Candidate(BaseSlug("anna "), 1) == "anna--1"
  {
    hide Kept, SpacesToDashes, CollapseDashes, IsSpace;
    assert "anna" + " " == "anna " && "anna" + "-" == "anna-";
    BlankAtEnd("anna");
    assert IsSlugText("anna-");
    SlugTextFixed("anna-");
    assert Decimal(1) == "1";
  }
}
