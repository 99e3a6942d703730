/** Finding a free slug by counting: base, base-1, base-2, ... */
module FreshSlugs {

  function Digit(d: nat): char
    requires d < 10
  {
    "0123456789"[d]
  }

  function Decimal(n: nat): string {
    if n < 10 then [Digit(n)] else Decimal(n / 10) + [Digit(n % 10)]
  }

  lemma DigitInjective(a: nat, b: nat)
    requires a < 10 && b < 10 && Digit(a) == Digit(b)
    ensures a == b
  {}

  /** Different numbers print differently. */
  lemma {:induction false} DecimalInjective(m: nat, n: nat)
    requires Decimal(m) == Decimal(n)
    ensures m == n
  {
    DecimalShape(m);
    DecimalShape(n);
    DigitInjective(m % 10, n % 10);
    if m >= 10 && n >= 10 {
      assert Decimal(m / 10) == Decimal(m)[..|Decimal(m)| - 1] == Decimal(n / 10);
      DecimalInjective(m / 10, n / 10);
    }
  }

  lemma DecimalShape(n: nat)
    ensures |Decimal(n)| >= 1 && Decimal(n)[|Decimal(n)| - 1] == Digit(n % 10)
    ensures |Decimal(n)| == 1 <==> n < 10
  {}

  /** The k-th slug tried. */
  function Candidate(base: string, k: nat): string {
    if k == 0 then base else base + "-" + Decimal(k)
  }

  lemma CandidatesDiffer(base: string, j: nat, k: nat)
    requires Candidate(base, j) == Candidate(base, k)
    ensures j == k
  {
    if j > 0 && k > 0 {
      var prefix := |base + "-"|;
      assert Decimal(j) == Candidate(base, j)[prefix..];
      assert Decimal(k) == Candidate(base, k)[prefix..];
      DecimalInjective(j, k);
    } else {
      assert j > 0 ==> |Candidate(base, j)| > |base|;
      assert k > 0 ==> |Candidate(base, k)| > |base|;
    }
  }

  /** The first `k` slugs tried. */
  ghost function Tried(base: string, k: nat): set<string> {
    if k == 0 then {} else Tried(base, k - 1) + {Candidate(base, k - 1)}
  }

  lemma {:induction false} TriedMembers(base: string, k: nat)
    ensures forall s :: s in Tried(base, k) <==> exists j :: 0 <= j < k && s == Candidate(base, j)
  {
    if k == 0 {
    } else {
      TriedMembers(base, k - 1);
    }
  }

  /** All slugs tried are different, so there are as many as tries. */
  lemma {:induction false} TriedSize(base: string, k: nat)
    ensures |Tried(base, k)| == k
  {
    if k == 0 {
    } else {
      TriedSize(base, k - 1);
      TriedMembers(base, k - 1);
      if Candidate(base, k - 1) in Tried(base, k - 1) {
        var j :| 0 <= j < k - 1 && Candidate(base, k - 1) == Candidate(base, j);
        CandidatesDiffer(base, k - 1, j);
      }
    }
  }

  lemma {:induction false} SubsetIsNoLarger(a: set<string>, b: set<string>)
    requires a <= b
    ensures |a| <= |b|
  {
    assert b == a + (b - a);
  }

  /** Slugs that are all taken are no more than the taken ones. */
  lemma TriesAreBounded(base: string, k: nat, taken: set<string>)
    requires Tried(base, k) <= taken
    ensures k <= |taken|
  {
    TriedSize(base, k);
    SubsetIsNoLarger(Tried(base, k), taken);
  }

  /** The slug loop ends within one more try than there are taken slugs, at the first candidate that is free. */
  method UniqueSlug(base: string, taken: set<string>) returns (slug: string, ghost tries: nat)
    ensures slug == Candidate(base, tries) && slug !in taken
    ensures forall j | 0 <= j < tries :: Candidate(base, j) in taken
    ensures tries <= |taken|
  {
    slug := base;
    var counter := 1;
    tries := 0;
    while slug in taken
      invariant tries + 1 == counter && slug == Candidate(base, tries)
      invariant Tried(base, tries) <= taken
      decreases |taken| - tries
    {
      TriesAreBounded(base, tries + 1, taken);
      slug := base + "-" + Decimal(counter);
      counter := counter + 1;
      tries := tries + 1;
    }
    TriesAreBounded(base, tries, taken);
    TriedMembers(base, tries);
  }

  // ------------------------------------------------------------ reading slugs back

  /** The number that a text of decimal digits stands for. */
  function ReadDecimal(s: string): int {
    if s == "" then 0 else 10 * ReadDecimal(s[..|s| - 1]) + (s[|s| - 1] as int - '0' as int)
  }

  /** A printed number reads back as itself, is made of digits, and has no leading zero. */
  lemma {:induction false} DecimalReadsBack(n: nat)
    ensures ReadDecimal(Decimal(n)) == n
    ensures forall c | c in Decimal(n) :: '0' <= c <= '9'
    ensures n > 0 ==> Decimal(n) != "" && Decimal(n)[0] != '0'
  {
    DigitReadsBack(n % 10);
    if n < 10 {
      assert Decimal(n) == [Digit(n)] && Decimal(n)[..0] == "";
    } else {
      DecimalReadsBack(n / 10);
      assert Decimal(n)[..|Decimal(n)| - 1] == Decimal(n / 10);
    }
  }

  lemma DigitReadsBack(d: nat)
    requires d < 10
    ensures Digit(d) as int - '0' as int == d && '0' <= Digit(d) <= '9'
  {}

  /** The slug found is the base itself, or the base, a hyphen and a number from 1 on. */
  lemma CandidateReadsBack(base: string, k: nat)
    ensures k == 0 ==> Candidate(base, k) == base
    ensures k > 0 ==> |Candidate(base, k)| > |base| + 1 && Candidate(base, k)[..|base| + 1] == base + "-" &&
                      ReadDecimal(Candidate(base, k)[|base| + 1..]) == k
  {
    DecimalReadsBack(k);
    if k > 0 {
      assert Candidate(base, k) == (base + "-") + Decimal(k);
    }
  }
}
