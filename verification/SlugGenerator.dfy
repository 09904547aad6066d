// The slug of a new group: a base derived from its name, probed with growing suffixes
// until one is free.
module SlugGenerator {
  import opened Base

  const MAX_BASE := 80
  const FALLBACK := "group"

  predicate IsSlugChar(c: char) {
    'a' <= c <= 'z' || '0' <= c <= '9'
  }

  /** `replace(/[^a-z0-9]+/g, '-')` */
  function Dashed(s: string): string {
    if s == "" then ""
    else if IsSlugChar(s[0]) then [s[0]] + Dashed(s[1..])
    else if |s| > 1 && !IsSlugChar(s[1]) then Dashed(s[1..])
    else "-" + Dashed(s[1..])
  }

  function TrimLeft(s: string): string {
    if s != "" && s[0] == '-' then TrimLeft(s[1..]) else s
  }

  function TrimRight(s: string): string {
    if s != "" && s[|s| - 1] == '-' then TrimRight(s[..|s| - 1]) else s
  }

  function Trimmed(lowered: string): string {
    TrimRight(TrimLeft(Dashed(lowered)))
  }

  /** The base of a name that is already lower-cased. */
  function SlugBase(lowered: string): string {
    var trimmed := Trimmed(lowered);
    var cut := if |trimmed| <= MAX_BASE then trimmed else trimmed[..MAX_BASE];
    if cut == "" then FALLBACK else cut
  }

  predicate SlugText(s: string) {
    && (forall c :: c in s ==> IsSlugChar(c) || c == '-')
    && (forall i :: 0 <= i < |s| - 1 ==> s[i] != '-' || s[i + 1] != '-')
  }

  lemma {:induction false} DashedIsSlugText(s: string)
    ensures SlugText(Dashed(s))
    ensures s != "" ==> Dashed(s) != "" && (Dashed(s)[0] == '-' <==> !IsSlugChar(s[0]))
  {
    if s == "" {
    } else {
      DashedIsSlugText(s[1..]);
    }
  }

  lemma {:induction false} TrimmingKeepsText(s: string)
    requires SlugText(s)
    ensures SlugText(TrimLeft(s)) && (TrimLeft(s) != "" ==> TrimLeft(s)[0] != '-')
    ensures SlugText(TrimRight(s)) && (TrimRight(s) != "" ==> TrimRight(s)[|TrimRight(s)| - 1] != '-')
    ensures TrimRight(s) <= s
  {
    if s == "" {
    } else {
      TrimmingKeepsText(s[1..]);
      TrimmingKeepsText(s[..|s| - 1]);
    }
  }

  lemma TrimmedShape(lowered: string)
    ensures SlugText(Trimmed(lowered))
    ensures Trimmed(lowered) != "" ==> Trimmed(lowered)[0] != '-' && Trimmed(lowered)[|Trimmed(lowered)| - 1] != '-'
  {
    DashedIsSlugText(lowered);
    TrimmingKeepsText(Dashed(lowered));
    TrimmingKeepsText(TrimLeft(Dashed(lowered)));
  }

  lemma CutKeepsText(s: string, n: nat)
    requires SlugText(s) && n <= |s|
    ensures SlugText(s[..n])
  {
  }

  /** A base is one to eighty characters of letters, digits and single dashes, and never
      begins with a dash. It ends with one exactly when the cut at eighty left it there. */
  lemma BaseShape(lowered: string)
    ensures SlugText(SlugBase(lowered)) && 1 <= |SlugBase(lowered)| <= MAX_BASE
    ensures SlugBase(lowered)[0] != '-'
    ensures SlugBase(lowered)[|SlugBase(lowered)| - 1] == '-' <==>
      |Trimmed(lowered)| > MAX_BASE && Trimmed(lowered)[MAX_BASE - 1] == '-'
  {
    TrimmedShape(lowered);
    if |Trimmed(lowered)| > MAX_BASE {
      CutKeepsText(Trimmed(lowered), MAX_BASE);
    }
  }

  lemma {:induction false} SlugCharsStay(s: string, t: string)
    requires forall c :: c in s ==> IsSlugChar(c)
    ensures Dashed(s + t) == s + Dashed(t)
  {
    if s == "" {
      assert s + t == t;
    } else {
      SlugCharsStay(s[1..], t);
      assert (s + t)[1..] == s[1..] + t;
    }
  }

  predicate IsWord(s: string) {
    s != "" && forall c :: c in s ==> IsSlugChar(c)
  }

  predicate IsGap(s: string) {
    forall c :: c in s ==> !IsSlugChar(c)
  }

  lemma {:induction false} GapIsOneDash(g: string, x: string)
    requires g != "" && IsGap(g) && (x == "" || IsSlugChar(x[0]))
    ensures Dashed(g + x) == "-" + Dashed(x)
  {
    var s := g + x;
    if |g| == 1 {
      assert s[1..] == x && g[0] in g;
    } else {
      assert g[0] in g && g[1] in g && s[1..] == g[1..] + x;
      GapIsOneDash(g[1..], x);
    }
  }

  lemma {:induction false} LastGapIsOneDash(x: string, g: string)
    requires g != "" && IsGap(g) && x != ""
    ensures Dashed(x + g) == Dashed(x) + if IsSlugChar(x[|x| - 1]) then "-" else ""
  {
    var s := x + g;
    assert s[1..] == x[1..] + g;
    if |x| == 1 {
      GapIsOneDash(g, "");
      assert g + "" == g && x[1..] == "" && g[0] in g;
    } else {
      LastGapIsOneDash(x[1..], g);
    }
  }

  lemma {:induction false} TrimRightBehind(p: string, z: string)
    requires TrimRight(z) != ""
    ensures TrimRight(p + z) == p + TrimRight(z)
  {
    if z == "" || z[|z| - 1] != '-' {
    } else {
      TrimRightBehind(p, z[..|z| - 1]);
      assert (p + z)[..|p + z| - 1] == p + z[..|z| - 1];
    }
  }

  lemma {:induction false} SomethingStays(z: string)
    requires z != "" && z[0] != '-'
    ensures TrimRight(z) != "" && TrimLeft(z) == z
  {
    if |z| == 1 || z[|z| - 1] != '-' {
    } else {
      SomethingStays(z[..|z| - 1]);
    }
  }

  /** What a name's slug is, once for all names: its words, in order, with one dash between two
      of them, and nothing at the ends. Together the four equations fix the slug. */
  lemma SlugOfWord(w: string)
    requires IsWord(w)
    ensures Trimmed(w) == w
  {
    SlugCharsStay(w, "");
    assert w + "" == w && w[|w| - 1] in w && w[0] in w;
  }

  lemma SlugIgnoresFront(g: string, x: string)
    requires IsGap(g) && (x == "" || IsSlugChar(x[0]))
    ensures Trimmed(g + x) == Trimmed(x)
  {
    if g == "" {
      assert g + x == x;
    } else {
      GapIsOneDash(g, x);
      assert ("-" + Dashed(x))[1..] == Dashed(x);
    }
  }

  lemma SlugIgnoresBack(x: string, g: string)
    requires IsGap(g) && x != "" && IsSlugChar(x[0])
    ensures Trimmed(x + g) == Trimmed(x)
  {
    if g == "" {
      assert x + g == x;
    } else {
      LastGapIsOneDash(x, g);
      DashedIsSlugText(x);
      SomethingStays(Dashed(x));
      SomethingStays(Dashed(x + g));
      assert (Dashed(x) + "-")[..|Dashed(x)|] == Dashed(x);
      assert Dashed(x) + "" == Dashed(x);
    }
  }

  lemma SlugJoinsWords(w: string, g: string, x: string)
    requires IsWord(w) && g != "" && IsGap(g) && x != "" && IsSlugChar(x[0])
    ensures Trimmed(w + g + x) == w + "-" + Trimmed(x)
  {
    SlugCharsStay(w, g + x);
    assert w + g + x == w + (g + x);
    GapIsOneDash(g, x);
    DashedIsSlugText(x);
    SomethingStays(Dashed(x));
    assert w[0] in w;
    SomethingStays(w + ("-" + Dashed(x)));
    TrimRightBehind(w + "-", Dashed(x));
    assert w + ("-" + Dashed(x)) == (w + "-") + Dashed(x);
  }

  /** The slug proper: the first eighty characters, and "group" for a name without words. */
  lemma BaseIsCutSlug(lowered: string)
    ensures IsGap(lowered) ==> SlugBase(lowered) == "group"
    ensures Trimmed(lowered) != "" ==>
      SlugBase(lowered) == Trimmed(lowered)[..if |Trimmed(lowered)| <= 80 then |Trimmed(lowered)| else 80]
  {
    if IsGap(lowered) {
      SlugIgnoresFront(lowered, "");
      assert lowered + "" == lowered;
    }
  }

  /** Such names exist: one short of eighty letters, and another word. */
  lemma CutLeavesDash(word: string)
    requires |word| == MAX_BASE - 1 && forall c :: c in word ==> IsSlugChar(c)
    ensures SlugBase(word + " b") == word + "-"
  {
    SlugCharsStay(word, " b");
    assert Dashed("b") == ['b'] + Dashed("");
    assert " b"[1..] == "b";
    assert Dashed(" b") == "-" + Dashed("b");
    assert Dashed(word + " b") == word + "-b";
    assert word[0] in word;
  }

  // ----- Suffixes -----

  function Digit(n: nat): char
    requires n < 10
  {
    '0' + n as char
  }

  function Decimal(n: nat): string {
    if n < 10 then [Digit(n)] else Decimal(n / 10) + [Digit(n % 10)]
  }

  /** Different numbers print differently. */
  lemma {:induction false} DecimalIsInjective(m: nat, n: nat)
    requires Decimal(m) == Decimal(n)
    ensures m == n
  {
    assert Decimal(m)[|Decimal(m)| - 1] == Digit(m % 10);
    assert Decimal(n)[|Decimal(n)| - 1] == Digit(n % 10);
    if m < 10 || n < 10 {
    } else {
      assert Decimal(m)[..|Decimal(m)| - 1] == Decimal(m / 10);
      assert Decimal(n)[..|Decimal(n)| - 1] == Decimal(n / 10);
      DecimalIsInjective(m / 10, n / 10);
    }
  }

  /** A numeral, read digit by digit. */
  function Value(s: string): int {
    if s == "" then 0 else 10 * Value(s[..|s| - 1]) + (s[|s| - 1] as int - '0' as int)
  }

  /** The suffix is the number in decimal, without leading zeros. */
  lemma {:induction false} DecimalReads(n: nat)
    ensures Value(Decimal(n)) == n && Decimal(n) != ""
    ensures forall c :: c in Decimal(n) ==> '0' <= c <= '9'
    ensures n > 0 ==> Decimal(n)[0] != '0'
  {
    if n < 10 {
      assert Decimal(n)[..0] == "";
    } else {
      DecimalReads(n / 10);
      assert Decimal(n)[..|Decimal(n)| - 1] == Decimal(n / 10);
    }
  }

  /** The k-th slug that the loop probes. */
  function Candidate(base: string, k: nat): string {
    if k == 0 then base else base + "-" + Decimal(k)
  }

  lemma CandidatesDiffer(base: string, j: nat, k: nat)
    requires Candidate(base, j) == Candidate(base, k)
    ensures j == k
  {
    if j > 0 && k > 0 {
      var prefix := base + "-";
      assert Candidate(base, j)[|prefix|..] == Decimal(j);
      assert Candidate(base, k)[|prefix|..] == Decimal(k);
      DecimalIsInjective(j, k);
    }
  }

  /** If the first n candidates are all taken, there are at least n taken slugs. */
  lemma TakenCandidatesAreMany(base: string, n: nat, used: set<string>)
    requires forall k: nat :: k < n ==> Candidate(base, k) in used
    ensures n <= |used|
  {
    var probed := seq(n, (k: nat) => Candidate(base, k));
    forall i, j | 0 <= i < j < n
      ensures probed[i] != probed[j]
    {
      if probed[i] == probed[j] {
        CandidatesDiffer(base, i, j);
      }
    }
    PigeonHole(probed, used);
  }

  /** The number of the first free candidate, counting from `k` on. */
  function FirstFree(base: string, used: set<string>, k: nat): (n: nat)
    requires forall j: nat :: j < k ==> Candidate(base, j) in used
    ensures Candidate(base, n) !in used
    ensures forall j: nat :: j < n ==> Candidate(base, j) in used
    decreases |used| + 1 - k
  {
    TakenCandidatesAreMany(base, k, used);
    if Candidate(base, k) in used then FirstFree(base, used, k + 1) else k
  }

  /** The slug of a group: the first candidate that no group has. */
  function UniqueSlug(lowered: string, used: set<string>): (slug: string)
    ensures slug !in used
  {
    Candidate(SlugBase(lowered), FirstFree(SlugBase(lowered), used, 0))
  }

  /** Returns the first free candidate, after at most one probe more than there are
      slugs in use. */
  method GenerateUniqueSlug(lowered: string, used: set<string>) returns (slug: string, probes: nat)
    ensures slug !in used
    ensures 1 <= probes <= |used| + 1
    ensures slug == Candidate(SlugBase(lowered), probes - 1)
    ensures forall k: nat :: k < probes - 1 ==> Candidate(SlugBase(lowered), k) in used
    ensures slug == UniqueSlug(lowered, used)
  {
    var base := SlugBase(lowered);
    slug := base;
    var suffix: nat := 1;
    TakenCandidatesAreMany(base, 0, used);
    while slug in used
      invariant 1 <= suffix <= |used| + 1
      invariant slug == Candidate(base, suffix - 1)
      invariant forall k: nat :: k < suffix - 1 ==> Candidate(base, k) in used
      decreases |used| + 1 - suffix
    {
      TakenCandidatesAreMany(base, suffix, used);
      slug := base + "-" + Decimal(suffix);
      suffix := suffix + 1;
    }
    probes := suffix;
    assert FirstFree(base, used, 0) == suffix - 1;
  }
}
