// Case conversion of ASCII text: splitWords as a parser, the eleven cases as printers.
module CaseText {
  import opened Base

  datatype CaseType = Upper | Lower | Title | Sentence | Camel | Pascal | Kebab | Snake | Constant | Dot | Path

  // ----- Characters -----

  predicate IsLower(c: char) {
    'a' <= c <= 'z'
  }

  predicate IsUpper(c: char) {
    'A' <= c <= 'Z'
  }

  predicate IsDigit(c: char) {
    '0' <= c <= '9'
  }

  predicate IsSpace(c: char) {
    c == ' ' || '\t' <= c <= '\r'
  }

  predicate IsSeparator(c: char) {
    c == '_' || c == '-' || c == '.' || c == '/'
  }

  function ToUpper(c: char): char {
    if IsLower(c) then 'A' + (c - 'a') else c
  }

  function ToLower(c: char): char {
    if IsUpper(c) then 'a' + (c - 'A') else c
  }

  function UpperAll(s: string): string {
    seq(|s|, i requires 0 <= i < |s| => ToUpper(s[i]))
  }

  function LowerAll(s: string): string {
    seq(|s|, i requires 0 <= i < |s| => ToLower(s[i]))
  }

  // ----- splitWords, replacement by replacement -----

  /** `replace(/([a-z])([A-Z])/g, "$1 $2")`: each match consumes both characters. */
  function SplitCamel(s: string): string {
    if |s| < 2 then s
    else if IsLower(s[0]) && IsUpper(s[1]) then [s[0], ' ', s[1]] + SplitCamel(s[2..])
    else [s[0]] + SplitCamel(s[1..])
  }

  /** `replace(/[_\-./]+/g, " ")` */
  function SpaceSeparators(s: string): string {
    if s == "" then ""
    else if !IsSeparator(s[0]) then [s[0]] + SpaceSeparators(s[1..])
    else if |s| > 1 && IsSeparator(s[1]) then SpaceSeparators(s[1..])
    else " " + SpaceSeparators(s[1..])
  }

  function TrimStart(s: string): string {
    if s != "" && IsSpace(s[0]) then TrimStart(s[1..]) else s
  }

  function TrimEnd(s: string): string {
    if s != "" && IsSpace(s[|s| - 1]) then TrimEnd(s[..|s| - 1]) else s
  }

  function FirstSpace(s: string): (n: nat)
    ensures n <= |s| && (forall i :: 0 <= i < n ==> !IsSpace(s[i])) && (n < |s| ==> IsSpace(s[n]))
  {
    if s == "" || IsSpace(s[0]) then 0 else 1 + FirstSpace(s[1..])
  }

  lemma {:induction false} TrimStartShortens(s: string)
    ensures |TrimStart(s)| <= |s|
  {
    if s == "" {
    } else {
      TrimStartShortens(s[1..]);
    }
  }

  /** `split(/\s+/)`: never empty, one empty word for the empty string. */
  function SplitSpaces(s: string): seq<string>
    decreases |s|
  {
    var n := FirstSpace(s);
    TrimStartShortens(s[n..][if n < |s| then 1 else 0..]);
    if n == |s| then [s] else [s[..n]] + SplitSpaces(TrimStart(s[n + 1..]))
  }

  function SplitWords(input: string): seq<string> {
    SplitSpaces(TrimEnd(TrimStart(LowerAll(SpaceSeparators(SplitCamel(input))))))
  }

  // ----- The printers -----

  function Join(words: seq<string>, separator: string): string {
    if words == [] then ""
    else if |words| == 1 then words[0]
    else words[0] + separator + Join(words[1..], separator)
  }

  function Capitalize(w: string): string {
    if w == "" then "" else [ToUpper(w[0])] + w[1..]
  }

  function CapitalizeAll(words: seq<string>): seq<string> {
    seq(|words|, i requires 0 <= i < |words| => Capitalize(words[i]))
  }

  /** What camel prints, word by word. */
  function CamelParts(words: seq<string>): seq<string> {
    seq(|words|, i requires 0 <= i < |words| => if i == 0 then words[i] else Capitalize(words[i]))
  }

  function Print(words: seq<string>, t: CaseType): string {
    match t
    case Upper => UpperAll(Join(words, " "))
    case Lower => LowerAll(Join(words, " "))
    case Title => Join(CapitalizeAll(words), " ")
    case Sentence => Capitalize(Join(words, " "))
    case Camel => Join(CamelParts(words), "")
    case Pascal => Join(CapitalizeAll(words), "")
    case Kebab => Join(words, "-")
    case Snake => Join(words, "_")
    case Constant => UpperAll(Join(words, "_"))
    case Dot => Join(words, ".")
    case Path => Join(words, "/")
  }

  /** What stands between two printed words. */
  function SeparatorOf(t: CaseType): string {
    match t
    case Upper => " "
    case Lower => " "
    case Title => " "
    case Sentence => " "
    case Camel => ""
    case Pascal => ""
    case Kebab => "-"
    case Snake => "_"
    case Constant => "_"
    case Dot => "."
    case Path => "/"
  }

  /** How one word is printed: all capitals, or capitalised, or only the first or only the
      others capitalised. */
  function Printed(w: string, first: bool, t: CaseType): string {
    if t == Upper || t == Constant then UpperAll(w)
    else if t == Lower then LowerAll(w)
    else if t == Title || t == Pascal || (t == Sentence && first) || (t == Camel && !first) then Capitalize(w)
    else w
  }

  lemma {:induction false} JoinSnoc(words: seq<string>, w: string, separator: string)
    requires words != []
    ensures Join(words + [w], separator) == Join(words, separator) + separator + w
  {
    if |words| == 1 {
      assert (words + [w])[1..] == [w];
    } else {
      JoinSnoc(words[1..], w, separator);
      assert (words + [w])[1..] == words[1..] + [w];
    }
  }

  lemma CapitalsSnoc(words: seq<string>, w: string, separator: string)
    requires words != []
    ensures Join(CapitalizeAll(words + [w]), separator) ==
      Join(CapitalizeAll(words), separator) + separator + Capitalize(w)
  {
    assert CapitalizeAll(words + [w]) == CapitalizeAll(words) + [Capitalize(w)];
    JoinSnoc(CapitalizeAll(words), Capitalize(w), separator);
  }

  lemma CamelSnoc(words: seq<string>, w: string)
    requires words != []
    ensures Join(CamelParts(words + [w]), "") == Join(CamelParts(words), "") + "" + Capitalize(w)
  {
    assert CamelParts(words + [w]) == CamelParts(words) + [Capitalize(w)];
    JoinSnoc(CamelParts(words), Capitalize(w), "");
  }

  lemma MapsConcat(s: string, c: char, t: string)
    ensures UpperAll(s + [c] + t) == UpperAll(s) + [ToUpper(c)] + UpperAll(t)
    ensures LowerAll(s + [c] + t) == LowerAll(s) + [ToLower(c)] + LowerAll(t)
    ensures !IsLower(c) ==> Capitalize(s + [c] + t) == Capitalize(s) + [c] + t
  {
  }

  /** Printing is word by word: each further word adds the separator and its own form. */
  lemma PrintsWordByWord(words: seq<string>, w: string, t: CaseType)
    ensures Print([w], t) == Printed(w, true, t)
    ensures words != [] ==> Print(words + [w], t) == Print(words, t) + SeparatorOf(t) + Printed(w, false, t)
  {
    if words != [] {
      if t == Title || t == Pascal {
        CapitalsSnoc(words, w, SeparatorOf(t));
      } else if t == Camel {
        CamelSnoc(words, w);
      } else {
        JoinSnoc(words, w, SeparatorOf(t));
        MapsConcat(Join(words, SeparatorOf(t)), SeparatorOf(t)[0], w);
      }
    }
  }

  /** `w[0].toUpperCase()` throws on an empty word; only text without any word has one. */
  predicate Throws(words: seq<string>, t: CaseType) {
    (t.Title? || t.Pascal?) && "" in words
  }

  function ConvertCase(input: string, t: CaseType): Option<string> {
    if input == "" then Some("")
    else if Throws(SplitWords(input), t) then None
    else Some(Print(SplitWords(input), t))
  }

  // ----- Words that survive -----

  predicate IsWord(w: string) {
    w != "" && forall i :: 0 <= i < |w| ==> IsLower(w[i]) || IsDigit(w[i])
  }

  predicate AreWords(words: seq<string>) {
    words != [] && forall i :: 0 <= i < |words| ==> IsWord(words[i])
  }

  predicate Solid(w: string) {
    w != "" && forall i :: 0 <= i < |w| ==> !IsSpace(w[i]) && !IsSeparator(w[i])
  }

  predicate AllSolid(words: seq<string>) {
    words != [] && forall i :: 0 <= i < |words| ==> Solid(words[i])
  }

  // ----- The last two steps undo a join with spaces -----

  lemma {:induction false} JoinEnds(words: seq<string>, separator: string)
    requires AllSolid(words)
    ensures Join(words, separator) != ""
    ensures !IsSpace(Join(words, separator)[0]) && !IsSpace(Join(words, separator)[|Join(words, separator)| - 1])
    ensures Join(words, separator)[0] == words[0][0]
  {
    if |words| == 1 {
    } else {
      JoinEnds(words[1..], separator);
    }
  }

  lemma {:induction false} FirstSpaceIs(s: string, n: nat)
    requires n <= |s| && (forall i :: 0 <= i < n ==> !IsSpace(s[i])) && (n < |s| ==> IsSpace(s[n]))
    ensures FirstSpace(s) == n
  {
    if n == 0 {
    } else {
      FirstSpaceIs(s[1..], n - 1);
    }
  }

  lemma SplitBehindWord(w: string, rest: string)
    requires Solid(w) && rest != "" && !IsSpace(rest[0])
    ensures SplitSpaces(w + " " + rest) == [w] + SplitSpaces(rest)
  {
    var s := w + " " + rest;
    FirstSpaceIs(s, |w|);
    assert s[..|w|] == w && s[|w| + 1..] == rest;
  }

  lemma {:induction false} SplitUndoesJoin(words: seq<string>)
    requires AllSolid(words)
    ensures SplitSpaces(Join(words, " ")) == words
  {
    assert Solid(words[0]);
    if |words| == 1 {
      FirstSpaceIs(words[0], |words[0]|);
    } else {
      SplitUndoesJoin(words[1..]);
      JoinEnds(words[1..], " ");
      SplitBehindWord(words[0], Join(words[1..], " "));
    }
  }

  lemma WordsBehind(s: string, words: seq<string>)
    requires AllSolid(words) && LowerAll(SpaceSeparators(SplitCamel(s))) == Join(words, " ")
    ensures SplitWords(s) == words
  {
    JoinEnds(words, " ");
    SplitUndoesJoin(words);
  }

  // ----- The first two steps on printed text -----

  /** No capital right behind a lower-case letter. */
  ghost predicate NoCamel(s: string) {
    forall i, j :: 0 <= i < j < |s| && j == i + 1 ==> !(IsLower(s[i]) && IsUpper(s[j]))
  }

  predicate NoSeparator(s: string) {
    forall i :: 0 <= i < |s| ==> !IsSeparator(s[i])
  }

  lemma {:induction false} SplitCamelKeeps(s: string)
    requires NoCamel(s)
    ensures SplitCamel(s) == s
  {
    if |s| <= 1 {
    } else {
      SplitCamelKeeps(s[1..]);
    }
  }

  lemma {:induction false} SpaceSeparatorsConcat(s: string, rest: string)
    requires NoSeparator(s)
    ensures SpaceSeparators(s + rest) == s + SpaceSeparators(rest)
  {
    if s == "" {
      assert s + rest == rest;
    } else {
      assert (s + rest)[1..] == s[1..] + rest;
      SpaceSeparatorsConcat(s[1..], rest);
    }
  }

  lemma SpaceSeparatorsKeeps(s: string)
    requires NoSeparator(s)
    ensures SpaceSeparators(s) == s
  {
    SpaceSeparatorsConcat(s, "");
    assert s + "" == s;
  }

  /** A join with one separator or one space reads as the join with spaces. */
  lemma {:induction false} SeparatorsBecomeSpaces(words: seq<string>, c: char)
    requires AllSolid(words) && (IsSeparator(c) || c == ' ')
    ensures SpaceSeparators(Join(words, [c])) == Join(words, " ")
  {
    if |words| == 1 {
      SpaceSeparatorsKeeps(words[0]);
    } else {
      var rest := Join(words[1..], [c]);
      SeparatorsBecomeSpaces(words[1..], c);
      JoinEnds(words[1..], [c]);
      assert words[0] + [c] + rest == words[0] + ([c] + rest);
      SpaceSeparatorsConcat(words[0], [c] + rest);
      assert ([c] + rest)[1..] == rest;
      assert rest[0] == words[1][0];
    }
  }

  lemma {:induction false} LowerOfConcat(s: string, t: string)
    ensures LowerAll(s + t) == LowerAll(s) + LowerAll(t)
  {
  }

  function LowerEach(words: seq<string>): seq<string> {
    seq(|words|, i requires 0 <= i < |words| => LowerAll(words[i]))
  }

  lemma {:induction false} LowerOfJoin(words: seq<string>)
    ensures LowerAll(Join(words, " ")) == Join(LowerEach(words), " ")
  {
    if |words| <= 1 {
    } else {
      LowerOfJoin(words[1..]);
      LowerOfConcat(words[0] + " ", Join(words[1..], " "));
      LowerOfConcat(words[0], " ");
      assert LowerEach(words)[1..] == LowerEach(words[1..]);
    }
  }

  lemma LowerSame(s: string)
    requires forall i :: 0 <= i < |s| ==> !IsUpper(s[i])
    ensures LowerAll(s) == s
  {
  }

  lemma LowerUndoesUpper(s: string)
    requires forall i :: 0 <= i < |s| ==> !IsUpper(s[i])
    ensures LowerAll(UpperAll(s)) == s
  {
  }

  lemma CapitalIsUndone(s: string)
    requires s != "" && (forall i :: 0 <= i < |s| ==> !IsUpper(s[i]))
    ensures NoCamel(Capitalize(s)) && LowerAll(Capitalize(s)) == s
  {
  }

  lemma WordIsSolid(w: string)
    requires IsWord(w)
    ensures Solid(w) && LowerAll(w) == w
    ensures Solid(Capitalize(w)) && LowerAll(Capitalize(w)) == w
  {
    LowerSame(w);
    CapitalIsUndone(w);
  }

  lemma WordsAreSolid(words: seq<string>)
    requires AreWords(words)
    ensures AllSolid(words) && LowerEach(words) == words
  {
    forall i | 0 <= i < |words|
      ensures Solid(words[i]) && LowerAll(words[i]) == words[i]
    {
      WordIsSolid(words[i]);
    }
  }

  lemma CapitalisedAreSolid(words: seq<string>)
    requires AreWords(words)
    ensures AllSolid(CapitalizeAll(words)) && LowerEach(CapitalizeAll(words)) == words
  {
    forall i | 0 <= i < |words|
      ensures Solid(Capitalize(words[i])) && LowerAll(Capitalize(words[i])) == words[i]
    {
      WordIsSolid(words[i]);
    }
  }

  lemma CamelPartsAreSolid(words: seq<string>)
    requires AreWords(words)
    ensures AllSolid(CamelParts(words)) && LowerEach(CamelParts(words)) == words
  {
    forall i | 0 <= i < |words|
      ensures Solid(CamelParts(words)[i]) && LowerAll(CamelParts(words)[i]) == words[i]
    {
      WordIsSolid(words[i]);
    }
  }

  /** Only the characters of the words and the separator appear in a join. */
  lemma {:induction false} JoinHasNoUpper(words: seq<string>, separator: string)
    requires AreWords(words)
    requires forall i :: 0 <= i < |separator| ==> !IsUpper(separator[i])
    ensures forall i :: 0 <= i < |Join(words, separator)| ==> !IsUpper(Join(words, separator)[i])
  {
    assert IsWord(words[0]);
    if |words| == 1 {
    } else {
      JoinHasNoUpper(words[1..], separator);
    }
  }

  // ----- Words and gaps -----

  predicate IsGap(g: string) {
    forall i :: 0 <= i < |g| ==> IsSpace(g[i]) || IsSeparator(g[i])
  }

  predicate IsBlank(s: string) {
    forall i :: 0 <= i < |s| ==> IsSpace(s[i])
  }

  /** The text does not begin in a gap. */
  predicate StartsWord(x: string) {
    x != "" && !IsSpace(x[0]) && !IsSeparator(x[0])
  }

  /** The three replacements, before the text is trimmed and split. */
  function Spaced(s: string): string {
    LowerAll(SpaceSeparators(SplitCamel(s)))
  }

  lemma {:induction false} SplitCamelBehindGap(g: string, x: string)
    requires IsGap(g)
    ensures SplitCamel(g + x) == g + SplitCamel(x)
  {
    if g == "" {
      assert g + x == x;
    } else {
      SplitCamelBehindGap(g[1..], x);
      assert (g + x)[1..] == g[1..] + x;
    }
  }

  lemma GapKeepsCamel(g: string)
    requires IsGap(g)
    ensures SplitCamel(g) == g
  {
    SplitCamelKeeps(g);
  }

  /** Separators do not run together across a place where one side is none. */
  lemma {:induction false} SpaceSeparatorsOfBoth(s: string, x: string)
    requires s == "" || x == "" || !IsSeparator(s[|s| - 1]) || !IsSeparator(x[0])
    ensures SpaceSeparators(s + x) == SpaceSeparators(s) + SpaceSeparators(x)
  {
    if s == "" {
      assert s + x == x;
    } else if |s| == 1 {
      assert (s + x)[1..] == x;
    } else {
      SpaceSeparatorsOfBoth(s[1..], x);
      assert (s + x)[1..] == s[1..] + x && (s + x)[1] == s[1];
    }
  }

  lemma {:induction false} GapIsBlank(g: string)
    requires IsGap(g)
    ensures IsBlank(SpaceSeparators(g)) && LowerAll(SpaceSeparators(g)) == SpaceSeparators(g)
    ensures SpaceSeparators(g) == "" <==> g == ""
  {
    if g == "" {
    } else {
      GapIsBlank(g[1..]);
    }
  }

  lemma SpacedStarts(x: string)
    requires StartsWord(x)
    ensures Spaced(x) != "" && !IsSpace(Spaced(x)[0])
  {
  }

  lemma {:induction false} TrimStartBehind(b: string, z: string)
    requires IsBlank(b)
    ensures TrimStart(b + z) == TrimStart(z)
  {
    if b == "" {
      assert b + z == z;
    } else {
      TrimStartBehind(b[1..], z);
      assert (b + z)[1..] == b[1..] + z;
    }
  }

  lemma {:induction false} TrimEndBefore(z: string, b: string)
    requires IsBlank(b)
    ensures TrimEnd(z + b) == TrimEnd(z)
  {
    if b == "" {
      assert z + b == z;
    } else {
      TrimEndBefore(z, b[..|b| - 1]);
      assert (z + b)[..|z + b| - 1] == z + b[..|b| - 1];
    }
  }

  lemma {:induction false} TrimEndBehind(p: string, z: string)
    requires z != "" && !IsSpace(z[0])
    ensures TrimEnd(p + z) == p + TrimEnd(z) && TrimEnd(z) != "" && TrimEnd(z)[0] == z[0]
  {
    if !IsSpace(z[|z| - 1]) {
    } else {
      TrimEndBehind(p, z[..|z| - 1]);
      assert (p + z)[..|p + z| - 1] == p + z[..|z| - 1];
    }
  }

  lemma SplitAtBlank(w: string, b: string, z: string)
    requires Solid(w) && b != "" && IsBlank(b) && z != "" && !IsSpace(z[0])
    ensures SplitSpaces(w + b + z) == [w] + SplitSpaces(z)
  {
    var s := w + b + z;
    FirstSpaceIs(s, |w|);
    assert s[|w|] == b[0] && s[..|w|] == w && s[|w| + 1..] == b[1..] + z;
    TrimStartBehind(b[1..], z);
  }

  lemma CamelOfThree(w: string, g: string, x: string)
    requires Solid(w) && NoCamel(w) && g != "" && IsGap(g)
    ensures SplitCamel(w + g + x) == w + (g + SplitCamel(x))
  {
    assert w + g + x == w + (g + x);
    SplitCamelConcat(w, g + x);
    SplitCamelBehindGap(g, x);
    NothingBetween(w, g + SplitCamel(x));
  }

  lemma SeparatorsOfThree(w: string, g: string, x: string)
    requires Solid(w) && IsGap(g) && (x == "" || !IsSeparator(x[0]))
    ensures SpaceSeparators(w + (g + x)) == w + (SpaceSeparators(g) + SpaceSeparators(x))
  {
    SpaceSeparatorsConcat(w, g + x);
    SpaceSeparatorsOfBoth(g, x);
  }

  lemma SpacedOfThree(w: string, g: string, x: string)
    requires Solid(w) && NoCamel(w) && g != "" && IsGap(g) && StartsWord(x)
    ensures Spaced(w + g + x) == LowerAll(w) + SpaceSeparators(g) + Spaced(x)
  {
    CamelOfThree(w, g, x);
    FirstStays(x);
    SeparatorsOfThree(w, g, SplitCamel(x));
    LowerOfThree(w, SpaceSeparators(g), SpaceSeparators(SplitCamel(x)));
    GapIsBlank(g);
  }

  lemma FirstStays(x: string)
    requires x != ""
    ensures SplitCamel(x) != "" && SplitCamel(x)[0] == x[0]
  {
  }

  lemma LowerOfThree(s: string, t: string, u: string)
    ensures LowerAll(s + (t + u)) == LowerAll(s) + LowerAll(t) + LowerAll(u)
  {
  }

  /** What the words of any text are, with the next two: text up to a gap, if it shows no
      boundary of its own, is one word in lower case, and the rest is read on. */
  lemma SplitsAtGap(w: string, g: string, x: string)
    requires Solid(w) && NoCamel(w) && g != "" && IsGap(g) && StartsWord(x)
    ensures SplitWords(w + g + x) == [LowerAll(w)] + SplitWords(x)
  {
    SpacedOfThree(w, g, x);
    GapIsBlank(g);
    SpacedStarts(x);
    var front, rest := LowerAll(w) + SpaceSeparators(g), Spaced(x);
    assert front[0] == LowerAll(w)[0];
    TrimEndBehind(front, rest);
    SplitAtBlank(LowerAll(w), SpaceSeparators(g), TrimEnd(rest));
  }

  lemma LastWord(w: string, g: string)
    requires Solid(w) && NoCamel(w) && IsGap(g)
    ensures SplitWords(w + g) == [LowerAll(w)]
  {
    GapIsBlank(g);
    SpacedOfTwo(w, g);
    TrimEndBefore(LowerAll(w), SpaceSeparators(g));
    FirstSpaceIs(LowerAll(w), |w|);
  }

  lemma SpacedOfTwo(w: string, g: string)
    requires Solid(w) && NoCamel(w) && IsGap(g)
    ensures Spaced(w + g) == LowerAll(w) + SpaceSeparators(g)
  {
    if g == "" {
      assert w + g == w;
      SplitCamelKeeps(w);
      SpaceSeparatorsKeeps(w);
    } else {
      SplitCamelConcat(w, g);
      GapKeepsCamel(g);
      NothingBetween(w, g);
      SpaceSeparatorsConcat(w, g);
      LowerOfConcat(w, SpaceSeparators(g));
      GapIsBlank(g);
    }
  }

  lemma FrontGapIsIgnored(g: string, x: string)
    requires IsGap(g) && StartsWord(x)
    ensures SplitWords(g + x) == SplitWords(x)
  {
    GapIsBlank(g);
    SplitCamelBehindGap(g, x);
    FirstStays(x);
    SpaceSeparatorsOfBoth(g, SplitCamel(x));
    LowerOfConcat(SpaceSeparators(g), SpaceSeparators(SplitCamel(x)));
    TrimStartBehind(SpaceSeparators(g), Spaced(x));
  }

  /** Text without any word has one empty word, on which title and pascal throw. */
  lemma GapHasNoWord(g: string, t: CaseType)
    requires IsGap(g) && g != ""
    ensures SplitWords(g) == [""]
    ensures ConvertCase(g, t) == None <==> t == Title || t == Pascal
  {
    GapIsBlank(g);
    GapKeepsCamel(g);
    TrimStartBehind(Spaced(g), "");
    assert Spaced(g) + "" == Spaced(g);
  }

  // ----- Round trips that always hold -----

  /** The nine cases that lose no word boundary. */
  predicate KeepsBoundaries(t: CaseType) {
    !t.Camel? && !t.Pascal?
  }

  lemma LowerPrintRoundTrip(words: seq<string>, c: char)
    requires AreWords(words) && (IsSeparator(c) || c == ' ')
    ensures SplitWords(Join(words, [c])) == words
  {
    var s := Join(words, [c]);
    WordsAreSolid(words);
    JoinHasNoUpper(words, [c]);
    SplitCamelKeeps(s);
    SeparatorsBecomeSpaces(words, c);
    JoinHasNoUpper(words, " ");
    LowerSame(Join(words, " "));
    WordsBehind(s, words);
  }

  lemma {:induction false} SeparatorsOfUpper(s: string)
    ensures SpaceSeparators(UpperAll(s)) == UpperAll(SpaceSeparators(s))
  {
    if s == "" {
    } else {
      SeparatorsOfUpper(s[1..]);
      assert UpperAll(s)[1..] == UpperAll(s[1..]);
    }
  }

  lemma UpperHasNoCamel(s: string)
    ensures NoCamel(UpperAll(s))
  {
  }

  lemma UpperPrintRoundTrip(words: seq<string>, c: char)
    requires AreWords(words) && (IsSeparator(c) || c == ' ')
    ensures SplitWords(UpperAll(Join(words, [c]))) == words
  {
    var s := Join(words, [c]);
    WordsAreSolid(words);
    UpperHasNoCamel(s);
    SplitCamelKeeps(UpperAll(s));
    SeparatorsOfUpper(s);
    SeparatorsBecomeSpaces(words, c);
    JoinHasNoUpper(words, " ");
    LowerUndoesUpper(Join(words, " "));
    WordsBehind(UpperAll(s), words);
  }

  lemma {:induction false} SpacedHasNoCamel(parts: seq<string>)
    requires AllSolid(parts) && forall i :: 0 <= i < |parts| ==> NoCamel(parts[i])
    ensures NoCamel(Join(parts, " "))
  {
    if |parts| == 1 {
    } else {
      var rest := Join(parts[1..], " ");
      SpacedHasNoCamel(parts[1..]);
      var s := Join(parts, " ");
      assert s == parts[0] + " " + rest;
      forall i | 0 <= i < |s| - 1
        ensures !(IsLower(s[i]) && IsUpper(s[i + 1]))
      {
        if i < |parts[0]| - 1 {
          assert s[i] == parts[0][i] && s[i + 1] == parts[0][i + 1];
        } else if i > |parts[0]| {
          var j := i - |parts[0]| - 1;
          assert s[i] == rest[j] && s[i + 1] == rest[j + 1];
        }
      }
    }
  }

  lemma TitleRoundTrip(words: seq<string>)
    requires AreWords(words)
    ensures SplitWords(Join(CapitalizeAll(words), " ")) == words
  {
    var parts := CapitalizeAll(words);
    CapitalisedAreSolid(words);
    PartsHaveNoCamel(words);
    SpacedHasNoCamel(parts);
    SplitCamelKeeps(Join(parts, " "));
    SeparatorsBecomeSpaces(parts, ' ');
    LowerOfJoin(parts);
    WordsBehind(Join(parts, " "), words);
  }

  lemma SentenceRoundTrip(words: seq<string>)
    requires AreWords(words)
    ensures SplitWords(Capitalize(Join(words, " "))) == words
  {
    var s := Join(words, " ");
    WordsAreSolid(words);
    JoinHasNoUpper(words, " ");
    JoinEnds(words, " ");
    CapitalIsUndone(s);
    SplitCamelKeeps(Capitalize(s));
    SeparatorsBecomeSpaces(words, ' ');
    assert Solid(words[0]);
    CapitalKeepsSpacing(s);
    WordsBehind(Capitalize(s), words);
  }

  lemma CapitalKeepsSpacing(s: string)
    requires s != "" && !IsSeparator(s[0]) && SpaceSeparators(s) == s
    ensures SpaceSeparators(Capitalize(s)) == Capitalize(s)
  {
    assert Capitalize(s)[1..] == s[1..];
    assert SpaceSeparators(s)[1..] == SpaceSeparators(s[1..]);
  }

  /** Parsing what was printed gives the words back, for nine of the eleven cases. */
  lemma RoundTrip(words: seq<string>, t: CaseType)
    requires AreWords(words) && KeepsBoundaries(t)
    ensures SplitWords(Print(words, t)) == words
  {
    match t
    case Upper => UpperPrintRoundTrip(words, ' ');
    case Lower =>
      JoinHasNoUpper(words, " ");
      LowerSame(Join(words, " "));
      LowerPrintRoundTrip(words, ' ');
    case Title => TitleRoundTrip(words);
    case Sentence => SentenceRoundTrip(words);
    case Kebab => LowerPrintRoundTrip(words, '-');
    case Snake => LowerPrintRoundTrip(words, '_');
    case Constant => UpperPrintRoundTrip(words, '_');
    case Dot => LowerPrintRoundTrip(words, '.');
    case Path => LowerPrintRoundTrip(words, '/');
  }

  // ----- Camel and pascal: exactly when -----

  /** A boundary between two printed parts that the parser can see. */
  predicate Visible(p: string, q: string) {
    p != "" && q != "" && IsLower(p[|p| - 1]) && IsUpper(q[0])
  }

  /** What is left of the parts once invisible boundaries are gone. */
  function Glue(parts: seq<string>): (g: seq<string>)
    ensures |g| <= |parts| && (parts != [] ==> g != [])
  {
    if |parts| <= 1 then parts
    else
      var g := Glue(parts[1..]);
      if Visible(parts[0], parts[1]) then [parts[0]] + g else [parts[0] + g[0]] + g[1..]
  }

  ghost predicate AllVisible(parts: seq<string>) {
    forall i, j :: 0 <= i < j < |parts| && j == i + 1 ==> Visible(parts[i], parts[j])
  }

  lemma {:induction false} GlueKeepsIff(parts: seq<string>)
    ensures if AllVisible(parts) then Glue(parts) == parts else |Glue(parts)| < |parts|
  {
    if |parts| <= 1 {
    } else {
      GlueKeepsIff(parts[1..]);
      if Visible(parts[0], parts[1]) && AllVisible(parts[1..]) {
        forall i | 0 <= i < |parts| - 1
          ensures Visible(parts[i], parts[i + 1])
        {
          if i > 0 {
            assert Visible(parts[1..][i - 1], parts[1..][i]);
          }
        }
        assert parts == [parts[0]] + parts[1..];
      }
    }
  }

  lemma {:induction false} GlueIsSolid(parts: seq<string>)
    requires AllSolid(parts)
    ensures AllSolid(Glue(parts)) && Glue(parts)[0][0] == parts[0][0]
  {
    if |parts| == 1 {
    } else {
      GlueIsSolid(parts[1..]);
    }
  }

  lemma SplitCamelOneChar(c: char, rest: string)
    requires rest != ""
    ensures SplitCamel([c] + rest) == [c] + (if IsLower(c) && IsUpper(rest[0]) then " " else "") + SplitCamel(rest)
  {
    var s := [c] + rest;
    assert s[1..] == rest && s[2..] == rest[1..];
  }

  lemma SplitCamelSkips(s: string)
    requires |s| >= 2 && !(IsLower(s[0]) && IsUpper(s[1]))
    ensures SplitCamel(s) == [s[0]] + SplitCamel(s[1..])
  {
  }

  lemma {:induction false} SplitCamelConcat(p: string, rest: string)
    requires p != "" && rest != "" && NoCamel(p)
    ensures SplitCamel(p + rest) == p + (if IsLower(p[|p| - 1]) && IsUpper(rest[0]) then " " else "") + SplitCamel(rest)
  {
    if |p| == 1 {
      SplitCamelOneChar(p[0], rest);
    } else {
      SplitCamelConcat(p[1..], rest);
      SplitCamelSkips(p + rest);
      assert (p + rest)[1..] == p[1..] + rest;
      assert p == [p[0]] + p[1..];
    }
  }

  /** The parser puts a space exactly at the visible boundaries. */
  lemma {:induction false} SplitCamelGlues(parts: seq<string>)
    requires AllSolid(parts) && forall i :: 0 <= i < |parts| ==> NoCamel(parts[i])
    ensures SplitCamel(Join(parts, "")) == Join(Glue(parts), " ")
  {
    if |parts| == 1 {
      SplitCamelKeeps(parts[0]);
    } else {
      assert Solid(parts[0]) && Solid(parts[1]);
      JoinEnds(parts[1..], "");
      SplitCamelGlues(parts[1..]);
      GlueOneMore(parts[0], parts[1], Join(parts[1..], ""), Glue(parts[1..]));
      NothingBetween(parts[0], Join(parts[1..], ""));
    }
  }

  lemma NothingBetween(s: string, t: string)
    ensures s + "" + t == s + t
  {
  }

  lemma GlueOneMore(p: string, q: string, rest: string, g: seq<string>)
    requires p != "" && NoCamel(p) && q != "" && rest != "" && rest[0] == q[0]
    requires g != [] && SplitCamel(rest) == Join(g, " ")
    ensures SplitCamel(p + rest) == Join(if Visible(p, q) then [p] + g else [p + g[0]] + g[1..], " ")
  {
    SplitCamelConcat(p, rest);
    if Visible(p, q) {
      assert ([p] + g)[1..] == g;
    } else {
      GluedJoin(p, g);
      NothingBetween(p, SplitCamel(rest));
    }
  }

  lemma GluedJoin(p: string, g: seq<string>)
    requires g != []
    ensures Join([p + g[0]] + g[1..], " ") == p + Join(g, " ")
  {
    var h := [p + g[0]] + g[1..];
    if |g| > 1 {
      assert h[1..] == g[1..];
    }
  }

  lemma {:induction false} JoinHasNoSeparator(words: seq<string>)
    requires AllSolid(words)
    ensures NoSeparator(Join(words, " "))
  {
    assert Solid(words[0]);
    if |words| == 1 {
    } else {
      JoinHasNoSeparator(words[1..]);
    }
  }

  lemma LowerKeepsSolid(words: seq<string>)
    requires AllSolid(words)
    ensures AllSolid(LowerEach(words))
  {
    forall i | 0 <= i < |words|
      ensures Solid(LowerAll(words[i]))
    {
      assert Solid(words[i]);
    }
  }

  lemma PartsReadBack(parts: seq<string>)
    requires AllSolid(parts) && forall i :: 0 <= i < |parts| ==> NoCamel(parts[i])
    ensures SplitWords(Join(parts, "")) == LowerEach(Glue(parts))
  {
    var g := Glue(parts);
    SplitCamelGlues(parts);
    GlueIsSolid(parts);
    JoinHasNoSeparator(g);
    SpaceSeparatorsKeeps(Join(g, " "));
    LowerOfJoin(g);
    LowerKeepsSolid(g);
    WordsBehind(Join(parts, ""), LowerEach(g));
  }

  /** `w` is printed ending in a lower-case letter and `next` starting with a capital; a
      capitalised `w` of one character would end in that capital. */
  predicate BoundaryShows(w: string, next: string, capitalised: bool) {
    w != "" && next != "" && IsLower(w[|w| - 1]) && IsLower(next[0]) && (capitalised ==> |w| >= 2)
  }

  ghost predicate CamelKeepsBoundaries(words: seq<string>) {
    forall i, j :: 0 <= i < j < |words| && j == i + 1 ==> BoundaryShows(words[i], words[j], i > 0)
  }

  ghost predicate PascalKeepsBoundaries(words: seq<string>) {
    forall i, j :: 0 <= i < j < |words| && j == i + 1 ==> BoundaryShows(words[i], words[j], true)
  }

  lemma {:induction false} LowerEachGlueLength(parts: seq<string>, words: seq<string>)
    requires LowerEach(parts) == words
    ensures LowerEach(Glue(parts)) == words <==> AllVisible(parts)
  {
    GlueKeepsIff(parts);
    assert |LowerEach(Glue(parts))| == |Glue(parts)|;
  }

  lemma PartsHaveNoCamel(words: seq<string>)
    requires AreWords(words)
    ensures forall i :: 0 <= i < |words| ==> NoCamel(CapitalizeAll(words)[i])
    ensures forall i :: 0 <= i < |words| ==> NoCamel(CamelParts(words)[i])
  {
    forall i | 0 <= i < |words|
      ensures NoCamel(words[i]) && NoCamel(Capitalize(words[i]))
    {
      assert IsWord(words[i]);
    }
  }

  lemma CapitalShows(w: string, next: string)
    requires IsWord(w) && IsWord(next)
    ensures Visible(Capitalize(w), Capitalize(next)) <==> BoundaryShows(w, next, true)
    ensures Visible(w, Capitalize(next)) <==> BoundaryShows(w, next, false)
  {
  }

  /** Parsing printed camel gives the words back if and only if every word but the last ends
      in a letter, every word but the first begins with one, and interior words have two
      characters or more. Over letters only, that is the condition on length alone. */
  lemma CamelRoundTripIff(words: seq<string>)
    requires AreWords(words)
    ensures SplitWords(Print(words, Camel)) == words <==> CamelKeepsBoundaries(words)
  {
    var parts := CamelParts(words);
    CamelPartsAreSolid(words);
    PartsHaveNoCamel(words);
    PartsReadBack(parts);
    LowerEachGlueLength(parts, words);
    forall i, j | 0 <= i < j < |words| && j == i + 1
      ensures Visible(parts[i], parts[j]) <==> BoundaryShows(words[i], words[j], i > 0)
    {
      CapitalShows(words[i], words[j]);
    }
  }

  /** The same for pascal, where the first word is capitalised too. */
  lemma PascalRoundTripIff(words: seq<string>)
    requires AreWords(words)
    ensures SplitWords(Print(words, Pascal)) == words <==> PascalKeepsBoundaries(words)
  {
    var parts := CapitalizeAll(words);
    CapitalisedAreSolid(words);
    PartsHaveNoCamel(words);
    PartsReadBack(parts);
    LowerEachGlueLength(parts, words);
    forall i, j | 0 <= i < j < |words| && j == i + 1
      ensures Visible(parts[i], parts[j]) <==> BoundaryShows(words[i], words[j], true)
    {
      CapitalShows(words[i], words[j]);
    }
  }

  predicate IsLetters(w: string) {
    w != "" && forall k :: 0 <= k < |w| ==> IsLower(w[k])
  }

  predicate AllLetters(words: seq<string>) {
    words != [] && forall i :: 0 <= i < |words| ==> IsLetters(words[i])
  }

  /** Every word from `first` on, the last one excepted, has two characters or more. */
  predicate LongFrom(words: seq<string>, first: nat) {
    forall i :: first <= i < |words| - 1 ==> |words[i]| >= 2
  }

  lemma LettersShow(words: seq<string>)
    requires AllLetters(words)
    ensures AreWords(words)
    ensures CamelKeepsBoundaries(words) <==> LongFrom(words, 1)
    ensures PascalKeepsBoundaries(words) <==> LongFrom(words, 0)
  {
    forall i | 0 <= i < |words|
      ensures IsWord(words[i])
    {
      assert IsLetters(words[i]);
    }
    forall i, j | 0 <= i < j < |words| && j == i + 1
      ensures BoundaryShows(words[i], words[j], i > 0) <==> (i > 0 ==> |words[i]| >= 2)
      ensures BoundaryShows(words[i], words[j], true) <==> |words[i]| >= 2
    {
      assert IsLetters(words[i]) && IsLetters(words[j]);
    }
    if !LongFrom(words, 0) {
      var i :| 0 <= i < |words| - 1 && |words[i]| < 2;
      assert !BoundaryShows(words[i], words[i + 1], true);
    }
    if !LongFrom(words, 1) {
      var i :| 1 <= i < |words| - 1 && |words[i]| < 2;
      assert !BoundaryShows(words[i], words[i + 1], i > 0);
    }
  }

  /** Over letters alone only lengths matter: interior words for camel, all but the last for pascal. */
  lemma LettersRoundTripIff(words: seq<string>)
    requires AllLetters(words)
    ensures SplitWords(Print(words, Camel)) == words <==> LongFrom(words, 1)
    ensures SplitWords(Print(words, Pascal)) == words <==> LongFrom(words, 0)
  {
    LettersShow(words);
    CamelRoundTripIff(words);
    PascalRoundTripIff(words);
  }

  /** Converting through one of the nine cases first changes no later conversion. */
  lemma ConversionsCompose(input: string, first: CaseType, second: CaseType)
    requires AreWords(SplitWords(input)) && KeepsBoundaries(first) && input != ""
    ensures ConvertCase(input, first).Some? && ConvertCase(input, first).value != ""
    ensures ConvertCase(ConvertCase(input, first).value, second) == ConvertCase(input, second)
  {
    var words := SplitWords(input);
    assert forall i :: 0 <= i < |words| ==> IsWord(words[i]);
    RoundTrip(words, first);
    PrintIsNotEmpty(words, first);
  }

  lemma PrintIsNotEmpty(words: seq<string>, t: CaseType)
    requires AreWords(words) && KeepsBoundaries(t)
    ensures Print(words, t) != ""
  {
    WordsAreSolid(words);
    CapitalisedAreSolid(words);
    JoinEnds(words, " ");
    JoinEnds(words, "-");
    JoinEnds(words, "_");
    JoinEnds(words, ".");
    JoinEnds(words, "/");
    JoinEnds(CapitalizeAll(words), " ");
  }
}
