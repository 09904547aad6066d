// Hashtags in post content: the regular-expression scanner and what it finds.
module HashtagUtil {
  import opened Base

  /** The Unicode tables the code relies on, left abstract: the word class of the
      pattern, white space, lower-casing followed by NFKC normalisation, and lower-casing. */
  datatype Alphabet = Alphabet(isWord: char -> bool, isSpace: char -> bool,
                               fold: string -> string, lower: string -> string)

  /** All that the scanner needs of them: '#' is no letter, digit or underscore. */
  predicate Proper(a: Alphabet) {
    !a.isWord('#')
  }

  const MAX_SLUG := 120

  function TrimStart(a: Alphabet, s: string): string {
    if s != "" && a.isSpace(s[0]) then TrimStart(a, s[1..]) else s
  }

  function TrimEnd(a: Alphabet, s: string): string {
    if s != "" && a.isSpace(s[|s| - 1]) then TrimEnd(a, s[..|s| - 1]) else s
  }

  function Trim(a: Alphabet, s: string): string {
    TrimEnd(a, TrimStart(a, s))
  }

  /** `replace(/^#+/, '')` */
  function StripHashes(s: string): string {
    if s != "" && s[0] == '#' then StripHashes(s[1..]) else s
  }

  function NormalizeHashtagSlug(a: Alphabet, raw: string): string {
    var folded := a.fold(StripHashes(Trim(a, raw)));
    if |folded| <= MAX_SLUG then folded else folded[..MAX_SLUG]
  }

  predicate AllSpace(a: Alphabet, s: string) {
    forall i :: 0 <= i < |s| ==> a.isSpace(s[i])
  }

  predicate AllHashes(s: string) {
    forall i :: 0 <= i < |s| ==> s[i] == '#'
  }

  lemma {:induction false} StartForm(a: Alphabet, s: string) returns (lead: string)
    ensures s == lead + TrimStart(a, s) && AllSpace(a, lead)
    ensures TrimStart(a, s) != "" ==> !a.isSpace(TrimStart(a, s)[0])
  {
    if s == "" || !a.isSpace(s[0]) {
      lead := "";
    } else {
      var rest := StartForm(a, s[1..]);
      lead := [s[0]] + rest;
    }
  }

  lemma {:induction false} EndForm(a: Alphabet, s: string) returns (trail: string)
    ensures s == TrimEnd(a, s) + trail && AllSpace(a, trail)
    ensures TrimEnd(a, s) != "" ==> !a.isSpace(TrimEnd(a, s)[|TrimEnd(a, s)| - 1])
  {
    if s == "" || !a.isSpace(s[|s| - 1]) {
      trail := "";
    } else {
      var rest := EndForm(a, s[..|s| - 1]);
      trail := rest + [s[|s| - 1]];
    }
  }

  lemma {:induction false} StripHashesHolds(s: string)
    ensures
      var n := |s| - |StripHashes(s)|;
      && n >= 0 && StripHashes(s) == s[n..] && AllHashes(s[..n])
      && (StripHashes(s) != "" ==> StripHashes(s)[0] != '#')
  {
    if s == "" || s[0] != '#' {
    } else {
      StripHashesHolds(s[1..]);
    }
  }

  /** Neither end is white space. */
  predicate Tight(a: Alphabet, s: string) {
    s != "" ==> !a.isSpace(s[0]) && !a.isSpace(s[|s| - 1])
  }

  lemma TrimForm(a: Alphabet, raw: string) returns (lead: string, trail: string)
    ensures raw == lead + (Trim(a, raw) + trail)
    ensures AllSpace(a, lead) && AllSpace(a, trail) && Tight(a, Trim(a, raw))
  {
    lead := StartForm(a, raw);
    trail := EndForm(a, TrimStart(a, raw));
  }

  /** The normal form: between the white space at both ends and behind all leading hashes,
      folded, and at most 120 characters of it. The four parts are unique. */
  lemma NormalForm(a: Alphabet, raw: string) returns (lead: string, hashes: string, core: string, trail: string)
    ensures raw == lead + (hashes + core + trail)
    ensures AllSpace(a, lead) && AllSpace(a, trail) && Tight(a, hashes + core)
    ensures AllHashes(hashes) && (core != "" ==> core[0] != '#')
    ensures NormalizeHashtagSlug(a, raw) == a.fold(core)[..if |a.fold(core)| <= 120 then |a.fold(core)| else 120]
  {
    lead, trail := TrimForm(a, raw);
    hashes, core := HashForm(Trim(a, raw));
  }

  lemma HashForm(s: string) returns (hashes: string, core: string)
    ensures s == hashes + core && core == StripHashes(s)
    ensures AllHashes(hashes) && (core != "" ==> core[0] != '#')
  {
    StripHashesHolds(s);
    core := StripHashes(s);
    hashes := s[..|s| - |core|];
  }

  // ----- What a hashtag is -----

  /** A '#' starts a tag iff nothing of a word stands before it and a word follows it. */
  predicate StartsTag(a: Alphabet, content: string, i: nat) {
    && i + 1 < |content|
    && content[i] == '#'
    && (i == 0 || !a.isWord(content[i - 1]))
    && a.isWord(content[i + 1])
  }

  /** The end of the maximal run of word characters that begins at `i`. */
  function WordEnd(a: Alphabet, content: string, i: nat): (end: nat)
    requires i <= |content|
    ensures i <= end <= |content|
    ensures forall j :: i <= j < end ==> a.isWord(content[j])
    ensures end < |content| ==> !a.isWord(content[end])
    decreases |content| - i
  {
    if i < |content| && a.isWord(content[i]) then WordEnd(a, content, i + 1) else i
  }

  /** The words of all tags that start at `from` or later, left to right. */
  function TagWords(a: Alphabet, content: string, from: nat): seq<string>
    decreases |content| - from
  {
    if from >= |content| then []
    else if StartsTag(a, content, from)
    then [content[from + 1..WordEnd(a, content, from + 1)]] + TagWords(a, content, from + 1)
    else TagWords(a, content, from + 1)
  }

  /** Normalised, without the empty ones. */
  function Slugs(a: Alphabet, words: seq<string>): seq<string> {
    if words == [] then []
    else
      var rest := Slugs(a, words[..|words| - 1]);
      var slug := NormalizeHashtagSlug(a, words[|words| - 1]);
      if slug == "" then rest else rest + [slug]
  }

  /** The specification of the scanner. */
  function ContentHashtags(a: Alphabet, content: string): seq<string> {
    FirstOccurrences(Slugs(a, TagWords(a, content, 0)))
  }

  lemma {:induction false} SlugsHold(a: Alphabet, words: seq<string>, slug: string)
    ensures slug in Slugs(a, words) <==> slug != "" && exists w :: w in words && NormalizeHashtagSlug(a, w) == slug
  {
    if words == [] {
    } else {
      SlugsHold(a, words[..|words| - 1], slug);
      assert words == words[..|words| - 1] + [words[|words| - 1]];
    }
  }

  lemma {:induction false} TagWordsHold(a: Alphabet, content: string, from: nat, w: string)
    ensures w in TagWords(a, content, from) <==>
      exists i: nat :: from <= i && StartsTag(a, content, i) && w == content[i + 1..WordEnd(a, content, i + 1)]
    decreases |content| - from
  {
    if from >= |content| {
    } else {
      TagWordsHold(a, content, from + 1, w);
    }
  }

  /** A '#' at `i` that no word character precedes, and behind it a maximal run of word
      characters, not empty, up to `end`. */
  predicate IsTag(a: Alphabet, content: string, i: nat, end: nat) {
    && i + 1 < end <= |content| && content[i] == '#' && (i > 0 ==> !a.isWord(content[i - 1]))
    && (forall j :: i < j < end ==> a.isWord(content[j]))
    && (end < |content| ==> !a.isWord(content[end]))
  }

  /** A tag at `i`, whose word has the normal form `slug`. */
  ghost predicate TagYields(a: Alphabet, content: string, i: nat, slug: string) {
    exists end: nat :: IsTag(a, content, i, end) && NormalizeHashtagSlug(a, content[i + 1..end]) == slug
  }

  lemma TagYieldsWord(a: Alphabet, content: string, i: nat, slug: string)
    ensures TagYields(a, content, i, slug) <==>
      StartsTag(a, content, i) && NormalizeHashtagSlug(a, content[i + 1..WordEnd(a, content, i + 1)]) == slug
  {
    if StartsTag(a, content, i) {
      assert IsTag(a, content, i, WordEnd(a, content, i + 1));
    }
  }

  /** A slug is found iff it is the non-empty normal form of the word of some tag. */
  lemma HashtagFoundIff(a: Alphabet, content: string, slug: string)
    ensures NoDuplicates(ContentHashtags(a, content))
    ensures slug in ContentHashtags(a, content) <==>
      slug != "" && exists i: nat :: TagYields(a, content, i, slug)
  {
    var words := TagWords(a, content, 0);
    FirstOccurrencesInOrder(Slugs(a, words));
    SlugsHold(a, words, slug);
    if i: nat :| TagYields(a, content, i, slug) {
      TagYieldsWord(a, content, i, slug);
      TagWordsHold(a, content, 0, content[i + 1..WordEnd(a, content, i + 1)]);
    }
    if w :| w in words && NormalizeHashtagSlug(a, w) == slug {
      TagWordsHold(a, content, 0, w);
      var i: nat :| StartsTag(a, content, i) && content[i + 1..WordEnd(a, content, i + 1)] == w;
      TagYieldsWord(a, content, i, slug);
    }
  }

  // ----- The pattern and its leftmost, non-overlapping matches -----

  /** Group 3 of a match: the word, from `start` to `end`, where the match ends too. */
  datatype Match = Match(start: nat, end: nat)

  predicate HashAndWord(a: Alphabet, content: string, i: nat) {
    i + 1 < |content| && content[i] == '#' && a.isWord(content[i + 1])
  }

  /** The pattern tried at position `p`: first alternative `^`, second one character
      outside the word class, which the match consumes. */
  function MatchAt(a: Alphabet, content: string, p: nat): Option<Match> {
    if p == 0 && HashAndWord(a, content, 0)
    then Some(Match(1, WordEnd(a, content, 1)))
    else if p < |content| && !a.isWord(content[p]) && HashAndWord(a, content, p + 1)
    then Some(Match(p + 2, WordEnd(a, content, p + 2)))
    else None
  }

  /** What the next match from lastIndex on is: the first tag that starts there or later. */
  ghost predicate FirstTag(a: Alphabet, content: string, lastIndex: nat, m: Option<Match>) {
    && (m.None? ==> forall i :: lastIndex <= i ==> !StartsTag(a, content, i))
    && (m.Some? ==>
      && lastIndex < m.value.start < m.value.end <= |content|
      && StartsTag(a, content, m.value.start - 1)
      && m.value.end == WordEnd(a, content, m.value.start)
      && forall i :: lastIndex <= i < m.value.start - 1 ==> !StartsTag(a, content, i))
  }

  /** `re.exec(content)` with the global flag: the leftmost match from lastIndex on.
      Consuming the character before the '#' loses no tag, whenever lastIndex is 0 or
      stands just behind a word. */
  method Exec(a: Alphabet, content: string, lastIndex: nat) returns (m: Option<Match>)
    requires Proper(a) && lastIndex <= |content|
    requires lastIndex > 0 ==> a.isWord(content[lastIndex - 1])
    ensures FirstTag(a, content, lastIndex, m)
  {
    var p: nat := lastIndex;
    while p < |content|
      invariant lastIndex <= p <= |content|
      invariant forall i :: lastIndex <= i < p ==> !StartsTag(a, content, i)
      invariant p > lastIndex ==> !StartsTag(a, content, p)
    {
      m := MatchAt(a, content, p);
      if m.Some? {
        return;
      }
      p := p + 1;
    }
    return None;
  }

  lemma {:induction false} SkipToTag(a: Alphabet, content: string, from: nat, to: nat)
    requires from <= to
    requires forall i :: from <= i < to ==> !StartsTag(a, content, i)
    ensures TagWords(a, content, from) == TagWords(a, content, to)
    decreases if from < to then to - from else 0
  {
    if from == to {
    } else {
      SkipToTag(a, content, from + 1, to);
    }
  }

  lemma TakeTag(a: Alphabet, content: string, lastIndex: nat, m: Match)
    requires Proper(a) && FirstTag(a, content, lastIndex, Some(m))
    ensures TagWords(a, content, lastIndex) == [content[m.start..m.end]] + TagWords(a, content, m.end)
    ensures a.isWord(content[m.end - 1])
  {
    SkipToTag(a, content, lastIndex, m.start - 1);
    SkipToTag(a, content, m.start, m.end);
  }

  lemma NoTagLeft(a: Alphabet, content: string, lastIndex: nat)
    requires lastIndex <= |content| && FirstTag(a, content, lastIndex, None)
    ensures TagWords(a, content, lastIndex) == []
  {
    SkipToTag(a, content, lastIndex, |content|);
  }

  /** The scanner finds exactly the specified hashtags, in order, for every string. */
  method ExtractHashtagsFromContent(a: Alphabet, content: Option<string>) returns (out: seq<string>)
    requires Proper(a)
    ensures out == ContentHashtags(a, content.GetOr(""))
  {
    out := [];
    if content.None? || content.value == "" {
      assert TagWords(a, "", 0) == [];
      return;
    }
    var text := content.value;
    var lastIndex: nat := 0;
    ghost var words := [];
    var m := Exec(a, text, lastIndex);
    while m.Some?
      invariant lastIndex <= |text| && (lastIndex > 0 ==> a.isWord(text[lastIndex - 1]))
      invariant FirstTag(a, text, lastIndex, m)
      invariant TagWords(a, text, 0) == words + TagWords(a, text, lastIndex)
      invariant out == FirstOccurrences(Slugs(a, words))
      decreases m.Some?, |text| - lastIndex
    {
      var word := text[m.value.start..m.value.end];
      TakeTag(a, text, lastIndex, m.value);
      lastIndex := m.value.end;
      assert words + ([word] + TagWords(a, text, lastIndex)) == (words + [word]) + TagWords(a, text, lastIndex);
      out := AddSlug(a, words, word, out);
      words := words + [word];
      m := Exec(a, text, lastIndex);
    }
    NoTagLeft(a, text, lastIndex);
    assert words + [] == words;
  }

  /** The body of both loops: skip an empty or known slug, else push it. */
  method AddSlug(a: Alphabet, ghost words: seq<string>, word: string, out: seq<string>) returns (out': seq<string>)
    requires out == FirstOccurrences(Slugs(a, words))
    ensures out' == FirstOccurrences(Slugs(a, words + [word]))
  {
    assert (words + [word])[..|words|] == words;
    var slug := NormalizeHashtagSlug(a, word);
    FirstOccurrencesSnoc(Slugs(a, words), slug);
    if slug == "" || slug in out {
      return out;
    }
    return out + [slug];
  }

  // ----- Manual tags -----

  datatype TagType = USER | LOCATION | HASHTAG

  datatype TagLike = TagLike(targetId: Option<string>, targetName: Option<string>, tagType: TagType)

  function ManualRaw(a: Alphabet, t: TagLike): string {
    var id := Trim(a, t.targetId.GetOr(""));
    if id != "" then id else NormalizeHashtagSlug(a, StripHashes(t.targetName.GetOr("")))
  }

  function ManualWords(a: Alphabet, tags: seq<TagLike>): seq<string> {
    if tags == [] then []
    else
      var rest, t := ManualWords(a, tags[..|tags| - 1]), tags[|tags| - 1];
      if t.tagType == HASHTAG then rest + [ManualRaw(a, t)] else rest
  }

  function ManualHashtags(a: Alphabet, tags: seq<TagLike>): seq<string> {
    FirstOccurrences(Slugs(a, ManualWords(a, tags)))
  }

  lemma {:induction false} ManualWordsHold(a: Alphabet, tags: seq<TagLike>, w: string)
    ensures w in ManualWords(a, tags) <==> exists t :: t in tags && t.tagType == HASHTAG && ManualRaw(a, t) == w
  {
    if tags == [] {
    } else {
      ManualWordsHold(a, tags[..|tags| - 1], w);
      assert tags == tags[..|tags| - 1] + [tags[|tags| - 1]];
    }
  }

  /** A tag goes by its id, if that is not blank, and otherwise by its name without hashes. */
  predicate GoesBy(a: Alphabet, t: TagLike, raw: string) {
    var id := Trim(a, if t.targetId.Some? then t.targetId.value else "");
    var name := StripHashes(if t.targetName.Some? then t.targetName.value else "");
    raw == if id != "" then id else NormalizeHashtagSlug(a, name)
  }

  ghost predicate TagNames(a: Alphabet, t: TagLike, slug: string) {
    exists raw :: GoesBy(a, t, raw) && NormalizeHashtagSlug(a, raw) == slug
  }

  /** A slug is found if and only if it is the non-empty normal form of some HASHTAG tag. */
  lemma ManualHashtagFoundIff(a: Alphabet, tags: seq<TagLike>, slug: string)
    ensures NoDuplicates(ManualHashtags(a, tags))
    ensures slug in ManualHashtags(a, tags) <==>
      slug != "" && exists t :: t in tags && t.tagType == HASHTAG && TagNames(a, t, slug)
  {
    var words := ManualWords(a, tags);
    FirstOccurrencesInOrder(Slugs(a, words));
    SlugsHold(a, words, slug);
    if w :| w in words && NormalizeHashtagSlug(a, w) == slug {
      ManualWordsHold(a, tags, w);
    }
    forall t
      ensures TagNames(a, t, slug) <==> NormalizeHashtagSlug(a, ManualRaw(a, t)) == slug
    {
      assert GoesBy(a, t, ManualRaw(a, t));
    }
    if t :| t in tags && t.tagType == HASHTAG && TagNames(a, t, slug) {
      ManualWordsHold(a, tags, ManualRaw(a, t));
    }
  }

  method HashtagsFromManualTags(a: Alphabet, tags: seq<TagLike>) returns (out: seq<string>)
    ensures out == ManualHashtags(a, tags)
  {
    out := [];
    for i := 0 to |tags|
      invariant out == ManualHashtags(a, tags[..i])
    {
      assert tags[..i + 1][..i] == tags[..i];
      var t := tags[i];
      if t.tagType == HASHTAG {
        out := AddSlug(a, ManualWords(a, tags[..i]), ManualRaw(a, t), out);
      }
    }
    assert tags[..|tags|] == tags;
  }
}
