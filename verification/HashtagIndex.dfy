// The hashtag index: one HASHTAG row per slug of an indexed post, beside the USER and
// LOCATION rows that live in the same collection.
module HashtagIndex {
  import opened Base
  import opened HashtagUtil

  type PostId = nat

  datatype TagRow = TagRow(postId: PostId, tagType: TagType, targetId: string, targetName: string)

  /** The slugs a post is indexed under: content first, then manual ones, each once. */
  function MergedHashtags(a: Alphabet, content: Option<string>, manual: seq<TagLike>): seq<string> {
    FirstOccurrences(ContentHashtags(a, content.GetOr("")) + ManualHashtags(a, manual))
  }

  function WithoutHashtags(rows: seq<TagRow>, post: PostId): seq<TagRow> {
    if rows == [] then []
    else
      var rest, r := WithoutHashtags(rows[..|rows| - 1], post), rows[|rows| - 1];
      if r.postId == post && r.tagType == HASHTAG then rest else rest + [r]
  }

  function WithoutPost(rows: seq<TagRow>, post: PostId): seq<TagRow> {
    if rows == [] then []
    else
      var rest, r := WithoutPost(rows[..|rows| - 1], post), rows[|rows| - 1];
      if r.postId == post then rest else rest + [r]
  }

  function Doc(a: Alphabet, post: PostId, slug: string): TagRow {
    TagRow(post, HASHTAG, slug, "#" + NormalizeHashtagSlug(a, slug))
  }

  function Docs(a: Alphabet, post: PostId, slugs: seq<string>): seq<TagRow> {
    seq(|slugs|, i requires 0 <= i < |slugs| => Doc(a, post, slugs[i]))
  }

  function Reindexed(a: Alphabet, rows: seq<TagRow>, post: PostId, content: Option<string>,
                     manual: seq<TagLike>): seq<TagRow>
  {
    WithoutHashtags(rows, post) + Docs(a, post, MergedHashtags(a, content, manual))
  }

  /** What the index holds for a post: the slugs of its HASHTAG rows, in row order. */
  function HashtagsOf(rows: seq<TagRow>, post: PostId): seq<string> {
    if rows == [] then []
    else
      var rest, r := HashtagsOf(rows[..|rows| - 1], post), rows[|rows| - 1];
      if r.postId == post && r.tagType == HASHTAG then rest + [r.targetId] else rest
  }

  lemma {:induction false} HashtagsOfConcat(rows: seq<TagRow>, more: seq<TagRow>, post: PostId)
    ensures HashtagsOf(rows + more, post) == HashtagsOf(rows, post) + HashtagsOf(more, post)
  {
    if more == [] {
      assert rows + more == rows;
    } else {
      assert (rows + more)[..|rows + more| - 1] == rows + more[..|more| - 1];
      HashtagsOfConcat(rows, more[..|more| - 1], post);
    }
  }

  lemma HashtagsOfSnoc(rows: seq<TagRow>, r: TagRow, post: PostId)
    ensures HashtagsOf(rows + [r], post) ==
      HashtagsOf(rows, post) + if r.postId == post && r.tagType == HASHTAG then [r.targetId] else []
  {
    assert (rows + [r])[..|rows|] == rows;
  }

  lemma DocsSnoc(a: Alphabet, owner: PostId, slugs: seq<string>, slug: string)
    ensures Docs(a, owner, slugs + [slug]) == Docs(a, owner, slugs) + [Doc(a, owner, slug)]
  {
  }

  lemma HashtagsOfOneMoreDoc(a: Alphabet, owner: PostId, slugs: seq<string>, slug: string, post: PostId)
    ensures HashtagsOf(Docs(a, owner, slugs + [slug]), post) ==
      HashtagsOf(Docs(a, owner, slugs), post) + if post == owner then [slug] else []
  {
    DocsSnoc(a, owner, slugs, slug);
    HashtagsOfSnoc(Docs(a, owner, slugs), Doc(a, owner, slug), post);
  }

  lemma {:induction false} HashtagsOfDocs(a: Alphabet, owner: PostId, slugs: seq<string>, post: PostId)
    ensures HashtagsOf(Docs(a, owner, slugs), post) == if post == owner then slugs else []
  {
    if slugs == [] {
    } else {
      var front, last := slugs[..|slugs| - 1], slugs[|slugs| - 1];
      assert slugs == front + [last];
      HashtagsOfOneMoreDoc(a, owner, front, last, post);
      HashtagsOfDocs(a, owner, front, post);
    }
  }

  lemma {:induction false} HashtagsWithout(rows: seq<TagRow>, owner: PostId, post: PostId)
    ensures HashtagsOf(WithoutHashtags(rows, owner), post) == if post == owner then [] else HashtagsOf(rows, post)
    ensures HashtagsOf(WithoutPost(rows, owner), post) == if post == owner then [] else HashtagsOf(rows, post)
  {
    if rows == [] {
    } else {
      HashtagsWithout(rows[..|rows| - 1], owner, post);
    }
  }

  lemma {:induction false} WithoutHashtagsConcat(rows: seq<TagRow>, more: seq<TagRow>, post: PostId)
    ensures WithoutHashtags(rows + more, post) == WithoutHashtags(rows, post) + WithoutHashtags(more, post)
  {
    if more == [] {
      assert rows + more == rows;
    } else {
      assert (rows + more)[..|rows + more| - 1] == rows + more[..|more| - 1];
      WithoutHashtagsConcat(rows, more[..|more| - 1], post);
    }
  }

  lemma {:induction false} WithoutHashtagsTwice(rows: seq<TagRow>, post: PostId)
    ensures WithoutHashtags(WithoutHashtags(rows, post), post) == WithoutHashtags(rows, post)
  {
    if rows == [] {
    } else {
      WithoutHashtagsTwice(rows[..|rows| - 1], post);
    }
  }

  lemma {:induction false} DocsAreHashtags(a: Alphabet, post: PostId, slugs: seq<string>)
    ensures WithoutHashtags(Docs(a, post, slugs), post) == []
  {
    if slugs == [] {
    } else {
      DocsAreHashtags(a, post, slugs[..|slugs| - 1]);
      assert Docs(a, post, slugs)[..|slugs| - 1] == Docs(a, post, slugs[..|slugs| - 1]);
    }
  }

  lemma ReplacedHashtags(a: Alphabet, rows: seq<TagRow>, owner: PostId, slugs: seq<string>, post: PostId)
    ensures HashtagsOf(WithoutHashtags(rows, owner) + Docs(a, owner, slugs), post) ==
      if post == owner then slugs else HashtagsOf(rows, post)
  {
    HashtagsOfConcat(WithoutHashtags(rows, owner), Docs(a, owner, slugs), post);
    HashtagsOfDocs(a, owner, slugs, post);
    HashtagsWithout(rows, owner, post);
  }

  lemma ReindexedHashtags(a: Alphabet, rows: seq<TagRow>, owner: PostId, content: Option<string>,
                          manual: seq<TagLike>, post: PostId)
    ensures HashtagsOf(Reindexed(a, rows, owner, content, manual), post) ==
      if post == owner then MergedHashtags(a, content, manual) else HashtagsOf(rows, post)
  {
    ReplacedHashtags(a, rows, owner, MergedHashtags(a, content, manual), post);
  }

  /** Re-indexing a post replaces its slugs, without duplicates, and touches no other
      post and no USER or LOCATION row. */
  lemma ReindexReplacesOnePost(a: Alphabet, rows: seq<TagRow>, owner: PostId, content: Option<string>,
                               manual: seq<TagLike>, post: PostId)
    ensures
      var rows' := Reindexed(a, rows, owner, content, manual);
      && HashtagsOf(rows', post) ==
        (if post == owner then MergedHashtags(a, content, manual) else HashtagsOf(rows, post))
      && WithoutHashtags(rows', owner) == WithoutHashtags(rows, owner)
      && NoDuplicates(HashtagsOf(rows', owner))
  {
    var kept, merged := WithoutHashtags(rows, owner), MergedHashtags(a, content, manual);
    ReindexedHashtags(a, rows, owner, content, manual, post);
    ReindexedHashtags(a, rows, owner, content, manual, owner);
    FirstOccurrencesInOrder(ContentHashtags(a, content.GetOr("")) + ManualHashtags(a, manual));
    WithoutHashtagsConcat(kept, Docs(a, owner, merged), owner);
    WithoutHashtagsTwice(rows, owner);
    DocsAreHashtags(a, owner, merged);
  }

  /** The rows that re-indexing saves: one for each merged slug, named by it. */
  lemma SavedRowsAre(a: Alphabet, post: PostId, content: Option<string>, manual: seq<TagLike>, r: TagRow)
    ensures r in Docs(a, post, MergedHashtags(a, content, manual)) <==>
      && r.postId == post && r.tagType == HASHTAG && r.targetId in MergedHashtags(a, content, manual)
      && r.targetName == "#" + NormalizeHashtagSlug(a, r.targetId)
  {
    var slugs := MergedHashtags(a, content, manual);
    if r.targetId in slugs {
      var i :| 0 <= i < |slugs| && slugs[i] == r.targetId;
      assert Docs(a, post, slugs)[i] == Doc(a, post, slugs[i]);
    }
  }

  /** A post is indexed under a slug iff its content or a manual tag yields it. */
  lemma MergedHashtagsHold(a: Alphabet, content: Option<string>, manual: seq<TagLike>, slug: string)
    ensures slug in MergedHashtags(a, content, manual) <==>
      slug in ContentHashtags(a, content.GetOr("")) || slug in ManualHashtags(a, manual)
  {
    FirstOccurrencesInOrder(ContentHashtags(a, content.GetOr("")) + ManualHashtags(a, manual));
  }

  /** The collection behind the index service. */
  class Index {
    var rows: seq<TagRow>

    constructor ()
      ensures rows == []
    {
      rows := [];
    }

    method ReindexPostHashtags(a: Alphabet, post: PostId, content: Option<string>, manual: seq<TagLike>)
      requires Proper(a)
      modifies this
      ensures rows == Reindexed(a, old(rows), post, content, manual)
    {
      rows := WithoutHashtags(rows, post);
      var fromContent := ExtractHashtagsFromContent(a, content);
      var fromTags := HashtagsFromManualTags(a, manual);
      var merged := InOrder(fromContent + fromTags);
      rows := rows + Docs(a, post, merged);
    }

    /** `[...new Set(slugs)]` */
    method InOrder(slugs: seq<string>) returns (merged: seq<string>)
      ensures merged == FirstOccurrences(slugs)
    {
      merged := [];
      for i := 0 to |slugs|
        invariant merged == FirstOccurrences(slugs[..i])
      {
        assert slugs[..i + 1][..i] == slugs[..i];
        if slugs[i] !in merged {
          merged := merged + [slugs[i]];
        }
      }
      assert slugs[..|slugs|] == slugs;
    }

    method DeletePostTags(post: PostId)
      modifies this
      ensures rows == WithoutPost(old(rows), post)
    {
      var kept := [];
      for i := 0 to |rows|
        invariant kept == WithoutPost(rows[..i], post)
        invariant rows == old(rows)
      {
        assert rows[..i + 1][..i] == rows[..i];
        if rows[i].postId != post {
          kept := kept + [rows[i]];
        }
      }
      assert rows[..|rows|] == rows;
      rows := kept;
    }

    method SaveRows(more: seq<TagRow>)
      modifies this
      ensures rows == old(rows) + more
    {
      rows := rows + more;
    }
  }
}
