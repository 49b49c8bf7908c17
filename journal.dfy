/**
 * The home page's journal section (components/Journal.tsx): the latest
 * WordPress posts turned into cards, with tags stripped from the excerpt,
 * fallbacks for the category and the cover, and the sample posts shown when
 * nothing came back.
 */
module Journal {
  import opened Wrappers
  import opened Strings
  import Login

  // ---------------------------------------------------------------- tags

  /** At the front of `s`, the pattern `<[^>]+>` matches: a `<`, at least
      one character other than `>`, then a `>`. */
  predicate TagStart(s: string) {
    |s| >= 2 && s[0] == '<' && s[1] != '>' && '>' in s[1..]
  }

  /** `s.replace(/<[^>]+>/g, '')`: scanning left to right, every match is
      removed (it ends at the first `>` after the `<`); other characters
      are kept. */
  function StripTags(s: string): (r: string)
    ensures |r| <= |s|
    decreases |s|
  {
    if s == [] then []
    else if TagStart(s) then
      var close := 1 + |BeforeFirst(s[1..], '>')|;
      StripTags(s[close + 1..])
    else [s[0]] + StripTags(s[1..])
  }

  /** No `<…>` with a non-empty body starts anywhere in `r`. */
  predicate TagFree(r: string)
    decreases |r|
  {
    r == [] || (!TagStart(r) && TagFree(r[1..]))
  }

  /** Stripping only removes characters. */
  lemma {:induction false} StripKeepsCharacters(s: string, c: char)
    requires c in StripTags(s)
    ensures c in s
    decreases |s|
  {
    if TagStart(s) {
      var close := 1 + |BeforeFirst(s[1..], '>')|;
      StripKeepsCharacters(s[close + 1..], c);
    } else if c != s[0] {
      StripKeepsCharacters(s[1..], c);
    }
  }

  /** Text without a `<` is left as it is. */
  lemma {:induction false} NoAngleUnchanged(s: string)
    requires '<' !in s
    ensures StripTags(s) == s
    decreases |s|
  {
    if s != [] {
      NoAngleUnchanged(s[1..]);
      assert [s[0]] + s[1..] == s;
    }
  }

  /** The stripped text holds no tag: every `<` left over has a `>` right
      after it or no `>` anywhere after it. */
  lemma {:induction false} StripLeavesNoTag(s: string)
    ensures TagFree(StripTags(s))
    decreases |s|
  {
    if s == [] {
    } else if TagStart(s) {
      var close := 1 + |BeforeFirst(s[1..], '>')|;
      StripLeavesNoTag(s[close + 1..]);
    } else {
      var rest := StripTags(s[1..]);
      StripLeavesNoTag(s[1..]);
      var r := [s[0]] + rest;
      assert r[1..] == rest;
      if s[0] == '<' && |s| >= 2 {
        if s[1] == '>' {
          assert !TagStart(s[1..]);
          assert rest == [s[1]] + StripTags(s[2..]) by {
            assert s[1..][1..] == s[2..];
          }
          assert r[1] == '>';
        } else {
          assert '>' !in s[1..];
          if '>' in r[1..] {
            StripKeepsCharacters(s[1..], '>');
          }
        }
      }
    }
  }

  // ---------------------------------------------------------------- posts

  /** A category node; its name may be missing. */
  datatype CategoryNode = CategoryNode(name: Option<string>)

  /** A post node of the WordPress answer; `cover` is the optional chain
      `featuredImage?.node?.sourceUrl`. */
  datatype PostNode = PostNode(id: string, title: string, slug: string, excerpt: Option<string>,
                               categories: Option<seq<CategoryNode>>, cover: Option<string>,
                               date: Option<string>)

  /** The section's `Post`. */
  datatype Post = Post(id: string, title: string, slug: string, excerpt: Option<string>,
                       category: string, coverImage: Option<string>, publishedAt: Option<string>)

  /** `node.excerpt ? strip(node.excerpt) : null`. */
  function MapExcerpt(excerpt: Option<string>): (e: Option<string>)
    ensures e.None? <==> excerpt.None? || excerpt.value == ""
    ensures e.Some? ==> e.value == StripTags(excerpt.value) && TagFree(e.value)
  {
    if excerpt.Some? && excerpt.value != "" then
      StripLeavesNoTag(excerpt.value);
      Some(StripTags(excerpt.value))
    else None
  }

  /** `node.categories?.nodes[0]?.name || 'General'`. */
  function CategoryOf(categories: Option<seq<CategoryNode>>): (c: string)
    ensures c != ""
    ensures (categories.Some? && |categories.value| > 0 && categories.value[0].name.Some?
             && categories.value[0].name.value != "") ==> c == categories.value[0].name.value
  {
    if categories.Some? && |categories.value| > 0 then Login.OrElse(categories.value[0].name, "General")
    else "General"
  }

  /** The mapping of one node. */
  function MapNode(n: PostNode): (p: Post)
    ensures p.id == n.id && p.slug == n.slug
    ensures p.category != ""
    ensures p.excerpt.Some? ==> TagFree(p.excerpt.value)
    ensures p.coverImage.Some? ==> p.coverImage.value != ""
  {
    Post(n.id, n.title, n.slug, MapExcerpt(n.excerpt), CategoryOf(n.categories),
         if n.cover.Some? && n.cover.value != "" then n.cover else None, n.date)
  }

  /** Each field of a card comes from its node, with the documented fallbacks. */
  lemma MapNodeFields(n: PostNode)
    ensures var p := MapNode(n);
            p.id == n.id && p.title == n.title && p.slug == n.slug && p.publishedAt == n.date
            && (n.excerpt.Some? && '<' !in n.excerpt.value && n.excerpt.value != "" ==> p.excerpt == n.excerpt)
            && (p.category == "General" <==> (n.categories.None? || |n.categories.value| == 0
                  || n.categories.value[0].name.None? || n.categories.value[0].name.value in {"", "General"}))
            && (p.coverImage.None? <==> n.cover.None? || n.cover == Some(""))
  {
    if n.excerpt.Some? && '<' !in n.excerpt.value {
      NoAngleUnchanged(n.excerpt.value);
    }
  }

  /** `nodes.map(...)`. */
  function MapPosts(nodes: seq<PostNode>): (posts: seq<Post>)
    ensures |posts| == |nodes|
    ensures forall k :: 0 <= k < |posts| ==> posts[k].category != ""
  {
    if nodes == [] then [] else [MapNode(nodes[0])] + MapPosts(nodes[1..])
  }

  /** The mapping keeps the number and the order of the posts. */
  lemma {:induction false} MapPostsKeepsOrder(nodes: seq<PostNode>)
    ensures |MapPosts(nodes)| == |nodes|
    ensures forall i :: 0 <= i < |nodes| ==> MapPosts(nodes)[i] == MapNode(nodes[i])
  {
    if nodes != [] {
      MapPostsKeepsOrder(nodes[1..]);
      assert forall i :: 1 <= i < |nodes| ==> nodes[1..][i - 1] == nodes[i];
    }
  }

  /** The card's description: the excerpt, or the fixed text when it is
      missing or stripped to nothing. */
  function ExcerptText(excerpt: Option<string>): (t: string)
    ensures t != ""
    ensures excerpt.Some? && excerpt.value != "" ==> t == excerpt.value
  {
    Login.OrElse(excerpt, "Sin descripción disponible.")
  }

  /** Markup alone strips to nothing, and its card shows the fixed text. */
  lemma MarkupOnlyExcerpt()
    ensures ExcerptText(MapExcerpt(Some("<br>"))) == "Sin descripción disponible."
  {
    assert TagStart("<br>") && BeforeFirst("<br>"[1..], '>') == "br";
    assert "<br>"[4..] == "";
  }

  // ---------------------------------------------------------------- section

  /** The answer to the posts request: `data.posts.nodes` (possibly
      missing), or a throw. */
  datatype PostsResponse = Answered(nodes: Option<seq<PostNode>>) | Threw

  /** Which of the three blocks is rendered. */
  datatype Block = Spinner | RealPosts | SamplePosts

  /** The blocks on screen for a state. */
  function Blocks(posts: seq<Post>, isLoading: bool): (b: set<Block>)
    ensures Spinner in b <==> isLoading
    ensures SamplePosts in b <==> |posts| == 0 && !isLoading
    ensures RealPosts in b <==> |posts| > 0 && !isLoading
  {
    (if isLoading then {Spinner} else {})
    + (if !isLoading && |posts| > 0 then {RealPosts} else {})
    + (if |posts| == 0 && !isLoading then {SamplePosts} else {})
  }

  /** Exactly one block is on screen in every state. */
  lemma OneBlockAtATime(posts: seq<Post>, isLoading: bool)
    ensures |Blocks(posts, isLoading)| == 1
  {
    var b := Blocks(posts, isLoading);
    if isLoading {
      assert b == {Spinner};
    } else if |posts| > 0 {
      assert b == {RealPosts};
    } else {
      assert b == {SamplePosts};
    }
  }

  /** The section's state. */
  class JournalSection {
    var posts: seq<Post>
    var isLoading: bool

    constructor ()
      ensures posts == [] && isLoading
    {
      posts := [];
      isLoading := true;
    }

    /** fetchPosts with the answer supplied. */
    method FetchPosts(response: PostsResponse)
      modifies this`posts, this`isLoading
      ensures !isLoading
      ensures response.Answered? && response.nodes.Some? ==> posts == MapPosts(response.nodes.value)
      ensures !(response.Answered? && response.nodes.Some?) ==> posts == old(posts)
    {
      if response.Answered? && response.nodes.Some? {
        posts := MapPosts(response.nodes.value);
      }
      isLoading := false;
    }
  }

  /** A failed request leaves the section on the sample posts. */
  lemma FailedFetchShowsSamples()
    ensures Blocks([], false) == {SamplePosts}
  {
  }
}
