/**
 * The collaborator screen (app/colaborador/page.tsx): its sample posts, the
 * published and draft counts, the status badge and the view link. Its role
 * guard is `RouteGuards.CollaboratorGuard`.
 */
module Colaborador {
  import opened Wrappers
  import opened Seqs

  datatype SamplePost = SamplePost(id: nat, title: string, date: string, status: string, views: nat)

  /** MY_POSTS. */
  const MyPosts: seq<SamplePost> := [
    SamplePost(1, "El papel en la era digital", "Oct 2025", "published", 1234),
    SamplePost(2, "Reflexiones sobre la lectura", "Sep 2025", "draft", 0),
    SamplePost(3, "Nuevo artículo en progreso", "Nov 2025", "draft", 0)
  ]

  predicate IsPublished(p: SamplePost) { p.status == "published" }
  predicate IsDraft(p: SamplePost) { p.status == "draft" }

  function PublishedCount(posts: seq<SamplePost>): (n: nat)
    ensures n <= |posts|
    ensures n == |Filter(posts, IsPublished)|
  {
    |Filter(posts, IsPublished)|
  }

  function DraftCount(posts: seq<SamplePost>): (n: nat)
    ensures n <= |posts|
    ensures n == |Filter(posts, IsDraft)|
  {
    |Filter(posts, IsDraft)|
  }

  /** On the sample data the screen shows one published post and two drafts. */
  lemma SampleCounts()
    ensures PublishedCount(MyPosts) == 1 && DraftCount(MyPosts) == 2
  {
    assert MyPosts[1..][1..] == [MyPosts[2]];
    assert MyPosts[1..] == [MyPosts[1], MyPosts[2]];
  }

  /** Published and draft together never exceed the list. */
  lemma CountsFit(posts: seq<SamplePost>)
    ensures PublishedCount(posts) + DraftCount(posts) <= |posts|
  {
    DisjointFiltersFit(posts, IsPublished, IsDraft);
  }

  datatype Badge = PublishedBadge | DraftBadge

  /** getStatusBadge: unlike the content screen, there is no review badge. */
  function StatusBadge(status: string): (b: Option<Badge>)
    ensures b == Some(PublishedBadge) <==> status == "published"
    ensures b == Some(DraftBadge) <==> status == "draft"
    ensures b.None? <==> status != "published" && status != "draft"
  {
    if status == "published" then Some(PublishedBadge)
    else if status == "draft" then Some(DraftBadge)
    else None
  }

  /** The view count and the link to the blog appear only for published posts. */
  function ViewLink(p: SamplePost): (link: Option<string>)
    ensures link.Some? <==> p.status == "published"
    ensures link.Some? ==> link.value == "/blog"
  {
    if p.status == "published" then Some("/blog") else None
  }

  /** A post has a view link exactly when it has the published badge. */
  lemma ViewLinkMatchesBadge(p: SamplePost)
    ensures ViewLink(p).Some? <==> StatusBadge(p.status) == Some(PublishedBadge)
  {
  }
}
