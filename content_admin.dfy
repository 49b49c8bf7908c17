/**
 * The content screen (app/content-admin/page.tsx): the status badge and the
 * target of the add button of each section. Its role guard is
 * `RouteGuards.ContentAdminGuard`.
 */
module ContentAdmin {
  import opened Wrappers

  datatype Badge = PublishedBadge | DraftBadge | ReviewBadge

  /** getStatusBadge: three known statuses have a badge; anything else none. */
  function StatusBadge(status: string): (b: Option<Badge>)
    ensures b == Some(PublishedBadge) <==> status == "published"
    ensures b == Some(DraftBadge) <==> status == "draft"
    ensures b == Some(ReviewBadge) <==> status == "review"
    ensures b.None? <==> status !in {"published", "draft", "review"}
  {
    if status == "published" then Some(PublishedBadge)
    else if status == "draft" then Some(DraftBadge)
    else if status == "review" then Some(ReviewBadge)
    else None
  }

  /** The add button: its link target and its caption. */
  datatype AddButton = AddButton(href: string, caption: string)

  /** Hidden on the overview; a new post opens the editor, every other
      section links nowhere (`#`). */
  function AddButtonFor(section: string): (b: Option<AddButton>)
    ensures b.None? <==> section == "overview"
    ensures b.Some? ==> (b.value.href == "/editor" <==> section == "posts")
    ensures b.Some? && section != "posts" ==> b.value.href == "#"
    ensures b.Some? ==>
              b.value.caption == (if section == "posts" then "Nuevo Post"
                                  else if section == "catalog" then "Nuevo Libro"
                                  else "Subir Archivo")
  {
    if section == "overview" then None
    else if section == "posts" then Some(AddButton("/editor", "Nuevo Post"))
    else Some(AddButton("#", if section == "catalog" then "Nuevo Libro" else "Subir Archivo"))
  }

  /** Only the posts section leads anywhere: the book and media buttons are
      placeholders. */
  lemma OnlyPostsButtonNavigates(section: string)
    requires section != "overview"
    ensures AddButtonFor(section).Some?
    ensures AddButtonFor(section).value.href != "#" <==> section == "posts"
  {
  }
}
