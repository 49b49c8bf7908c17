/**
 * The GLOBAL_ADMIN dashboard (app/admin/page.tsx): its data fetch, the
 * statistics it derives, the two user tabs, the revoke button and the
 * recent-activity list. Database rows arrive as inputs.
 */
module AdminDashboard {
  import opened Wrappers
  import opened Auth
  import opened AuthContext
  import opened Seqs

  /** A `profiles` row; `role` is the stored text. */
  datatype Profile = Profile(id: string, email: string, fullName: string, role: string)

  /** A `posts` row with its author's name, when the join found one. */
  datatype Post = Post(id: string, title: string, authorName: Option<string>, status: string)

  datatype Stats = Stats(posts: nat, users: nat, drafts: nat)

  /** How the two awaited queries went: each yields its rows or null, and
      either may throw, the second after the first has been applied. */
  datatype FetchResult =
    | Completed(profilesData: Option<seq<Profile>>, postsData: Option<seq<Post>>)
    | ProfilesThrew
    | PostsThrew(profilesData: Option<seq<Profile>>)

  predicate IsPublished(p: Post) { p.status == "published" }
  predicate IsDraft(p: Post) { p.status == "draft" }

  function PublishedPosts(posts: seq<Post>): seq<Post> { Filter(posts, IsPublished) }
  function DraftPosts(posts: seq<Post>): seq<Post> { Filter(posts, IsDraft) }

  /** The statistics: published posts, profiles and drafts, each 0 when its
      query produced no rows. */
  function StatsOf(profilesData: Option<seq<Profile>>, postsData: Option<seq<Post>>): (s: Stats)
    ensures s.users == if profilesData.Some? then |profilesData.value| else 0
    ensures postsData.None? ==> s.posts == 0 && s.drafts == 0
    ensures postsData.Some? ==> s.posts == |PublishedPosts(postsData.value)|
                                && s.drafts == |DraftPosts(postsData.value)|
    ensures postsData.Some? ==> s.posts + s.drafts <= |postsData.value|
  {
    var users := if profilesData.Some? then |profilesData.value| else 0;
    match postsData
    case None => Stats(0, users, 0)
    case Some(ps) =>
      DisjointFiltersFit(ps, IsPublished, IsDraft);
      Stats(|PublishedPosts(ps)|, users, |DraftPosts(ps)|)
  }

  /** The published and draft counts pick out exactly the posts with those
      statuses. */
  lemma StatsCountStatuses(ps: seq<Post>, k: nat)
    requires k < |ps|
    ensures ps[k].status == "published" ==> ps[k] in PublishedPosts(ps)
    ensures ps[k].status == "draft" ==> ps[k] in DraftPosts(ps)
    ensures forall i :: 0 <= i < |PublishedPosts(ps)| ==> PublishedPosts(ps)[i].status == "published"
    ensures forall i :: 0 <= i < |DraftPosts(ps)| ==> DraftPosts(ps)[i].status == "draft"
  {
  }

  predicate IsAdminProfile(p: Profile) { p.role == "GLOBAL_ADMIN" || p.role == "CONTENT_ADMIN" }
  predicate IsCollaboratorProfile(p: Profile) { p.role == "COLLABORATOR" }

  /** The "Administradores" tab. */
  function AdminsTab(profiles: seq<Profile>): (r: seq<Profile>)
    ensures forall k :: 0 <= k < |r| ==> r[k] in profiles && ParseRole(r[k].role) in {Some(GlobalAdmin), Some(ContentAdmin)}
  {
    Filter(profiles, IsAdminProfile)
  }

  /** The "Colaboradores" tab. */
  function CollaboratorsTab(profiles: seq<Profile>): (r: seq<Profile>)
    ensures forall k :: 0 <= k < |r| ==> r[k] in profiles && ParseRole(r[k].role) == Some(Collaborator)
  {
    Filter(profiles, IsCollaboratorProfile)
  }

  /** The tabs are disjoint, a profile with an enum role is listed in exactly
      one of them, and a profile whose role is not an enum value in neither. */
  lemma TabsPartitionProfiles(profiles: seq<Profile>, k: nat)
    requires k < |profiles|
    ensures |AdminsTab(profiles)| + |CollaboratorsTab(profiles)| <= |profiles|
    ensures ParseRole(profiles[k].role).Some? ==>
              (profiles[k] in AdminsTab(profiles) || profiles[k] in CollaboratorsTab(profiles))
    ensures ParseRole(profiles[k].role).None? ==>
              profiles[k] !in AdminsTab(profiles) && profiles[k] !in CollaboratorsTab(profiles)
    ensures forall p :: p in AdminsTab(profiles) ==> p !in CollaboratorsTab(profiles)
  {
    DisjointFiltersFit(profiles, IsAdminProfile, IsCollaboratorProfile);
  }

  /** The revoke button: shown on every row except the signed-in user's own
      (every row when nobody is signed in). */
  function ShowRevoke(rowEmail: string, current: Option<User>): (show: bool)
    ensures !show <==> current.Some? && current.value.email == rowEmail
  {
    current.None? || rowEmail != current.value.email
  }

  /** `posts.slice(0, 5)`: the first five posts, or all of them if fewer. */
  function RecentActivity(posts: seq<Post>): (r: seq<Post>)
    ensures |r| == if |posts| < 5 then |posts| else 5
    ensures r == posts[..|r|]
  {
    if |posts| < 5 then posts else posts[..5]
  }

  /** The dashboard's data slots. */
  class Dashboard {
    var profiles: seq<Profile>
    var posts: seq<Post>
    var stats: Stats
    var isFetching: bool

    constructor ()
      ensures profiles == [] && posts == [] && stats == Stats(0, 0, 0) && isFetching
    {
      profiles := [];
      posts := [];
      stats := Stats(0, 0, 0);
      isFetching := true;
    }

    /** fetchData: nothing at all without a user; otherwise apply each query's
        rows as they arrive, then the statistics, and always end the fetch. */
    method FetchData(user: Option<User>, result: FetchResult)
      modifies this
      ensures user.None? ==> profiles == old(profiles) && posts == old(posts)
                             && stats == old(stats) && isFetching == old(isFetching)
      ensures user.Some? ==> !isFetching
      ensures user.Some? && result.Completed? ==>
                profiles == result.profilesData.GetOr(old(profiles))
                && posts == result.postsData.GetOr(old(posts))
                && stats == StatsOf(result.profilesData, result.postsData)
      ensures user.Some? && result.PostsThrew? ==>
                profiles == result.profilesData.GetOr(old(profiles))
                && posts == old(posts) && stats == old(stats)
      ensures user.Some? && result.ProfilesThrew? ==>
                profiles == old(profiles) && posts == old(posts) && stats == old(stats)
    {
      if user.None? {
        return;
      }
      match result {
        case Completed(profilesData, postsData) =>
          if profilesData.Some? {
            profiles := profilesData.value;
          }
          if postsData.Some? {
            posts := postsData.value;
          }
          stats := StatsOf(profilesData, postsData);
        case PostsThrew(profilesData) =>
          if profilesData.Some? {
            profiles := profilesData.value;
          }
        case ProfilesThrew =>
      }
      isFetching := false;
    }

    /** The effect that runs when the user or role changes: it fetches only
        for GLOBAL_ADMIN. */
    method OnSessionChange(user: Option<User>, role: Option<UserRole>, result: FetchResult)
      modifies this
      ensures role != Some(GlobalAdmin) ==>
                profiles == old(profiles) && posts == old(posts)
                && stats == old(stats) && isFetching == old(isFetching)
      ensures role == Some(GlobalAdmin) && user.Some? ==> !isFetching
    {
      if role == Some(GlobalAdmin) {
        FetchData(user, result);
      }
    }
  }

  /** A fresh dashboard whose role is not GLOBAL_ADMIN never fetches, so its
      loading screen stays up; an administrator's dashboard leaves it after
      the first fetch, whatever the queries did. */
  method LoadingScreenLifecycle(role: Option<UserRole>, result: FetchResult) returns (stillLoading: bool)
    ensures stillLoading <==> role != Some(GlobalAdmin)
  {
    var d := new Dashboard();
    d.OnSessionChange(Some(MockUser), role, result);
    stillLoading := d.isFetching;
  }
}
