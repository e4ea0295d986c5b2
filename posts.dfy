/**
 * The views of the posts app, with the database replaced by a store of
 * sequences and sets.
 *
 * The read-only views (`index`, `group_posts`, `profile`, `follow_index` and
 * the display part of `post_detail`) are functions of the store's contents.
 * The views that write (`post_create`, `post_edit`, `add_comment`,
 * `profile_follow`, `profile_unfollow`) are methods of `Store`, which holds
 * the tables they change. Every view answers with an `Outcome`: a page to
 * render, a redirect, a 404 or a server error.
 */
module Posts {
  import opened Wrappers
  import opened Models
  import opened Pagination

  /** What a rendered template receives. */
  datatype View =
    | IndexView(page: Page<Post>)
    | GroupView(group: Group, page: Page<Post>)
    | ProfileView(author: User, page: Page<Post>, following: bool)
    | FollowView(page: Page<Post>, followedAuthors: set<UserId>)
    | DetailView(post: Post, comments: seq<Comment>)
    | PostForm(isEdit: bool)

  /** The response of a view. `ServerError` is an exception the view does not catch. */
  datatype Outcome =
    | Render(view: View)
    | RedirectProfile(username: string)
    | RedirectDetail(postId: PostId)
    | RedirectIndex
    | NotFound
    | ServerError

  /** `request.user`: anonymous, or a signed-in account. */
  datatype Requester = Anonymous | SignedIn(user: User)

  /** The cleaned fields of a submitted `PostForm` (`text`, `group`, `image`). */
  datatype PostSubmission = PostSubmission(text: string, group: Option<GroupId>, image: Option<string>)

  /** `PostForm.is_valid()`: the text is required and a chosen group must exist. */
  predicate ValidPostForm(groups: map<string, Group>, s: PostSubmission) {
    s.text != [] && (s.group.Some? ==> s.group.value in GroupIds(groups))
  }

  /** Which posts a listing shows. */
  datatype Scope = Everyone | InGroup(group: GroupId) | ByAuthor(author: UserId) | ByAuthors(authors: set<UserId>)

  predicate InScope(p: Post, scope: Scope) {
    match scope
    case Everyone => true
    case InGroup(g) => p.group == Some(g)
    case ByAuthor(a) => p.author == a
    case ByAuthors(authors) => p.author in authors
  }

  /**
   * The posts of the store that fall in `scope`, in store order (a queryset
   * `filter`). Exactly the matching posts, and still newest first.
   */
  function Feed(posts: seq<Post>, scope: Scope): (r: seq<Post>)
    ensures |r| <= |posts|
    ensures forall q :: q in r <==> q in posts && InScope(q, scope)
    ensures NewestFirst(posts) ==> NewestFirst(r)
  {
    if posts == [] then []
    else
      var rest := Feed(posts[1..], scope);
      assert NewestFirst(posts) ==> forall q :: q in posts[1..] ==> posts[0].id > q.id;
      if InScope(posts[0], scope) then [posts[0]] + rest else rest
  }

  /** Filtering distributes over the concatenation of two stores. */
  lemma {:induction false} FeedAppend(a: seq<Post>, b: seq<Post>, scope: Scope)
    ensures Feed(a + b, scope) == Feed(a, scope) + Feed(b, scope)
  {
    if a == [] {
      assert a + b == b;
    } else {
      assert (a + b)[1..] == a[1..] + b;
      FeedAppend(a[1..], b, scope);
    }
  }

  /** The authors `user` follows (`Follow.objects.filter(user=user).values('author')`). */
  function FollowedBy(follows: set<Follow>, user: UserId): (authors: set<UserId>)
    ensures forall a :: a in authors <==> Follow(user, a) in follows
  {
    set f | f in follows && f.user == user :: f.author
  }

  /** The comments on post `postId` (`post.comments.all()`), in store order. */
  function CommentsOf(comments: seq<Comment>, postId: PostId): (r: seq<Comment>)
    ensures |r| <= |comments|
    ensures forall c :: c in r <==> c in comments && c.post == postId
  {
    if comments == [] then []
    else
      var rest := CommentsOf(comments[1..], postId);
      if comments[0].post == postId then [comments[0]] + rest else rest
  }

  /** Selecting a post's comments distributes over the concatenation of two lists. */
  lemma {:induction false} CommentsAppend(a: seq<Comment>, b: seq<Comment>, postId: PostId)
    ensures CommentsOf(a + b, postId) == CommentsOf(a, postId) + CommentsOf(b, postId)
  {
    if a == [] {
      assert a + b == b;
    } else {
      assert (a + b)[1..] == a[1..] + b;
      CommentsAppend(a[1..], b, postId);
    }
  }

  /**
   * A new comment ends the comment list of its own post, so that post's
   * comment count grows by one; every other post's comments are unchanged.
   */
  lemma {:induction false} CommentsAfterAdd(comments: seq<Comment>, c: Comment, postId: PostId)
    ensures CommentsOf(comments + [c], postId)
         == CommentsOf(comments, postId) + (if c.post == postId then [c] else [])
    ensures |CommentsOf(comments + [c], postId)|
         == |CommentsOf(comments, postId)| + (if c.post == postId then 1 else 0)
  {
    CommentsAppend(comments, [c], postId);
    assert [c][1..] == [];
  }

  // ---------------------------------------------------------------------
  // Read-only views
  // ---------------------------------------------------------------------

  /** `index`: one page of all posts. */
  function Index(posts: seq<Post>, page: PageParam): (r: Outcome)
    ensures r.Render? && r.view.IndexView?
    ensures r.view.page == GetPage(posts, page)
    ensures r.view.page.numPages == NumPages(|posts|)
    ensures forall q :: q in r.view.page.items ==> q in posts
    ensures NewestFirst(posts) ==> NewestFirst(r.view.page.items)
  {
    var pg := GetPage(posts, page);
    PageOfList(posts, pg);
    Render(IndexView(pg))
  }

  /** `group_posts`: 404 for an unknown slug, else one page of the group's posts. */
  function GroupPosts(groups: map<string, Group>, posts: seq<Post>, slug: string, page: PageParam): (r: Outcome)
    ensures r.NotFound? <==> slug !in groups
    ensures slug in groups ==>
      && r.Render? && r.view.GroupView?
      && r.view.group == groups[slug]
      && r.view.page == GetPage(Feed(posts, InGroup(groups[slug].id)), page)
      && r.view.page.numPages == NumPages(|Feed(posts, InGroup(groups[slug].id))|)
      && (forall q :: q in r.view.page.items ==> q in posts && q.group == Some(groups[slug].id))
      && (NewestFirst(posts) ==> NewestFirst(r.view.page.items))
  {
    if slug !in groups then NotFound
    else
      var group := groups[slug];
      var feed := Feed(posts, InGroup(group.id));
      var pg := GetPage(feed, page);
      PageOfList(feed, pg);
      Render(GroupView(group, pg))
  }

  /**
   * `profile`: 404 for an unknown username, else one page of the author's
   * posts and whether the signed-in viewer follows the author.
   */
  function Profile(users: map<string, User>, posts: seq<Post>, follows: set<Follow>,
                   username: string, viewer: Requester, page: PageParam): (r: Outcome)
    ensures r.NotFound? <==> username !in users
    ensures username in users ==>
      && r.Render? && r.view.ProfileView?
      && r.view.author == users[username]
      && r.view.page == GetPage(Feed(posts, ByAuthor(users[username].id)), page)
      && (r.view.following <==> viewer.SignedIn? && Follow(viewer.user.id, users[username].id) in follows)
      && r.view.page.numPages == NumPages(|Feed(posts, ByAuthor(users[username].id))|)
      && (forall q :: q in r.view.page.items ==> q in posts && q.author == users[username].id)
      && (NewestFirst(posts) ==> NewestFirst(r.view.page.items))
  {
    if username !in users then NotFound
    else
      var author := users[username];
      var feed := Feed(posts, ByAuthor(author.id));
      var pg := GetPage(feed, page);
      PageOfList(feed, pg);
      var following := viewer.SignedIn? && Follow(viewer.user.id, author.id) in follows;
      Render(ProfileView(author, pg, following))
  }

  /** `follow_index`: one page of the posts whose author the requester follows. */
  function FollowIndex(posts: seq<Post>, follows: set<Follow>, requester: User, page: PageParam): (r: Outcome)
    ensures r.Render? && r.view.FollowView?
    ensures r.view.page == GetPage(Feed(posts, ByAuthors(FollowedBy(follows, requester.id))), page)
    ensures forall a :: a in r.view.followedAuthors <==> Follow(requester.id, a) in follows
    ensures r.view.page.numPages == NumPages(|Feed(posts, ByAuthors(FollowedBy(follows, requester.id)))|)
    ensures forall q :: q in r.view.page.items ==> q in posts && Follow(requester.id, q.author) in follows
    ensures NewestFirst(posts) ==> NewestFirst(r.view.page.items)
  {
    var authors := FollowedBy(follows, requester.id);
    var feed := Feed(posts, ByAuthors(authors));
    var pg := GetPage(feed, page);
    PageOfList(feed, pg);
    Render(FollowView(pg, authors))
  }

  /** `post_detail` without a comment submission: 404, or the post and its comments. */
  function PostDetail(posts: seq<Post>, comments: seq<Comment>, postId: PostId): (r: Outcome)
    ensures r.NotFound? <==> !HasPost(posts, postId)
    ensures HasPost(posts, postId) ==>
      && r.Render? && r.view.DetailView?
      && r.view.post in posts && r.view.post.id == postId
      && r.view.comments == CommentsOf(comments, postId)
  {
    match FindPost(posts, postId)
    case None => NotFound
    case Some(i) => Render(DetailView(posts[i], CommentsOf(comments, postId)))
  }

  /** A page of a list of posts shows posts of that list, in the list's order. */
  lemma PageOfList(list: seq<Post>, pg: Page<Post>)
    requires 1 <= pg.number <= NumPages(|list|)
    requires pg.items == PageSlice(list, pg.number)
    ensures forall q :: q in pg.items ==> q in list
    ensures NewestFirst(list) ==> NewestFirst(pg.items)
  {
    var bottom := (pg.number - 1) * PageSize;
    forall q | q in pg.items ensures q in list {
      var i :| 0 <= i < |pg.items| && pg.items[i] == q;
      assert q == list[bottom + i];
    }
    if NewestFirst(list) {
      forall i, j | 0 <= i < j < |pg.items| ensures pg.items[i].id > pg.items[j].id {
        assert pg.items[i] == list[bottom + i] && pg.items[j] == list[bottom + j];
      }
    }
  }

  /** Every item of `list` is shown on some page of it. */
  lemma OnSomePage<T>(list: seq<T>, x: T)
    requires x in list
    ensures exists k :: 1 <= k <= NumPages(|list|) && x in GetPage(list, Number(k)).items
  {
    var j :| 0 <= j < |list| && list[j] == x;
    ItemOnPage(list, j);
    var pg := GetPage(list, Number(j / PageSize + 1));
    assert pg.items[j % PageSize] == x;
  }

  /** Every post of a group is listed on some page of the group view. */
  lemma GroupPostsListEveryPost(groups: map<string, Group>, posts: seq<Post>, slug: string, q: Post)
    requires slug in groups && q in posts && q.group == Some(groups[slug].id)
    ensures exists k :: 1 <= k && q in GroupPosts(groups, posts, slug, Number(k)).view.page.items
  {
    var feed := Feed(posts, InGroup(groups[slug].id));
    OnSomePage(feed, q);
    var k :| 1 <= k <= NumPages(|feed|) && q in GetPage(feed, Number(k)).items;
    assert q in GroupPosts(groups, posts, slug, Number(k)).view.page.items;
  }

  /** Every post of an author is listed on some page of the profile view. */
  lemma ProfileListsEveryPost(users: map<string, User>, posts: seq<Post>, follows: set<Follow>,
                              username: string, viewer: Requester, q: Post)
    requires username in users && q in posts && q.author == users[username].id
    ensures exists k :: 1 <= k && q in Profile(users, posts, follows, username, viewer, Number(k)).view.page.items
  {
    var feed := Feed(posts, ByAuthor(users[username].id));
    OnSomePage(feed, q);
    var k :| 1 <= k <= NumPages(|feed|) && q in GetPage(feed, Number(k)).items;
    assert q in Profile(users, posts, follows, username, viewer, Number(k)).view.page.items;
  }

  /** Every post by a followed author is listed on some page of the follow feed. */
  lemma FollowIndexListsEveryPost(posts: seq<Post>, follows: set<Follow>, requester: User, q: Post)
    requires q in posts && Follow(requester.id, q.author) in follows
    ensures exists k :: 1 <= k && q in FollowIndex(posts, follows, requester, Number(k)).view.page.items
  {
    var feed := Feed(posts, ByAuthors(FollowedBy(follows, requester.id)));
    OnSomePage(feed, q);
    var k :| 1 <= k <= NumPages(|feed|) && q in GetPage(feed, Number(k)).items;
    assert q in FollowIndex(posts, follows, requester, Number(k)).view.page.items;
  }

  /** Every post is listed on some page of the index. */
  lemma IndexListsEveryPost(posts: seq<Post>, q: Post)
    requires q in posts
    ensures exists k :: 1 <= k && q in Index(posts, Number(k)).view.page.items
  {
    OnSomePage(posts, q);
    var k :| 1 <= k <= NumPages(|posts|) && q in GetPage(posts, Number(k)).items;
    assert q in Index(posts, Number(k)).view.page.items;
  }

  /**
   * A new post lands at the head of the follow feed of exactly the users who
   * follow its author; the rest of every feed is unchanged.
   */
  lemma {:induction false} FollowFeedAfterCreate(posts: seq<Post>, follows: set<Follow>, user: UserId, p: Post)
    ensures Feed([p] + posts, ByAuthors(FollowedBy(follows, user)))
         == (if Follow(user, p.author) in follows then [p] else []) + Feed(posts, ByAuthors(FollowedBy(follows, user)))
  {
    var scope := ByAuthors(FollowedBy(follows, user));
    FeedAppend([p], posts, scope);
    assert [p][1..] == [];
  }

  // ---------------------------------------------------------------------
  // Views that write
  // ---------------------------------------------------------------------

  /** `post_edit` applies the form to the post: only text, group and image change. */
  function Edited(p: Post, s: PostSubmission): (q: Post)
    ensures q.id == p.id && q.author == p.author
    ensures q.text == s.text && q.group == s.group
    ensures q.image == if s.image.Some? then s.image else p.image
  {
    // An edit without a new upload keeps the stored picture.
    p.(text := s.text, group := s.group, image := if s.image.Some? then s.image else p.image)
  }

  /**
   * The database tables the writing views change. Users and groups are
   * created outside these views, so they are constant here.
   */
  class Store {
    const users: map<string, User>
    const groups: map<string, Group>
    var posts: seq<Post>
    var comments: seq<Comment>
    var follows: set<Follow>
    /** The primary key the next post receives. */
    var nextPostId: PostId

    /** Keys are unique and every reference points at an existing row. */
    ghost predicate Valid()
      reads this
    {
      && UsersKeyed(users)
      && GroupsKeyed(groups)
      && NewestFirst(posts)
      && (forall i :: 0 <= i < |posts| ==> posts[i].id < nextPostId)
      && (forall i :: 0 <= i < |posts| ==> posts[i].author in UserIds(users))
      && (forall i :: 0 <= i < |posts| ==> posts[i].group.Some? ==> posts[i].group.value in GroupIds(groups))
      && (forall i :: 0 <= i < |comments| ==> HasPost(posts, comments[i].post))
      && (forall i :: 0 <= i < |comments| ==> comments[i].author in UserIds(users))
      && (forall f :: f in follows ==> f.user in UserIds(users) && f.author in UserIds(users))
    }

    constructor (users: map<string, User>, groups: map<string, Group>)
      requires UsersKeyed(users) && GroupsKeyed(groups)
      ensures Valid()
      ensures this.users == users && this.groups == groups
      ensures posts == [] && comments == [] && follows == {} && nextPostId == 1
    {
      this.users := users;
      this.groups := groups;
      posts, comments, follows := [], [], {};
      nextPostId := 1;
    }

    /** A signed-in account's id is a user id of the store. */
    lemma RegisteredId(u: User)
      requires Valid() && Registered(users, u)
      ensures u.id in UserIds(users)
    {
      assert users[u.username].id == u.id;
    }

    /**
     * `post_create`: a valid submission adds one post owned by the requester,
     * newest so first in the store, and redirects to the requester's
     * profile; otherwise the form is shown again and nothing changes.
     */
    method PostCreate(requester: User, form: Option<PostSubmission>) returns (r: Outcome)
      requires Valid() && Registered(users, requester)
      modifies this`posts, this`nextPostId
      ensures Valid()
      ensures form.Some? && ValidPostForm(groups, form.value) ==>
        && r == RedirectProfile(requester.username)
        && !HasPost(old(posts), old(nextPostId))
        && posts == [Post(old(nextPostId), requester.id, form.value.text, form.value.group, form.value.image)] + old(posts)
        && nextPostId == old(nextPostId) + 1
      ensures !(form.Some? && ValidPostForm(groups, form.value)) ==>
        r == Render(PostForm(false)) && posts == old(posts) && nextPostId == old(nextPostId)
      ensures comments == old(comments) && follows == old(follows)
    {
      if form.Some? && ValidPostForm(groups, form.value) {
        var s := form.value;
        RegisteredId(requester);
        var post := Post(nextPostId, requester.id, s.text, s.group, s.image);
        ghost var before := posts;
        posts := [post] + posts;
        assert forall c :: HasPost(before, c) ==> HasPost(posts, c) by {
          forall c | HasPost(before, c) ensures HasPost(posts, c) {
            var k :| 0 <= k < |before| && before[k].id == c;
            assert posts[k + 1] == before[k];
          }
        }
        nextPostId := nextPostId + 1;
        r := RedirectProfile(requester.username);
      } else {
        r := Render(PostForm(false));
      }
    }

    /**
     * `post_edit`: 404 for an unknown post; a requester who is not the author
     * is sent to the post's page and nothing changes; the author's valid
     * submission replaces text, group and image of that one post.
     */
    method PostEdit(requester: User, postId: PostId, form: Option<PostSubmission>) returns (r: Outcome)
      requires Valid() && Registered(users, requester)
      modifies this`posts
      ensures Valid()
      ensures !HasPost(old(posts), postId) ==> r == NotFound && posts == old(posts)
      ensures HasPost(old(posts), postId) ==>
        var i := FindPost(old(posts), postId).value;
        if old(posts)[i].author != requester.id then
          r == RedirectDetail(postId) && posts == old(posts)
        else if form.Some? && ValidPostForm(groups, form.value) then
          r == RedirectDetail(postId) && posts == old(posts)[i := Edited(old(posts)[i], form.value)]
        else
          r == Render(PostForm(true)) && posts == old(posts)
      ensures comments == old(comments) && follows == old(follows) && nextPostId == old(nextPostId)
    {
      match FindPost(posts, postId)
      case None =>
        r := NotFound;
      case Some(i) =>
        if requester.id != posts[i].author {
          r := RedirectDetail(postId);
        } else if form.Some? && ValidPostForm(groups, form.value) {
          var edited := Edited(posts[i], form.value);
          ghost var before := posts;
          posts := posts[i := edited];
          assert forall k :: 0 <= k < |posts| ==> posts[k].id == before[k].id;
          assert forall c :: HasPost(before, c) ==> HasPost(posts, c);
          r := RedirectDetail(postId);
        } else {
          r := Render(PostForm(true));
        }
    }

    /**
     * `add_comment`: 404 for an unknown post, else one comment by the
     * requester is added and the post's page is shown.
     */
    method AddComment(requester: User, postId: PostId, text: string) returns (r: Outcome)
      requires Valid() && Registered(users, requester)
      requires text != []
      modifies this`comments
      ensures Valid()
      ensures !HasPost(posts, postId) ==> r == NotFound && comments == old(comments)
      ensures HasPost(posts, postId) ==>
        && r == RedirectDetail(postId)
        && comments == old(comments) + [Comment(postId, requester.id, text)]
        && CommentsOf(comments, postId) == CommentsOf(old(comments), postId) + [Comment(postId, requester.id, text)]
        && |CommentsOf(comments, postId)| == |CommentsOf(old(comments), postId)| + 1
      ensures posts == old(posts) && follows == old(follows) && nextPostId == old(nextPostId)
    {
      match FindPost(posts, postId)
      case None =>
        r := NotFound;
      case Some(i) =>
        RegisteredId(requester);
        CommentsAfterAdd(comments, Comment(postId, requester.id, text), postId);
        comments := comments + [Comment(postId, requester.id, text)];
        r := RedirectDetail(postId);
    }

    /**
     * `profile_follow`: 404 for an unknown username; following oneself only
     * redirects to the index; otherwise the pair is stored once
     * (`get_or_create`) and the author's profile is shown.
     */
    method ProfileFollow(requester: User, username: string) returns (r: Outcome)
      requires Valid() && Registered(users, requester)
      modifies this`follows
      ensures Valid()
      ensures username !in users ==> r == NotFound && follows == old(follows)
      ensures username in users && users[username].id != requester.id ==>
        r == RedirectProfile(username) && follows == old(follows) + {Follow(requester.id, users[username].id)}
      ensures username in users && users[username].id == requester.id ==>
        r == RedirectIndex && follows == old(follows)
      ensures posts == old(posts) && comments == old(comments) && nextPostId == old(nextPostId)
    {
      if username !in users {
        return NotFound;
      }
      var author := users[username];
      if author.id != requester.id {
        RegisteredId(requester);
        follows := follows + {Follow(requester.id, author.id)};
        return RedirectProfile(username);
      }
      r := RedirectIndex;
    }

    /**
     * `profile_unfollow`: 404 for an unknown username; if the requester does
     * not follow the author, `Follow.objects.get` raises and the request fails;
     * otherwise the pair is deleted and the author's profile is shown.
     */
    method ProfileUnfollow(requester: User, username: string) returns (r: Outcome)
      requires Valid() && Registered(users, requester)
      modifies this`follows
      ensures Valid()
      ensures username !in users ==> r == NotFound && follows == old(follows)
      ensures username in users && Follow(requester.id, users[username].id) !in old(follows) ==>
        r == ServerError && follows == old(follows)
      ensures username in users && Follow(requester.id, users[username].id) in old(follows) ==>
        r == RedirectProfile(username) && follows == old(follows) - {Follow(requester.id, users[username].id)}
      ensures posts == old(posts) && comments == old(comments) && nextPostId == old(nextPostId)
    {
      if username !in users {
        return NotFound;
      }
      var author := users[username];
      var pair := Follow(requester.id, author.id);
      if pair !in follows {
        return ServerError;
      }
      follows := follows - {pair};
      // The redirect names the author by `str(author)`, its username.
      r := RedirectProfile(author.username);
    }
  }

  // ---------------------------------------------------------------------
  // Properties of sequences of requests
  // ---------------------------------------------------------------------

  /** Following the same author twice leaves the same follow set as following once. */
  method FollowTwice(s: Store, requester: User, username: string)
    returns (r1: Outcome, r2: Outcome, once: set<Follow>, twice: set<Follow>)
    requires s.Valid() && Registered(s.users, requester)
    modifies s`follows
    ensures s.Valid()
    ensures r1 == r2
    ensures once == twice == s.follows
    ensures username in s.users && s.users[username].id != requester.id ==>
      Follow(requester.id, s.users[username].id) in s.follows
  {
    r1 := s.ProfileFollow(requester, username);
    once := s.follows;
    r2 := s.ProfileFollow(requester, username);
    twice := s.follows;
  }

  /**
   * Unfollowing undoes a follow of an author not followed before; a second
   * unfollow fails, unlike a second follow.
   */
  method FollowThenUnfollow(s: Store, requester: User, username: string) returns (r1: Outcome, r2: Outcome)
    requires s.Valid() && Registered(s.users, requester)
    requires username in s.users && s.users[username].id != requester.id
    requires Follow(requester.id, s.users[username].id) !in s.follows
    modifies s`follows
    ensures s.Valid()
    ensures s.follows == old(s.follows)
    ensures r1 == RedirectProfile(username) && r2 == ServerError
  {
    var f := s.ProfileFollow(requester, username);
    r1 := s.ProfileUnfollow(requester, username);
    r2 := s.ProfileUnfollow(requester, username);
  }

  /**
   * A follower follows an author, who then publishes: both requests redirect
   * to the author's profile, the profile shows `following`, and the new post
   * heads the default page of the follower's feed, of the index and of the
   * author's profile.
   */
  method FollowThenPost(s: Store, follower: User, author: User, form: PostSubmission)
    returns (followed: Outcome, created: Outcome, newest: Post)
    requires s.Valid() && Registered(s.users, follower) && Registered(s.users, author)
    requires follower.id != author.id && ValidPostForm(s.groups, form)
    modifies s`follows, s`posts, s`nextPostId
    ensures s.Valid()
    ensures followed == RedirectProfile(author.username) && created == RedirectProfile(author.username)
    ensures |s.posts| > 0 && newest == s.posts[0] && newest.author == author.id && newest.text == form.text
    ensures Profile(s.users, s.posts, s.follows, author.username, SignedIn(follower), Missing).view.following
    ensures var items := FollowIndex(s.posts, s.follows, follower, Missing).view.page.items;
      |items| > 0 && items[0] == newest
    ensures var items := Index(s.posts, Missing).view.page.items;
      |items| > 0 && items[0] == newest
    ensures var items := Profile(s.users, s.posts, s.follows, author.username, SignedIn(follower), Missing).view.page.items;
      |items| > 0 && items[0] == newest
  {
    followed := s.ProfileFollow(follower, author.username);
    ghost var before := s.posts;
    created := s.PostCreate(author, Some(form));
    newest := s.posts[0];
    FollowFeedAfterCreate(before, s.follows, follower.id, newest);
    assert Feed(s.posts, ByAuthor(author.id)) == [newest] + Feed(before, ByAuthor(author.id)) by {
      FeedAppend([newest], before, ByAuthor(author.id));
      assert [newest][1..] == [];
    }
  }
}
