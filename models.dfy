/**
 * The records the posts views read and write: users and groups (created
 * outside the views), posts, comments and follow pairs, together with the
 * integrity rules the database keeps for them (unique usernames, slugs and
 * ids, foreign keys, one row per follow pair).
 */
module Models {
  import opened Wrappers

  type UserId = nat
  type GroupId = nat
  type PostId = nat

  /** An account, owned by the authentication layer. */
  datatype User = User(id: UserId, username: string)

  /** A community a post may belong to, looked up by its slug. */
  datatype Group = Group(id: GroupId, slug: string, title: string, description: string)

  /** A post; `image` is the stored name of the uploaded picture, if any. */
  datatype Post = Post(id: PostId, author: UserId, text: string, group: Option<GroupId>, image: Option<string>)

  datatype Comment = Comment(post: PostId, author: UserId, text: string)

  /** `user` follows `author`. */
  datatype Follow = Follow(user: UserId, author: UserId)

  /** Users are keyed by their (unique) username and have unique ids. */
  ghost predicate UsersKeyed(users: map<string, User>) {
    && (forall name :: name in users ==> users[name].username == name)
    && (forall a, b :: a in users && b in users && users[a].id == users[b].id ==> a == b)
  }

  /** Groups are keyed by their (unique) slug and have unique ids. */
  ghost predicate GroupsKeyed(groups: map<string, Group>) {
    && (forall slug :: slug in groups ==> groups[slug].slug == slug)
    && (forall a, b :: a in groups && b in groups && groups[a].id == groups[b].id ==> a == b)
  }

  function UserIds(users: map<string, User>): set<UserId> {
    set name | name in users :: users[name].id
  }

  function GroupIds(groups: map<string, Group>): set<GroupId> {
    set slug | slug in groups :: groups[slug].id
  }

  /** `u` is the account stored under its username. */
  predicate Registered(users: map<string, User>, u: User) {
    u.username in users && users[u.username] == u
  }

  /**
   * Posts are listed newest first: ids, which the database hands out in
   * creation order, decrease along the store.
   */
  predicate NewestFirst(posts: seq<Post>) {
    forall i, j :: 0 <= i < j < |posts| ==> posts[i].id > posts[j].id
  }

  /** Some post in the store has primary key `id`. */
  predicate HasPost(posts: seq<Post>, id: PostId) {
    exists i :: 0 <= i < |posts| && posts[i].id == id
  }

  /**
   * Finds the post with primary key `id` (`get_object_or_404(Post, pk=id)`),
   * giving its index in the store.
   */
  function FindPost(posts: seq<Post>, id: PostId): (r: Option<nat>)
    ensures r.Some? ==> r.value < |posts| && posts[r.value].id == id
    ensures r.None? <==> !HasPost(posts, id)
  {
    if posts == [] then None
    else if posts[0].id == id then Some(0)
    else
      match FindPost(posts[1..], id)
      case Some(i) => Some(i + 1)
      case None => None
  }

  /** With distinct (decreasing) ids, the index of a post is determined by its id. */
  lemma FindPostUnique(posts: seq<Post>, i: nat)
    requires NewestFirst(posts) && i < |posts|
    ensures FindPost(posts, posts[i].id) == Some(i)
  {
    var r := FindPost(posts, posts[i].id);
    var j := r.value;
    assert posts[j].id == posts[i].id;
  }
}
