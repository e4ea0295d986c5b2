# Yatube posts: content store and pagination, in Dafny

Yatube is a Django blogging site. Authors publish posts, which may belong to a group. Readers comment on posts and follow authors to build a personal feed. This project models the `posts` app's views and its page-slicing helper, and proves what they promise.

- `wrappers.dfy`, module `Wrappers`: `Option` and `Result`.
- `pagination.dfy`, module `Pagination`: `COUNT_PAGE` and `get_paginated_post` from `yatube/posts/ulits.py`. The helper relies on Django's `Paginator.get_page`, modelled here with its defaults (no orphans, empty first page allowed):
  - a missing or non-integer `page` selects page 1;
  - an integer below 1 or above the page count selects the last page;
  - page `k` holds the items from index `(k - 1) * 10`, at most 10 of them;
  - an empty list has one empty page.
- `models.dfy`, module `Models`: the records the views touch (users, groups, posts, comments, follow pairs), the database's integrity rules, and primary-key lookup of a post.
- `posts.dfy`, module `Posts`: the views of `yatube/posts/views.py`.
  - The read-only views (`index`, `group_posts`, `profile`, `follow_index`, and the display part of `post_detail`) are functions of the store's contents.
  - The views that write are methods of class `Store`. `post_create`, `post_edit` and `add_comment` change its `posts` or `comments`. `profile_follow` and `profile_unfollow` change its `follows` set.
  - Every view returns an `Outcome`: a `Render` of a view context, `RedirectProfile`, `RedirectDetail`, `RedirectIndex`, `NotFound` (404), or `ServerError` (an uncaught exception).
  - `Store.Valid()` holds the integrity rules: unique usernames, slugs and ids, posts listed newest first (ids decrease along the store), and references only to existing rows. Every writing view preserves it.

`Follow.objects.get` raises `DoesNotExist` when the pair is absent, and `profile_unfollow` does not catch it. So unfollowing a pair that does not exist is modelled as `ServerError`, not as a 404 answer, because the code does not produce a 404 there.

## Model

| member | source | states |
|---|---|---|
| `Pagination.NumPages` | yatube/posts/ulits.py:7 | The page count is ceil(n / 10), and at least 1: an empty list has one page. |
| `Pagination.ValidateNumber` | yatube/posts/ulits.py:8-9 | A page number is accepted exactly when it is an integer from 1 to the page count. A missing or non-integer parameter is `PageNotAnInteger`. |
| `Pagination.PageSlice` | yatube/posts/ulits.py:7-9 | Page k holds at most 10 items. Its i-th item is item (k-1)*10+i of the input. It is full unless it is the last page. |
| `Pagination.GetPage` | yatube/posts/ulits.py:6-10 | Selection never fails and returns a page between 1 and the page count. A missing or invalid parameter gives page 1. An in-range number gives that page. An out-of-range number gives the last page. |
| `Pagination.PagesArePrefix` | yatube/posts/ulits.py:7-9 | Pages 1..k laid end to end are exactly the first min(10k, n) items. |
| `Pagination.PagesReassemble` | yatube/posts/ulits.py:7 | All pages laid end to end reproduce the input exactly. |
| `Pagination.FullPagesBeforeLast` | yatube/posts/ulits.py:3-7 | Every page before the last holds exactly `COUNT_PAGE` = 10 items. |
| `Pagination.ItemOnPage` | yatube/posts/ulits.py:7-9 | Item j appears on page j/10+1, at position j mod 10. |
| `Pagination.ThirteenItems` | yatube/posts/tests/test_views.py:293-311 | With 13 items there are 2 pages. Page 1 holds 10 items and page 2 holds 3. Asking for page 3 gives page 2 instead of an error. |
| `Models.FindPost` | yatube/posts/views.py:83 | The lookup by primary key finds an index holding that id, or reports that no post has it. |
| `Models.FindPostUnique` | yatube/posts/views.py:83 | When the store is newest first (ids decrease), the lookup of a post's id finds exactly that post. |
| `Posts.Feed` | yatube/posts/views.py:119 | A filtered listing contains exactly the store's posts that match, never more posts than the store, and keeps the store's newest-first order. |
| `Posts.FeedAppend` | yatube/posts/views.py:119 | Filtering a concatenated store gives the two filtered parts, concatenated. |
| `Posts.FollowedBy` | yatube/posts/views.py:118 | An author is in the followed set iff the pair (user, author) is stored. |
| `Posts.CommentsOf` | yatube/posts/views.py:48 | A post's comments are exactly the stored comments that reference it. |
| `Posts.CommentsAppend` | yatube/posts/views.py:48 | Selecting a post's comments from two concatenated lists gives the two selections, concatenated. With `CommentsOf` this fixes the count and the order, repeated comments included. |
| `Posts.CommentsAfterAdd` | yatube/posts/views.py:108-111 | Adding a comment appends it to its own post's comments, so that post's comment count grows by exactly one. Every other post's comments are unchanged. |
| `Posts.Index` | yatube/posts/views.py:10-16 | The index always renders the page `get_page` selects from all posts for the `page` parameter. Its page count is that of all posts. It shows only stored posts, newest first. |
| `Posts.GroupPosts` | yatube/posts/views.py:19-27 | An unknown slug gives NotFound, and only then. Otherwise the view renders that group and the page `get_page` selects from the group's posts for the `page` parameter: only posts of that group, newest first. |
| `Posts.Profile` | yatube/posts/views.py:30-42 | An unknown username gives NotFound, and only then. Otherwise the view shows the page `get_page` selects from that author's posts for the `page` parameter: only that author's posts, newest first. `following` is true iff the viewer is signed in and follows the author. |
| `Posts.FollowIndex` | yatube/posts/views.py:116-125 | The feed shows the page `get_page` selects, for the `page` parameter, from the posts whose author the requester follows: only such posts, newest first. Its page count is that of all such posts. The listed authors are exactly those the requester follows. |
| `Posts.PostDetail` | yatube/posts/views.py:45-48 | An unknown post id gives NotFound, and only then. Otherwise the view shows the post with that id and exactly its comments (`CommentsOf`), in store order. |
| `Posts.PageOfList` | yatube/posts/views.py:22 | A page of a listing shows only posts of that listing, and a newest-first listing gives a newest-first page. |
| `Posts.OnSomePage` | yatube/posts/ulits.py:7-9 | Every item of a list appears on some page of it. |
| `Posts.GroupPostsListEveryPost` | yatube/posts/views.py:20-22 | Every post of a group appears on some page of the group view. |
| `Posts.ProfileListsEveryPost` | yatube/posts/views.py:31-33 | Every post of an author appears on some page of the profile view. |
| `Posts.FollowIndexListsEveryPost` | yatube/posts/views.py:118-120 | Every post by a followed author appears on some page of the follow feed. |
| `Posts.IndexListsEveryPost` | yatube/posts/views.py:11-12 | Every post appears on some page of the index. |
| `Posts.FollowFeedAfterCreate` | yatube/posts/views.py:119 | A new post is added at the head of the follow feed of exactly the users who follow its author. Every other feed is unchanged. |
| `Posts.Edited` | yatube/posts/views.py:86-93 | An edit keeps the post's id and author and takes text and group from the form. It takes the image from the form when one was uploaded, else keeps the stored one. |
| `Posts.Store.PostCreate` | yatube/posts/views.py:62-77 | A valid form adds exactly one post at the head of the store, with a fresh id larger than every stored one, the requester as author and the submitted text, group and image, then redirects to the requester's profile. Otherwise the form renders again and the posts are unchanged. Comments and follows never change. |
| `Posts.Store.PostEdit` | yatube/posts/views.py:80-101 | An unknown id gives NotFound. A non-author is redirected to the post's page with nothing changed. The author's valid form replaces only that post, by `Edited`, and redirects to its page. An invalid form renders the edit form with nothing changed. |
| `Posts.Store.AddComment` | yatube/posts/views.py:104-112 | An unknown post gives NotFound with nothing changed. Otherwise exactly one comment is appended (that post, the requester, the text) and the view redirects to the post's page. That post's comment list gains exactly that comment at its end, so its count grows by one. Posts and follows are unchanged. |
| `Posts.Store.ProfileFollow` | yatube/posts/views.py:128-135 | An unknown username gives NotFound. Following oneself redirects to the index with nothing changed. Otherwise the pair is added to the follow set (get-or-create) and the view redirects to the author's profile. |
| `Posts.Store.ProfileUnfollow` | yatube/posts/views.py:138-143 | An unknown username gives NotFound. An absent pair fails with ServerError and nothing changes. Otherwise exactly that pair is removed and the view redirects to the author's profile. |
| `Posts.FollowTwice` | yatube/posts/views.py:133 | Following twice gives the same follow set and the same outcome (both returned) as following once, and the pair is then stored. |
| `Posts.FollowThenUnfollow` | yatube/posts/views.py:139-143 | Unfollowing restores the follow set that existed before a fresh follow. A second unfollow fails, unlike a second follow. |
| `Posts.FollowThenPost` | yatube/posts/tests/test_views.py:264-272 | Following an author and the author's next post both redirect to the author's profile. The profile then shows `following`. The new post, with that author and that text, is the first item on the default page of the follower's feed, of the index and of the author's profile. |

## Left out

- Rendering and HTTP: templates, status codes, and the `title` and `form` context keys are not modelled. The edit form's `post` context key is not modelled either. `is_edit` is modelled as the `isEdit` flag of `View.PostForm`. A view's response is the `Outcome` value only.
- Caching: the `@cache_page(20)` decorator on `index` is not modelled, because it needs a clock and rendered bytes. `Posts.Index` is the uncached query over all posts.
- Authentication: `@login_required` and sessions are not modelled. The writing views and `follow_index` take a signed-in, registered `User`; `profile` takes an optional viewer.
- Ordering: querysets are ordered newest first by the `Post` model's options, which are not part of this model. The store keeps posts newest first, and decreasing ids stand in for decreasing publication dates. A new post is added at the head.
- Form internals: a valid `PostForm` means non-empty text and, when given, an existing group. Whitespace stripping, length limits, image-content validation and the "clear image" checkbox are not modelled. An image is the stored file name.
- `page` parsing: Python's `int()` on the query string is not modelled. `PageParam` says what `int()` makes of it: missing, not an integer, or an integer.
- `post_detail`'s comment-saving branch is not modelled: it saves a comment without an author, so what happens depends on model constraints that are not part of this model. Only its display part (`Posts.PostDetail`) is modelled.
- Posts.Store.AddComment: requires non-empty comment text. The view's unchecked `form.save` on an invalid or unbound form is not modelled.
- Users and groups are created outside the views. They are constants of `Store` and no view changes them.
- Database concurrency and transactions are not modelled: each view is one atomic step on the store.
