/** frontend/src/hooks/useFeed.js: the feed's loaded posts, the page counter
    of the infinite scroll, the visible prefix, and the notifications list
    the socket listeners prepend to. The state is one object; each setter
    call (and the effect that recomputes the visible prefix) is a method. */
module UseFeed {
  import opened Strings
  import opened Models
  import opened Seqs

  const ItemsPerPage: nat := 10

  /** `posts.slice(0, page * ITEMS_PER_PAGE)`. */
  function VisiblePosts(posts: seq<Post>, page: nat): seq<Post> {
    Take(posts, page * ItemsPerPage)
  }

  /** The visible posts are the first min(10 * page, |posts|) posts. */
  lemma VisiblePrefix(posts: seq<Post>, page: nat)
    ensures var v := VisiblePosts(posts, page);
      |v| == Min(page * ItemsPerPage, |posts|) && v == posts[..|v|]
  {
  }

  /** Turning the page never hides a post that was shown: the smaller page's
      posts are a prefix of the larger page's. */
  lemma VisibleGrows(posts: seq<Post>, p: nat, q: nat)
    requires p <= q
    ensures var a, b := VisiblePosts(posts, p), VisiblePosts(posts, q);
      |a| <= |b| && a == b[..|a|]
  {
    var a, b := VisiblePosts(posts, p), VisiblePosts(posts, q);
    assert p * ItemsPerPage <= q * ItemsPerPage;
    assert a == posts[..|a|] && b == posts[..|b|];
  }

  datatype Notification = Notification(id: nat, message: string)

  /** The `friend` of a `friendAdded` event; each field may be missing. */
  datatype FriendInfo = FriendInfo(fullName: Option<string>, username: Option<string>, email: Option<string>)

  /** `friend?.fullName || friend?.username || friend?.email || "A user"`. */
  function FriendName(friend: Option<FriendInfo>): (name: string)
    ensures name != ""
    ensures friend.Some? && Truthy(friend.value.fullName) ==> name == friend.value.fullName.value
    ensures friend.None? ==> name == "A user"
  {
    if friend.Some? && Truthy(friend.value.fullName) then friend.value.fullName.value
    else if friend.Some? && Truthy(friend.value.username) then friend.value.username.value
    else if friend.Some? && Truthy(friend.value.email) then friend.value.email.value
    else "A user"
  }

  /** The fallback order: a name is used only when every earlier one is
      missing or empty. */
  lemma FriendNameOrder(f: FriendInfo)
    ensures !Truthy(f.fullName) && Truthy(f.username) ==> FriendName(Some(f)) == f.username.value
    ensures !Truthy(f.fullName) && !Truthy(f.username) && Truthy(f.email) ==> FriendName(Some(f)) == f.email.value
    ensures !Truthy(f.fullName) && !Truthy(f.username) && !Truthy(f.email) ==> FriendName(Some(f)) == "A user"
  {
  }

  /** The `register` handler: the event is sent only when a user id is
      stored. */
  function RegisterEvent(userId: Option<string>): (room: Option<string>)
    ensures room.Some? <==> Truthy(userId)
    ensures room.Some? ==> room == userId
  {
    if Truthy(userId) then userId else None
  }

  class FeedState {
    var posts: seq<Post>
    var page: nat
    var visible: seq<Post>
    var notifications: seq<Notification>

    /** The visible prefix effect has run. */
    ghost predicate Valid()
      reads this
    {
      page >= 1 && visible == VisiblePosts(posts, page)
    }

    constructor ()
      ensures Valid() && posts == [] && page == 1 && notifications == []
    {
      posts := [];
      page := 1;
      visible := [];
      notifications := [];
    }

    /** The initial fetch: the posts are replaced only on a successful reply. */
    method Loaded(success: bool, data: seq<Post>)
      requires Valid()
      modifies this
      ensures Valid()
      ensures posts == (if success then data else old(posts))
      ensures page == old(page) && notifications == old(notifications)
    {
      if success {
        posts := data;
        visible := VisiblePosts(posts, page);
      }
    }

    /** `setPage((p) => p + 1)`. */
    method NextPage()
      requires Valid()
      modifies this
      ensures Valid()
      ensures page == old(page) + 1 && posts == old(posts) && notifications == old(notifications)
      ensures |old(visible)| <= |visible| && old(visible) == visible[..|old(visible)|]
    {
      VisibleGrows(posts, page, page + 1);
      page := page + 1;
      visible := VisiblePosts(posts, page);
    }

    /** `setPosts((prev) => [post, ...prev])`. */
    method PrependPost(p: Post)
      requires Valid()
      modifies this
      ensures Valid()
      ensures posts == [p] + old(posts) && page == old(page) && notifications == old(notifications)
      ensures visible[0] == p
    {
      posts := [p] + posts;
      visible := VisiblePosts(posts, page);
    }

    /** The `notification` listener: the newest notice goes first. `now` is
        `Date.now()`. */
    method OnNotification(message: string, now: nat)
      modifies this
      ensures notifications == [Notification(now, message)] + old(notifications)
      ensures posts == old(posts) && page == old(page) && visible == old(visible)
    {
      notifications := [Notification(now, message)] + notifications;
    }

    /** The `friendAdded` listener. */
    method OnFriendAdded(friend: Option<FriendInfo>, now: nat)
      modifies this
      ensures notifications ==
        [Notification(now, "🎉 You are now friends with " + FriendName(friend) + "!")] + old(notifications)
      ensures posts == old(posts) && page == old(page) && visible == old(visible)
    {
      var name := FriendName(friend);
      notifications := [Notification(now, "🎉 You are now friends with " + name + "!")] + notifications;
    }
  }
}
