/** frontend/src/pages/ResourcesPage.jsx: the resource list built from the
    feed's posts (one item per attachment, then one per inline image), the
    file name shown for a URL, and the search filter. */
module ResourcesPage {
  import opened Strings
  import opened Models
  import opened Seqs

  /** `getFileNameFromUrl`. `pathname` is `new URL(url).pathname` (None when
      the constructor throws) and `decode` is `decodeURIComponent` (None when
      it throws on a malformed escape). */
  function FileNameFromUrl(url: string, pathname: string -> Option<string>, decode: string -> Option<string>)
    : (r: string)
    ensures pathname(url).None? ==> r == "download"
    ensures pathname(url).Some? ==>
      var last := AfterLast(pathname(url).value, '/');
      var arg := if last == "" then "download" else last;
      r == (if decode(arg).Some? then decode(arg).value else "download")
  {
    match pathname(url)
    case None => "download"
    case Some(path) =>
      var last := AfterLast(path, '/');   // `split("/").pop()`
      var arg := if last == "" then "download" else last;
      match decode(arg)
      case None => "download"
      case Some(name) => name
  }

  datatype Kind = AttachmentKind | ImageKind

  /** One entry of the list: the post's author, text and id, and the file. */
  datatype Item = Item(author: string, text: string, postId: PostId, kind: Kind, name: string, url: string)

  function AttachmentItem(p: Post, att: Attachment, pathname: string -> Option<string>,
                          decode: string -> Option<string>): Item
  {
    Item(p.authorEmail, p.text, p.id, AttachmentKind,
         if att.name != "" then att.name else FileNameFromUrl(att.url, pathname, decode), att.url)
  }

  function ImageItem(p: Post, pathname: string -> Option<string>, decode: string -> Option<string>): Item
    requires p.imageThumb.Some?
  {
    Item(p.authorEmail, p.text, p.id, ImageKind, FileNameFromUrl(p.imageThumb.value, pathname, decode),
         p.imageThumb.value)
  }

  /** The items of the first `n` attachments of one post. */
  function AttachmentItems(p: Post, n: nat, pathname: string -> Option<string>, decode: string -> Option<string>)
    : (r: seq<Item>)
    requires n <= |p.attachments|
    ensures |r| == n
    ensures forall j | 0 <= j < n :: r[j] == AttachmentItem(p, p.attachments[j], pathname, decode)
  {
    if n == 0 then [] else AttachmentItems(p, n - 1, pathname, decode) + [AttachmentItem(p, p.attachments[n - 1], pathname, decode)]
  }

  /** All items of one post: its attachments in order, then its image. */
  function ItemsOf(p: Post, pathname: string -> Option<string>, decode: string -> Option<string>): seq<Item> {
    AttachmentItems(p, |p.attachments|, pathname, decode)
      + (if Truthy(p.imageThumb) then [ImageItem(p, pathname, decode)] else [])
  }

  /** The items of a list of posts, in feed order. */
  function Flattened(posts: seq<Post>, pathname: string -> Option<string>, decode: string -> Option<string>)
    : seq<Item>
  {
    if posts == [] then []
    else Flattened(posts[..|posts| - 1], pathname, decode) + ItemsOf(posts[|posts| - 1], pathname, decode)
  }

  /** The nested loops that fill `flattened`. */
  method Flatten(posts: seq<Post>, pathname: string -> Option<string>, decode: string -> Option<string>)
    returns (flattened: seq<Item>)
    ensures flattened == Flattened(posts, pathname, decode)
  {
    flattened := [];
    var i := 0;
    while i < |posts|
      invariant 0 <= i <= |posts|
      invariant flattened == Flattened(posts[..i], pathname, decode)
    {
      var p := posts[i];
      ghost var before := flattened;
      var j := 0;
      while j < |p.attachments|
        invariant 0 <= j <= |p.attachments|
        invariant flattened == before + AttachmentItems(p, j, pathname, decode)
      {
        flattened := flattened + [AttachmentItem(p, p.attachments[j], pathname, decode)];
        j := j + 1;
      }
      if Truthy(p.imageThumb) {
        flattened := flattened + [ImageItem(p, pathname, decode)];
      }
      assert posts[..i + 1][..i] == posts[..i];
      i := i + 1;
    }
    assert posts[..i] == posts;
  }

  function AttachmentCount(posts: seq<Post>): nat {
    if posts == [] then 0 else AttachmentCount(posts[..|posts| - 1]) + |posts[|posts| - 1].attachments|
  }

  function ImageCount(posts: seq<Post>): nat {
    if posts == [] then 0 else ImageCount(posts[..|posts| - 1]) + (if Truthy(posts[|posts| - 1].imageThumb) then 1 else 0)
  }

  /** There are as many items as attachments plus inline images. */
  lemma {:induction false} FlattenedCount(posts: seq<Post>, pathname: string -> Option<string>,
                                          decode: string -> Option<string>)
    ensures |Flattened(posts, pathname, decode)| == AttachmentCount(posts) + ImageCount(posts)
  {
    if posts != [] {
      FlattenedCount(posts[..|posts| - 1], pathname, decode);
    }
  }

  /** `it` carries the author, text and id of one of the posts. */
  predicate FromPost(it: Item, posts: seq<Post>) {
    exists i | 0 <= i < |posts| :: it.author == posts[i].authorEmail && it.text == posts[i].text && it.postId == posts[i].id
  }

  /** Every item carries the author, text and id of a post it came from. */
  lemma {:induction false} FlattenedFromPosts(posts: seq<Post>, pathname: string -> Option<string>,
                                              decode: string -> Option<string>)
    ensures forall k | 0 <= k < |Flattened(posts, pathname, decode)| :: FromPost(Flattened(posts, pathname, decode)[k], posts)
  {
    if posts != [] {
      var init := posts[..|posts| - 1];
      var last := posts[|posts| - 1];
      var f, fi, tail := Flattened(posts, pathname, decode), Flattened(init, pathname, decode), ItemsOf(last, pathname, decode);
      FlattenedFromPosts(init, pathname, decode);
      assert f == fi + tail;
      forall k | 0 <= k < |f| ensures FromPost(f[k], posts) {
        if k < |fi| {
          assert f[k] == fi[k];
          assert FromPost(fi[k], init);
          var i :| 0 <= i < |init| && fi[k].author == init[i].authorEmail && fi[k].text == init[i].text && fi[k].postId == init[i].id;
          assert init[i] == posts[i];
        } else {
          assert f[k] == tail[k - |fi|];
          var j := k - |fi|;
          if j < |last.attachments| {
            assert tail[j] == AttachmentItem(last, last.attachments[j], pathname, decode);
          } else {
            assert tail[j] == ImageItem(last, pathname, decode);
          }
          assert posts[|posts| - 1] == last;
        }
      }
    }
  }

  /** `(s || "").toLowerCase()` applied to the item's name, text and author,
      each tested with `includes(q)`. */
  function MatchesQuery(q: string): Item -> bool {
    (it: Item) => Contains(Lower(it.name), q) || Contains(Lower(it.text), q) || Contains(Lower(it.author), q)
  }

  /** The `filtered` memo. */
  function Filtered(items: seq<Item>, query: string): (r: seq<Item>)
    ensures Lower(query) == "" ==> r == items
    ensures Lower(query) != "" ==>
      && (forall k | 0 <= k < |r| :: r[k] in items && MatchesQuery(Lower(query))(r[k]))
      && (forall k | 0 <= k < |items| && MatchesQuery(Lower(query))(items[k]) :: items[k] in r)
  {
    var q := Lower(query);
    if q == "" then items else Filter(items, MatchesQuery(q))
  }

  /** The search ignores case in the query, and keeps the items' order. */
  lemma FilteredSpec(items: seq<Item>, query: string, extra: seq<Item>)
    ensures Filtered(items, query) == Filtered(items, Lower(query))
    ensures Filtered(items + extra, query) == Filtered(items, query) + Filtered(extra, query)
  {
    LowerIdempotent(query);
    if Lower(query) != "" {
      FilterAppend(items, extra, MatchesQuery(Lower(query)));
    }
  }

  /** The page's state: the loaded items and the search box. */
  class Resources {
    var items: seq<Item>
    var query: string

    constructor ()
      ensures items == [] && query == ""
    {
      items := [];
      query := "";
    }

    /** The mount effect: nothing without a token; the items are replaced
        only by a successful feed reply. */
    method Load(token: Option<string>, success: bool, posts: seq<Post>,
                pathname: string -> Option<string>, decode: string -> Option<string>)
      modifies this
      ensures items == (if Truthy(token) && success then Flattened(posts, pathname, decode) else old(items))
      ensures query == old(query)
    {
      if !Truthy(token) {
        return;
      }
      if success {
        items := Flatten(posts, pathname, decode);
      }
    }
  }
}
