/** The handlers of server/routes/postRoutes.js: create, the requester's
    posts, the feed, and the owner-checked update and delete. */
module PostRoutes {
  import opened Strings
  import opened Models
  import opened Stores
  import opened Seqs

  /** What became of the optional `file` part: none sent, stored by the image
      host at a secure URL, or the host's upload failed. */
  datatype FileUpload = NoFile | Uploaded(secureUrl: string) | UploadFailed

  /** The `attachments` form field: absent or "", JSON that does not parse,
      or a parsed list of `{ name, url }` pairs. */
  datatype AttachmentsField = Absent | Malformed | Parsed(items: seq<Attachment>)

  /** The list the handler stores: a parse failure is logged and the list
      stays empty. */
  function AttachmentList(f: AttachmentsField): seq<Attachment> {
    if f.Parsed? then f.items else []
  }

  function Thumb(file: FileUpload): Option<string> {
    if file.Uploaded? then Some(file.secureUrl) else None
  }

  /** POST /: `me` and `myEmail` are the requester's id and email. */
  method Create(db: PostDb, me: UserId, myEmail: string, text: Option<string>,
                file: FileUpload, attachments: AttachmentsField)
    returns (r: Reply<Post>)
    requires db.Valid()
    modifies db
    ensures db.Valid()
    ensures file.UploadFailed? || me == "" || myEmail == "" ==>
      r == Reply(500, "Server error", None) && db.posts == old(db.posts)
    ensures !(file.UploadFailed? || me == "" || myEmail == "") ==>
      && r.status == 201 && r.data.Some?
      && var p := r.data.value;
         && db.posts == old(db.posts) + [p]
         && p == NewPost(p.id, me, myEmail, text, Thumb(file), AttachmentList(attachments), p.createdAt)
         && forall q | q in old(db.posts) :: q.id != p.id && q.createdAt < p.createdAt
  {
    if file.UploadFailed? {
      return Reply(500, "Server error", None);
    }
    var thumb := Thumb(file);
    var list := AttachmentList(attachments);
    if me == "" || myEmail == "" {
      // the schema's `required` on `user` and `authorEmail`
      return Reply(500, "Server error", None);
    }
    var p := db.Create(me, myEmail, text, thumb, list);
    r := Reply(201, "", Some(p));
  }

  /** A post made without text, file or attachments has the schema defaults;
      malformed attachment JSON gives an empty list, as an absent field does. */
  lemma CreateDefaults(text: Option<string>, attachments: AttachmentsField)
    ensures !Truthy(text) ==> OrDefault(text) == ""
    ensures Thumb(NoFile) == None
    ensures !attachments.Parsed? ==> AttachmentList(attachments) == []
  {
  }

  function OwnedBy(me: UserId): Post -> bool {
    (p: Post) => p.user == me
  }

  /** GET /me: the requester's posts, newest first. */
  method MyPosts(db: PostDb, me: UserId) returns (r: seq<Post>)
    ensures r == Reverse(Filter(db.posts, OwnedBy(me)))
  {
    r := Reverse(Filter(db.posts, OwnedBy(me)));
  }

  /** The posts of GET /me are exactly the requester's, newest first. */
  lemma MyPostsSpec(posts: seq<Post>, me: UserId)
    requires Ascending(posts, PostTime)
    ensures forall p :: p in Reverse(Filter(posts, OwnedBy(me))) <==> p in posts && p.user == me
    ensures Descending(Reverse(Filter(posts, OwnedBy(me))), PostTime)
  {
    ReverseFilterSpec(posts, OwnedBy(me), PostTime);
  }

  const FeedLimit: nat := 50

  /** GET /feed: all posts, newest first, at most fifty. */
  method Feed(db: PostDb) returns (r: seq<Post>)
    ensures r == Take(Reverse(db.posts), FeedLimit)
  {
    r := Take(Reverse(db.posts), FeedLimit);
  }

  /** The feed holds at most fifty posts, newest first, and they are the
      newest ones: every post left out is older than every post shown. */
  lemma FeedSpec(posts: seq<Post>)
    requires Ascending(posts, PostTime)
    ensures var r := Take(Reverse(posts), FeedLimit);
      && |r| <= FeedLimit && |r| == Min(FeedLimit, |posts|)
      && Descending(r, PostTime)
      && (forall j | 0 <= j < |r| :: r[j] == posts[|posts| - 1 - j])
      && forall i, j | 0 <= i < |posts| - |r| && 0 <= j < |r| :: posts[i].createdAt < r[j].createdAt
  {
    var r := Take(Reverse(posts), FeedLimit);
    ReverseAscending(posts, PostTime);
    TakeDescending(Reverse(posts), FeedLimit, PostTime);
    forall i, j | 0 <= i < |posts| - |r| && 0 <= j < |r|
      ensures posts[i].createdAt < r[j].createdAt
    {
      assert r[j] == posts[|posts| - 1 - j];
      assert PostTime(posts[i]) < PostTime(posts[|posts| - 1 - j]);
    }
  }

  predicate HasPost(posts: seq<Post>, id: PostId) {
    exists i | 0 <= i < |posts| :: posts[i].id == id
  }

  /** `req.body.text || post.text`. */
  function EditedText(current: string, text: Option<string>): string {
    if Truthy(text) then text.value else current
  }

  /** PUT /:id. */
  method Update(db: PostDb, me: UserId, id: PostId, text: Option<string>) returns (r: Reply<Post>)
    requires db.Valid()
    modifies db
    ensures db.Valid()
    ensures !HasPost(old(db.posts), id) ==>
      r == Reply(404, "Post not found", None) && db.posts == old(db.posts)
    ensures forall i | 0 <= i < |old(db.posts)| && old(db.posts)[i].id == id ::
      && (old(db.posts)[i].user != me ==>
            r == Reply(401, "User not authorized", None) && db.posts == old(db.posts))
      && (old(db.posts)[i].user == me ==>
            && db.posts == old(db.posts)[i := old(db.posts)[i].(text := EditedText(old(db.posts)[i].text, text))]
            && r == Reply(200, "", Some(db.posts[i])))
  {
    var found := db.FindById(id);
    if found.None? {
      return Reply(404, "Post not found", None);
    }
    var i := found.value;
    var post := db.posts[i];
    if post.user != me {
      return Reply(401, "User not authorized", None);
    }
    db.SetText(i, EditedText(post.text, text));
    r := Reply(200, "", Some(db.posts[i]));
  }

  /** An update that succeeds changes only that post's text, and keeps it
      when the new text is empty or missing. */
  lemma UpdateOnlyText(posts: seq<Post>, i: nat, text: Option<string>)
    requires i < |posts|
    ensures var after := posts[i := posts[i].(text := EditedText(posts[i].text, text))];
      && |after| == |posts|
      && (forall j | 0 <= j < |posts| && j != i :: after[j] == posts[j])
      && after[i].id == posts[i].id && after[i].user == posts[i].user
      && after[i].imageThumb == posts[i].imageThumb && after[i].attachments == posts[i].attachments
      && after[i].createdAt == posts[i].createdAt
      && (!Truthy(text) ==> after[i] == posts[i])
  {
  }

  /** DELETE /:id. */
  method Delete(db: PostDb, me: UserId, id: PostId) returns (r: Reply<bool>)
    requires db.Valid()
    modifies db
    ensures db.Valid()
    ensures !HasPost(old(db.posts), id) ==>
      r == Reply(404, "Post not found", None) && db.posts == old(db.posts)
    ensures forall i | 0 <= i < |old(db.posts)| && old(db.posts)[i].id == id ::
      && (old(db.posts)[i].user != me ==>
            r == Reply(401, "User not authorized", None) && db.posts == old(db.posts))
      && (old(db.posts)[i].user == me ==>
            db.posts == old(db.posts)[..i] + old(db.posts)[i + 1..] && r == Reply(200, "Post removed", None))
  {
    var found := db.FindById(id);
    if found.None? {
      return Reply(404, "Post not found", None);
    }
    var i := found.value;
    if db.posts[i].user != me {
      return Reply(401, "User not authorized", None);
    }
    db.DeleteAt(i);
    r := Reply(200, "Post removed", None);
  }

  /** With unique ids, deleting position i removes exactly the post with that
      id: every other post survives, in its order. */
  lemma DeleteExactlyOne(posts: seq<Post>, i: nat)
    requires i < |posts|
    requires forall a, b | 0 <= a < b < |posts| :: posts[a].id != posts[b].id
    ensures var after := posts[..i] + posts[i + 1..];
      && |after| == |posts| - 1
      && (forall j | 0 <= j < |after| :: after[j].id != posts[i].id)
      && (forall j | 0 <= j < |posts| && j != i :: posts[j] in after)
      && Filter(posts, (p: Post) => p.id != posts[i].id) == after
  {
    var after := posts[..i] + posts[i + 1..];
    var keep := (p: Post) => p.id != posts[i].id;
    forall j | 0 <= j < |after| ensures after[j].id != posts[i].id {
      assert after[j] == posts[if j < i then j else j + 1];
    }
    forall j | 0 <= j < |posts| && j != i ensures posts[j] in after {
      assert after[if j < i then j else j - 1] == posts[j];
    }
    forall j | 0 <= j < |posts| && j != i ensures keep(posts[j]) {
      assert posts[j].id != posts[i].id;
    }
    FilterSkip(posts, i, keep);
  }
}
