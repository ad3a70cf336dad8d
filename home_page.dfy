/** frontend/src/pages/HomePage.jsx: the post composer's guard, the upload
    of each attachment in turn, the form it sends, the updates after the
    server's answer, and the scroll condition that turns the feed's page. */
module HomePage {
  import opened Strings
  import opened Models
  import opened Seqs
  import opened UseFeed
  import ApiService

  /** An attachment picked in the composer, before upload. */
  datatype Pending = Pending(name: string, file: string)

  /** What `uploadFile` gave for one attachment: a reply with `success` and
      `url`, a reply without success, or a thrown error. */
  datatype UploadAnswer = UploadOk(url: string) | UploadRefused | UploadThrew(error: ApiService.HttpError)

  /** The multipart form handed to `createPost`; `attachments` is present
      only when it is not empty. */
  datatype PostForm = PostForm(text: string, file: Option<string>, attachments: Option<seq<Attachment>>)

  /** What `createPost` gave: the stored post, a reply without success, or a
      thrown error. */
  datatype CreateAnswer = CreateOk(post: Post) | CreateRefused | CreateThrew(error: ApiService.HttpError)

  /** The guard: something to publish, be it text, an image or attachments. */
  predicate HasContent(text: string, file: Option<string>, pending: seq<Pending>) {
    Trim(text) != "" || file.Some? || |pending| > 0
  }

  /** The attachments whose upload succeeded, in the order they were picked. */
  function Collected(pending: seq<Pending>, upload: Pending -> UploadAnswer): (r: seq<Attachment>)
    ensures |r| <= |pending|
  {
    if pending == [] then []
    else
      var a := pending[|pending| - 1];
      Collected(pending[..|pending| - 1], upload)
        + (if upload(a).UploadOk? then [Attachment(a.name, upload(a).url)] else [])
  }

  /** `x` is what a successful upload of one of the picked attachments
      yields. */
  predicate FromUpload(x: Attachment, pending: seq<Pending>, upload: Pending -> UploadAnswer) {
    exists i | 0 <= i < |pending| :: upload(pending[i]).UploadOk? && x == Attachment(pending[i].name, upload(pending[i]).url)
  }

  /** Every collected attachment keeps its name and comes from a successful
      upload, and every successful upload is collected. */
  lemma {:induction false} CollectedSpec(pending: seq<Pending>, upload: Pending -> UploadAnswer)
    ensures forall k | 0 <= k < |Collected(pending, upload)| :: FromUpload(Collected(pending, upload)[k], pending, upload)
    ensures forall i | 0 <= i < |pending| && upload(pending[i]).UploadOk? ::
      Attachment(pending[i].name, upload(pending[i]).url) in Collected(pending, upload)
    ensures (forall i | 0 <= i < |pending| :: upload(pending[i]).UploadOk?) ==> |Collected(pending, upload)| == |pending|
  {
    if pending != [] {
      var init := pending[..|pending| - 1];
      var c := Collected(pending, upload);
      var last := pending[|pending| - 1];
      var ci := Collected(init, upload);
      assert c == ci + (if upload(last).UploadOk? then [Attachment(last.name, upload(last).url)] else []);
      CollectedSpec(init, upload);
      assert forall i | 0 <= i < |init| :: init[i] == pending[i];
      forall k | 0 <= k < |c| ensures FromUpload(c[k], pending, upload) {
        if k < |ci| {
          assert FromUpload(ci[k], init, upload);
          var i :| 0 <= i < |init| && upload(init[i]).UploadOk? && ci[k] == Attachment(init[i].name, upload(init[i]).url);
          assert c[k] == ci[k];
          assert init[i] == pending[i];
        } else {
          assert upload(last).UploadOk? && c[k] == Attachment(last.name, upload(last).url);
          assert pending[|pending| - 1] == last;
        }
      }
    }
  }

  /** Some upload threw before the loop reached its end. */
  predicate AnyThrew(pending: seq<Pending>, upload: Pending -> UploadAnswer) {
    exists i | 0 <= i < |pending| :: upload(pending[i]).UploadThrew?
  }

  /** The position of the first upload that throws: the one whose error
      reaches the `catch`. */
  function FirstThrown(pending: seq<Pending>, upload: Pending -> UploadAnswer): (k: nat)
    requires AnyThrew(pending, upload)
    ensures k < |pending| && upload(pending[k]).UploadThrew?
    ensures forall j | 0 <= j < k :: !upload(pending[j]).UploadThrew?
  {
    if upload(pending[0]).UploadThrew? then 0
    else
      assert AnyThrew(pending[1..], upload) by {
        var i :| 0 <= i < |pending| && upload(pending[i]).UploadThrew?;
        assert pending[1..][i - 1] == pending[i];
      }
      var k := FirstThrown(pending[1..], upload);
      assert forall j | 1 <= j < k + 1 :: pending[j] == pending[1..][j - 1];
      k + 1
  }

  /** The `for` loop over the picked attachments. It stops at the first
      upload that throws, whose position is `stop`; the caller's `catch`
      then takes over. */
  method UploadAll(pending: seq<Pending>, upload: Pending -> UploadAnswer)
    returns (r: Option<seq<Attachment>>, stop: nat)
    ensures r.None? <==> AnyThrew(pending, upload)
    ensures r.None? ==> stop == FirstThrown(pending, upload)
    ensures r.Some? ==> r.value == Collected(pending, upload)
  {
    var uploaded: seq<Attachment> := [];
    var i := 0;
    while i < |pending|
      invariant 0 <= i <= |pending|
      invariant uploaded == Collected(pending[..i], upload)
      invariant forall j | 0 <= j < i :: !upload(pending[j]).UploadThrew?
    {
      var a := pending[i];
      assert pending[..i + 1][..i] == pending[..i];
      var answer := upload(a);
      if answer.UploadThrew? {
        assert AnyThrew(pending, upload) by {
          assert upload(pending[i]).UploadThrew?;
        }
        return None, i;
      }
      if answer.UploadOk? {
        uploaded := uploaded + [Attachment(a.name, answer.url)];
      }
      i := i + 1;
    }
    assert pending[..i] == pending;
    r, stop := Some(uploaded), 0;
  }

  /** The form sent for a text, an image and the uploaded attachments. */
  function Form(text: string, file: Option<string>, uploaded: seq<Attachment>): (f: PostForm)
    ensures f.attachments.Some? <==> |uploaded| > 0
    ensures f.attachments.Some? ==> f.attachments.value == uploaded
    ensures f.text == Trim(text)
  {
    PostForm(Trim(text), file, if |uploaded| > 0 then Some(uploaded) else None)
  }

  /** The composer and the alerts the page has shown. */
  class Composer {
    var text: string
    var file: Option<string>
    var imageThumb: Option<string>
    var pending: seq<Pending>
    var alerts: seq<string>
    var sent: seq<PostForm>

    constructor ()
      ensures text == "" && file == None && imageThumb == None && pending == [] && alerts == [] && sent == []
    {
      text := "";
      file := None;
      imageThumb := None;
      pending := [];
      alerts := [];
      sent := [];
    }

    /** The rest of `handleCreatePost` once every upload has answered: the
        form is sent and the server's answer is applied. */
    method Submit(feed: FeedState, uploaded: seq<Attachment>, create: CreateAnswer, now: nat)
      requires feed.Valid()
      modifies this, feed
      ensures feed.Valid()
      ensures sent == old(sent) + [Form(old(text), old(file), uploaded)]
      ensures create.CreateOk? ==>
        && feed.posts == [create.post] + old(feed.posts)
        && feed.notifications == [Notification(now, "✅ New post published!")] + old(feed.notifications)
        && text == "" && file == None && imageThumb == None && pending == [] && alerts == old(alerts)
      ensures !create.CreateOk? ==>
        && feed.posts == old(feed.posts) && feed.notifications == old(feed.notifications)
        && text == old(text) && file == old(file) && pending == old(pending) && imageThumb == old(imageThumb)
      ensures create.CreateRefused? ==> alerts == old(alerts)
      ensures create.CreateThrew? ==>
        alerts == old(alerts) + ["Failed to create post. " + ApiService.FailureMessage(Some(create.error))]
      ensures feed.page == old(feed.page)
    {
      sent := sent + [Form(text, file, uploaded)];
      match create
      case CreateOk(post) =>
        feed.PrependPost(post);
        feed.OnNotification("✅ New post published!", now);
        text := "";
        file := None;
        imageThumb := None;
        pending := [];
      case CreateRefused =>
      case CreateThrew(error) =>
        alerts := alerts + ["Failed to create post. " + ApiService.FailureMessage(Some(error))];
    }

    /** `handleCreatePost`. `upload` and `create` are the server's answers,
        `now` is `Date.now()`. */
    method HandleCreatePost(feed: FeedState, upload: Pending -> UploadAnswer, create: CreateAnswer, now: nat)
      requires feed.Valid()
      modifies this, feed
      ensures feed.Valid()
      ensures !HasContent(old(text), old(file), old(pending)) ==>
        && text == old(text) && file == old(file) && pending == old(pending) && sent == old(sent)
        && imageThumb == old(imageThumb)
        && alerts == old(alerts) && feed.posts == old(feed.posts) && feed.notifications == old(feed.notifications)
      ensures HasContent(old(text), old(file), old(pending)) && AnyThrew(old(pending), upload) ==>
        && text == old(text) && file == old(file) && pending == old(pending) && sent == old(sent)
        && imageThumb == old(imageThumb)
        && alerts == old(alerts) + ["Failed to create post. " + ApiService.FailureMessage(
             Some(upload(old(pending)[FirstThrown(old(pending), upload)]).error))]
        && feed.posts == old(feed.posts)
        && feed.notifications == old(feed.notifications)
      ensures HasContent(old(text), old(file), old(pending)) && !AnyThrew(old(pending), upload) ==>
        && sent == old(sent) + [Form(old(text), old(file), Collected(old(pending), upload))]
        && (create.CreateOk? ==>
              && feed.posts == [create.post] + old(feed.posts)
              && feed.notifications == [Notification(now, "✅ New post published!")] + old(feed.notifications)
              && text == "" && file == None && imageThumb == None && pending == [] && alerts == old(alerts))
        && (!create.CreateOk? ==>
              && feed.posts == old(feed.posts) && feed.notifications == old(feed.notifications)
              && text == old(text) && file == old(file) && pending == old(pending) && imageThumb == old(imageThumb))
        && (create.CreateRefused? ==> alerts == old(alerts))
        && (create.CreateThrew? ==>
              alerts == old(alerts) + ["Failed to create post. " + ApiService.FailureMessage(Some(create.error))])
      ensures feed.page == old(feed.page)
    {
      if !HasContent(text, file, pending) {
        return;
      }
      var uploaded, stop := UploadAll(pending, upload);
      if uploaded.None? {
        alerts := alerts + ["Failed to create post. " + ApiService.FailureMessage(Some(upload(pending[stop]).error))];
        return;
      }
      Submit(feed, uploaded.value, create, now);
    }
  }

  /** `scrollTop + clientHeight >= scrollHeight - 200`. */
  predicate NearBottom(scrollTop: int, clientHeight: int, scrollHeight: int) {
    scrollTop + clientHeight >= scrollHeight - 200
  }

  /** The scroll listener: the page advances near the bottom while some
      loaded posts are still hidden. */
  method OnScroll(feed: FeedState, scrollTop: int, clientHeight: int, scrollHeight: int)
    requires feed.Valid()
    modifies feed
    ensures feed.Valid()
    ensures feed.posts == old(feed.posts) && feed.notifications == old(feed.notifications)
    ensures feed.page == if NearBottom(scrollTop, clientHeight, scrollHeight) && |old(feed.visible)| < |old(feed.posts)|
                         then old(feed.page) + 1 else old(feed.page)
  {
    if NearBottom(scrollTop, clientHeight, scrollHeight) && |feed.visible| < |feed.posts| {
      feed.NextPage();
    }
  }

  /** Once every loaded post is shown, scrolling no longer turns the page; and
      while some are hidden the page holds a full ten posts per page. */
  lemma ScrollStops(posts: seq<Post>, page: nat)
    ensures |VisiblePosts(posts, page)| < |posts| <==> page * ItemsPerPage < |posts|
    ensures |VisiblePosts(posts, page)| == |posts| ==> VisiblePosts(posts, page) == posts
  {
  }
}
