/** frontend/src/pages/ProfilePage.jsx: the avatar initials, and the page's
    edit and delete state over the user's own posts. */
module ProfilePage {
  import opened Strings
  import opened Models
  import opened Seqs

  /** A UTF-16 code unit. `n[0]` indexes code units, not characters, so the
      initials are a sequence of them. */
  type CodeUnit = u: int | 0 <= u < 0x1_0000

  /** The first code unit of a character: the character itself up to
      U+FFFF, and the high surrogate of its pair above. */
  function FirstUnit(c: char): (u: CodeUnit)
    ensures c <= '\U{FFFF}' ==> u == c as int
    ensures c > '\U{FFFF}' ==> 0xD800 <= u <= 0xDBFF
  {
    if c as int < 0x1_0000 then c as int else 0xD800 + (c as int - 0x1_0000) / 0x400
  }

  /** `toUpperCase` on one code unit, ASCII range; a lone surrogate is kept. */
  function UpperUnit(u: CodeUnit): CodeUnit {
    if 'a' as int <= u <= 'z' as int then u - 32 else u
  }

  /** Up to U+FFFF, upper-casing the code unit upper-cases the character. */
  lemma UpperUnitChar(c: char)
    requires c <= '\U{FFFF}'
    ensures UpperUnit(FirstUnit(c)) == UpperChar(c) as int
  {
  }

  function UpperUnits(s: seq<CodeUnit>): (r: seq<CodeUnit>)
    ensures |r| == |s|
    ensures forall i | 0 <= i < |s| :: r[i] == UpperUnit(s[i])
  {
    if s == [] then [] else [UpperUnit(s[0])] + UpperUnits(s[1..])
  }

  /** `n[0]`, which is `undefined` (joined as "") for an empty piece. */
  function FirstChar(n: string): seq<CodeUnit> {
    if n == "" then [] else [FirstUnit(n[0])]
  }

  /** `pieces.map((n) => n[0]).join("")`. */
  function Heads(pieces: seq<string>): (r: seq<CodeUnit>)
    ensures |r| <= |pieces|
    ensures (forall k | 0 <= k < |pieces| :: pieces[k] != "") ==>
      |r| == |pieces| && forall k | 0 <= k < |pieces| :: r[k] == FirstUnit(pieces[k][0])
  {
    if pieces == [] then [] else FirstChar(pieces[0]) + Heads(pieces[1..])
  }

  /** The "U" shown without a usable name. */
  const DefaultInitials: seq<CodeUnit> := ['U' as int]

  /** `initials`: "U" without a profile or a name; otherwise the first code
      units of the first two space-separated pieces of the name, upper-cased,
      or "U" when that is empty. */
  function Initials(hasProfile: bool, fullName: Option<string>): (r: seq<CodeUnit>)
    ensures 1 <= |r| <= 2
    ensures !hasProfile || fullName.None? ==> r == DefaultInitials
  {
    if !hasProfile || fullName.None? then DefaultInitials
    else
      var i := UpperUnits(Heads(Take(SplitOn(fullName.value, ' '), 2)));
      if i == [] then DefaultInitials else i
  }

  /** A one-word name gives the upper-cased first code unit, which for a
      first letter up to U+FFFF is the upper-cased letter. */
  lemma InitialsOneWord(a: string)
    requires a != "" && ' ' !in a
    ensures Initials(true, Some(a)) == [UpperUnit(FirstUnit(a[0]))]
    ensures a[0] <= '\U{FFFF}' ==> Initials(true, Some(a)) == [UpperChar(a[0]) as int]
  {
    assert BeforeFirst(a, ' ') == a;
    assert SplitOn(a, ' ') == [a];
    assert Heads([a]) == [FirstUnit(a[0])];
    if a[0] <= '\U{FFFF}' {
      UpperUnitChar(a[0]);
    }
  }

  /** A name of two or more words gives the upper-cased first code units of
      the first two. */
  lemma InitialsTwoWords(a: string, b: string)
    requires a != "" && ' ' !in a && b != "" && b[0] != ' '
    ensures Initials(true, Some(a + " " + b)) == [UpperUnit(FirstUnit(a[0])), UpperUnit(FirstUnit(b[0]))]
    ensures a[0] <= '\U{FFFF}' && b[0] <= '\U{FFFF}' ==>
      Initials(true, Some(a + " " + b)) == [UpperChar(a[0]) as int, UpperChar(b[0]) as int]
  {
    var s := a + " " + b;
    BeforeFirstAppend(a, ' ', b);
    assert s[|a| + 1..] == b;
    var pieces := SplitOn(s, ' ');
    assert pieces == [a] + SplitOn(b, ' ');
    var second := BeforeFirst(b, ' ');
    assert second != "" && second[0] == b[0];
    var two := Take(pieces, 2);
    assert two == [a, second];
    assert Heads([second]) == [FirstUnit(b[0])];
    var h := Heads(two);
    assert h == [FirstUnit(a[0])] + Heads([second]);
    assert UpperUnits(h) == [UpperUnit(h[0]), UpperUnit(h[1])];
    if a[0] <= '\U{FFFF}' && b[0] <= '\U{FFFF}' {
      UpperUnitChar(a[0]);
      UpperUnitChar(b[0]);
    }
  }

  /** A word starting above U+FFFF contributes only its high surrogate: for
      "😀 Sam" the initials are U+D83D followed by "S". */
  lemma InitialsAstral()
    ensures Initials(true, Some("\U{1F600} Sam")) == [0xD83D, 'S' as int]
  {
    assert "\U{1F600} Sam" == "\U{1F600}" + " " + "Sam";
    InitialsTwoWords("\U{1F600}", "Sam");
  }

  function IsNot(id: PostId): Post -> bool {
    (p: Post) => p.id != id
  }

  /** `prev.filter((p) => p._id !== id)`. */
  function WithoutPost(posts: seq<Post>, id: PostId): (r: seq<Post>)
    ensures forall k | 0 <= k < |r| :: r[k].id != id && r[k] in posts
    ensures forall k | 0 <= k < |posts| && posts[k].id != id :: posts[k] in r
  {
    Filter(posts, IsNot(id))
  }

  /** Deleting keeps the other posts in order: it distributes over
      concatenation. */
  lemma WithoutPostAppend(a: seq<Post>, b: seq<Post>, id: PostId)
    ensures WithoutPost(a + b, id) == WithoutPost(a, id) + WithoutPost(b, id)
  {
    FilterAppend(a, b, IsNot(id));
  }

  /** `prev.map((p) => (p._id === id ? { ...p, text } : p))`: only the text of
      the posts with that id changes. */
  function Edited(posts: seq<Post>, id: PostId, text: string): (r: seq<Post>)
    ensures |r| == |posts|
    ensures forall k | 0 <= k < |posts| :: r[k] == if posts[k].id == id then posts[k].(text := text) else posts[k]
  {
    if posts == [] then [] else [if posts[0].id == id then posts[0].(text := text) else posts[0]] + Edited(posts[1..], id, text)
  }

  class Profile {
    var posts: seq<Post>
    var editingId: Option<PostId>
    var editText: string
    var showDeleteModal: bool
    var postToDelete: Option<PostId>
    var errorMessage: string

    constructor (posts: seq<Post>)
      ensures this.posts == posts && editingId == None && editText == ""
      ensures !showDeleteModal && postToDelete == None && errorMessage == ""
    {
      this.posts := posts;
      editingId := None;
      editText := "";
      showDeleteModal := false;
      postToDelete := None;
      errorMessage := "";
    }

    /** `startEdit(post)`. */
    method StartEdit(post: Post)
      modifies this
      ensures editingId == Some(post.id) && editText == post.text
      ensures posts == old(posts) && postToDelete == old(postToDelete) && showDeleteModal == old(showDeleteModal)
      ensures errorMessage == old(errorMessage)
    {
      editingId := Some(post.id);
      editText := post.text;
    }

    /** `cancelEdit`. */
    method CancelEdit()
      modifies this
      ensures editingId == None && editText == ""
      ensures posts == old(posts) && postToDelete == old(postToDelete) && showDeleteModal == old(showDeleteModal)
      ensures errorMessage == old(errorMessage)
    {
      editingId := None;
      editText := "";
    }

    /** `handleDeleteRequest(id)`: the confirmation modal opens for that post. */
    method DeleteRequest(id: PostId)
      modifies this
      ensures postToDelete == Some(id) && showDeleteModal
      ensures posts == old(posts) && editingId == old(editingId) && editText == old(editText)
      ensures errorMessage == old(errorMessage)
    {
      postToDelete := Some(id);
      showDeleteModal := true;
    }

    /** `confirmDelete`. `deleted` says whether the request succeeded. */
    method ConfirmDelete(deleted: bool)
      modifies this
      ensures !Truthy(old(postToDelete)) ==>
        && posts == old(posts) && postToDelete == old(postToDelete)
        && showDeleteModal == old(showDeleteModal) && errorMessage == old(errorMessage)
      ensures Truthy(old(postToDelete)) ==>
        && !showDeleteModal && postToDelete == None
        && posts == (if deleted then WithoutPost(old(posts), old(postToDelete).value) else old(posts))
        && errorMessage == (if deleted then old(errorMessage) else "Failed to delete post.")
      ensures editingId == old(editingId) && editText == old(editText)
    {
      if !Truthy(postToDelete) {
        return;
      }
      if deleted {
        posts := WithoutPost(posts, postToDelete.value);
      } else {
        errorMessage := "Failed to delete post.";
      }
      showDeleteModal := false;
      postToDelete := None;
    }

    /** `saveEdit(id)`. `saved` says whether the request succeeded. */
    method SaveEdit(id: PostId, saved: bool)
      modifies this
      ensures saved ==>
        && posts == Edited(old(posts), id, old(editText))
        && editingId == None && editText == "" && errorMessage == old(errorMessage)
      ensures !saved ==>
        && posts == old(posts) && editingId == old(editingId) && editText == old(editText)
        && errorMessage == "Failed to save changes."
      ensures postToDelete == old(postToDelete) && showDeleteModal == old(showDeleteModal)
    {
      if saved {
        posts := Edited(posts, id, editText);
        CancelEdit();
      } else {
        errorMessage := "Failed to save changes.";
      }
    }
  }
}
