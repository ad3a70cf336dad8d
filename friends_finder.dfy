/** frontend/src/components/FriendsFinder.jsx: the client-side search over
    the cached user directory and post authors, and `addFriend` on the
    `friendsByEmail` and `friendChats` maps kept in local storage. */
module FriendsFinder {
  import opened Strings
  import opened Seqs
  import opened Browser

  datatype Mode = ByUsername | ByEmail

  /** An entry of the cached `usersByEmail` object, in `Object.entries` order. */
  datatype DirEntry = DirEntry(email: string, fullName: Option<string>)

  /** A search result: `{ email, name }`. */
  datatype Found = Found(email: string, name: string)

  // ---------------------------------------------------------------------------
  // The authors of the cached posts (`allPostsEmails`)

  /** `set.add(x)` on an insertion-ordered set. */
  function AddNew(s: seq<string>, x: string): (r: seq<string>)
    ensures x in s ==> r == s
    ensures x !in s ==> r == s + [x]
  {
    if x in s then s else s + [x]
  }

  /** The truthy `authorEmail`s, each once, in order of first appearance. */
  function Authors(posts: seq<Option<string>>): seq<string> {
    if posts == [] then []
    else
      var a := posts[|posts| - 1];
      var s := Authors(posts[..|posts| - 1]);
      if Truthy(a) then AddNew(s, a.value) else s
  }

  predicate Authored(posts: seq<Option<string>>, e: string) {
    exists i | 0 <= i < |posts| :: posts[i] == Some(e)
  }

  /** No author twice, and exactly the non-empty authors of the posts. */
  lemma {:induction false} AuthorsSpec(posts: seq<Option<string>>)
    ensures Unique(Authors(posts))
    ensures forall e :: e in Authors(posts) <==> e != "" && Authored(posts, e)
  {
    if posts != [] {
      var init := posts[..|posts| - 1];
      AuthorsSpec(init);
      forall e ensures Authored(posts, e) <==> Authored(init, e) || posts[|posts| - 1] == Some(e) {
        if Authored(posts, e) {
          var i :| 0 <= i < |posts| && posts[i] == Some(e);
          if i < |init| {
            assert init[i] == posts[i];
          }
        }
        if Authored(init, e) {
          var i :| 0 <= i < |init| && init[i] == Some(e);
          assert posts[i] == init[i];
        }
      }
    }
  }

  /** The loop that fills the set. */
  method AuthorEmails(posts: seq<Option<string>>) returns (r: seq<string>)
    ensures r == Authors(posts)
  {
    r := [];
    var i := 0;
    while i < |posts|
      invariant 0 <= i <= |posts|
      invariant r == Authors(posts[..i])
    {
      assert posts[..i + 1][..i] == posts[..i];
      if Truthy(posts[i]) {
        r := AddNew(r, posts[i].value);
      }
      i := i + 1;
    }
    assert posts[..i] == posts;
  }

  // ---------------------------------------------------------------------------
  // The search (`results`)

  function OrEmpty(v: Option<string>): string {
    if v.Some? then v.value else ""
  }

  /** `usersByEmail[email]?.fullName`. */
  function NameOf(dir: seq<DirEntry>, email: string): Option<string> {
    if dir == [] then None
    else if dir[0].email == email then dir[0].fullName
    else NameOf(dir[1..], email)
  }

  /** The `match` test of both loops, for the lower-cased query `q`. */
  predicate Matches(mode: Mode, q: string, email: string, fullName: Option<string>) {
    || (mode == ByUsername && Contains(Lower(OrEmpty(fullName)), q))
    || (mode == ByEmail && Contains(Lower(email), q))
  }

  /** `{ email, name: user?.fullName || email }`. */
  function Display(email: string, fullName: Option<string>): Found {
    Found(email, if Truthy(fullName) then fullName.value else email)
  }

  predicate HasKey(items: seq<Found>, e: string) {
    exists i | 0 <= i < |items| :: items[i].email == e
  }

  /** No email appears twice. */
  predicate Keyed(items: seq<Found>) {
    forall i, j | 0 <= i < j < |items| :: items[i].email != items[j].email
  }

  /** `items.set(f.email, f)` on a `Map`: a present key keeps its place and
      takes the new value; a new key goes last. */
  function Put(items: seq<Found>, f: Found): (r: seq<Found>)
    ensures forall e :: HasKey(r, e) <==> HasKey(items, e) || e == f.email
    ensures HasKey(items, f.email) ==> |r| == |items|
    ensures !HasKey(items, f.email) ==> r == items + [f]
  {
    if items == [] then
      HasKeyCons(f, []);
      assert [f] + [] == [f];
      [f]
    else
      HasKeyCons(items[0], items[1..]);
      assert items == [items[0]] + items[1..];
      if items[0].email == f.email then
        HasKeyCons(f, items[1..]);
        [f] + items[1..]
      else
        var rest := Put(items[1..], f);
        HasKeyCons(items[0], rest);
        [items[0]] + rest
  }

  /** Putting keeps every email unique. */
  lemma {:induction false} PutKeyed(items: seq<Found>, f: Found)
    requires Keyed(items)
    ensures Keyed(Put(items, f))
  {
    if items != [] && items[0].email != f.email {
      var rest := Put(items[1..], f);
      assert Keyed(items[1..]);
      PutKeyed(items[1..], f);
      HasKeyCons(items[0], items[1..]);
      assert items == [items[0]] + items[1..];
      KeyedTail(items);
      KeyedCons(items[0], rest);
    } else if items != [] {
      KeyedCons(f, items[1..]);
      HasKeyCons(items[0], items[1..]);
      assert items == [items[0]] + items[1..];
      KeyedTail(items);
    }
  }

  lemma KeyedTail(items: seq<Found>)
    requires Keyed(items) && items != []
    ensures !HasKey(items[1..], items[0].email)
  {
    forall i | 0 <= i < |items[1..]| ensures items[1..][i].email != items[0].email {
      assert items[1..][i] == items[i + 1];
    }
  }

  lemma KeyedCons(x: Found, rest: seq<Found>)
    requires Keyed(rest) && !HasKey(rest, x.email)
    ensures Keyed([x] + rest)
  {
    var r := [x] + rest;
    forall i, j | 0 <= i < j < |r| ensures r[i].email != r[j].email {
      assert r[j] == rest[j - 1];
      if i > 0 {
        assert r[i] == rest[i - 1];
      }
    }
  }

  lemma HasKeyCons(x: Found, rest: seq<Found>)
    ensures forall e :: HasKey([x] + rest, e) <==> x.email == e || HasKey(rest, e)
  {
    var r := [x] + rest;
    forall e ensures HasKey(r, e) <==> x.email == e || HasKey(rest, e) {
      if HasKey(r, e) && x.email != e {
        var i :| 0 <= i < |r| && r[i].email == e;
        assert i > 0 && rest[i - 1] == r[i];
      }
      if HasKey(rest, e) {
        var i :| 0 <= i < |rest| && rest[i].email == e;
        assert r[i + 1] == rest[i];
      }
      if x.email == e {
        assert r[0].email == e;
      }
    }
  }

  /** The first loop, over the directory. */
  function FromDirectory(dir: seq<DirEntry>, q: string, mode: Mode): seq<Found> {
    if dir == [] then []
    else
      var d := dir[|dir| - 1];
      var s := FromDirectory(dir[..|dir| - 1], q, mode);
      if Matches(mode, q, d.email, d.fullName) then Put(s, Display(d.email, d.fullName)) else s
  }

  /** The second loop, over the post authors, continuing the same map. */
  function FromAuthors(items: seq<Found>, authors: seq<string>, dir: seq<DirEntry>, q: string, mode: Mode)
    : seq<Found>
  {
    if authors == [] then items
    else
      var a := authors[|authors| - 1];
      var s := FromAuthors(items, authors[..|authors| - 1], dir, q, mode);
      if Matches(mode, q, a, NameOf(dir, a)) then Put(s, Display(a, NameOf(dir, a))) else s
  }

  const MaxResults: nat := 20

  /** `results`: nothing for a blank query, else the first twenty entries of
      the map. */
  function Results(query: string, mode: Mode, dir: seq<DirEntry>, authors: seq<string>): seq<Found> {
    var q := Lower(Trim(query));
    if q == "" then [] else Take(FromAuthors(FromDirectory(dir, q, mode), authors, dir, q, mode), MaxResults)
  }

  /** Some directory entry with that email matches. */
  predicate DirMatch(dir: seq<DirEntry>, q: string, mode: Mode, e: string) {
    exists i | 0 <= i < |dir| :: dir[i].email == e && Matches(mode, q, e, dir[i].fullName)
  }

  /** `e` is found by one of the two loops. */
  predicate IsMatch(dir: seq<DirEntry>, authors: seq<string>, q: string, mode: Mode, e: string) {
    DirMatch(dir, q, mode, e) || (e in authors && Matches(mode, q, e, NameOf(dir, e)))
  }

  lemma {:induction false} FromDirectorySpec(dir: seq<DirEntry>, q: string, mode: Mode)
    ensures Keyed(FromDirectory(dir, q, mode))
    ensures forall e :: HasKey(FromDirectory(dir, q, mode), e) <==> DirMatch(dir, q, mode, e)
  {
    if dir != [] {
      var init := dir[..|dir| - 1];
      var d := dir[|dir| - 1];
      FromDirectorySpec(init, q, mode);
      if Matches(mode, q, d.email, d.fullName) {
        PutKeyed(FromDirectory(init, q, mode), Display(d.email, d.fullName));
      }
      DirMatchSnoc(dir, q, mode);
    }
  }

  lemma DirMatchSnoc(dir: seq<DirEntry>, q: string, mode: Mode)
    requires dir != []
    ensures forall e :: DirMatch(dir, q, mode, e) <==>
      DirMatch(dir[..|dir| - 1], q, mode, e) || (dir[|dir| - 1].email == e && Matches(mode, q, e, dir[|dir| - 1].fullName))
  {
    var init := dir[..|dir| - 1];
    forall e ensures DirMatch(dir, q, mode, e) <==> DirMatch(init, q, mode, e) || (dir[|dir| - 1].email == e && Matches(mode, q, e, dir[|dir| - 1].fullName)) {
      if DirMatch(dir, q, mode, e) {
        var i :| 0 <= i < |dir| && dir[i].email == e && Matches(mode, q, e, dir[i].fullName);
        if i < |init| {
          assert init[i] == dir[i];
        }
      }
      if DirMatch(init, q, mode, e) {
        var i :| 0 <= i < |init| && init[i].email == e && Matches(mode, q, e, init[i].fullName);
        assert dir[i] == init[i];
      }
    }
  }

  lemma {:induction false} FromAuthorsSpec(items: seq<Found>, authors: seq<string>, dir: seq<DirEntry>, q: string, mode: Mode)
    ensures Keyed(items) ==> Keyed(FromAuthors(items, authors, dir, q, mode))
    ensures forall e :: HasKey(FromAuthors(items, authors, dir, q, mode), e) <==>
      HasKey(items, e) || (e in authors && Matches(mode, q, e, NameOf(dir, e)))
  {
    if authors != [] {
      var init := authors[..|authors| - 1];
      FromAuthorsSpec(items, init, dir, q, mode);
      var a := authors[|authors| - 1];
      if Keyed(items) && Matches(mode, q, a, NameOf(dir, a)) {
        PutKeyed(FromAuthors(items, init, dir, q, mode), Display(a, NameOf(dir, a)));
      }
      assert forall e :: e in authors <==> e in init || e == authors[|authors| - 1] by {
        assert authors == init + [authors[|authors| - 1]];
      }
    }
  }

  /** The search's promises: a blank query finds nothing; at most twenty
      results, no email twice; every result matches the query in the chosen
      mode; and when fewer than twenty are shown, every match is shown. */
  lemma ResultsSpec(query: string, mode: Mode, dir: seq<DirEntry>, authors: seq<string>)
    ensures Trim(query) == "" ==> Results(query, mode, dir, authors) == []
    ensures |Results(query, mode, dir, authors)| <= MaxResults
    ensures Keyed(Results(query, mode, dir, authors))
    ensures forall k | 0 <= k < |Results(query, mode, dir, authors)| ::
      IsMatch(dir, authors, Lower(Trim(query)), mode, Results(query, mode, dir, authors)[k].email)
    ensures Trim(query) != "" && |Results(query, mode, dir, authors)| < MaxResults ==>
      forall e | IsMatch(dir, authors, Lower(Trim(query)), mode, e) :: HasKey(Results(query, mode, dir, authors), e)
  {
    var q := Lower(Trim(query));
    var r := Results(query, mode, dir, authors);
    if q != "" {
      var first := FromDirectory(dir, q, mode);
      var all := FromAuthors(first, authors, dir, q, mode);
      FromDirectorySpec(dir, q, mode);
      FromAuthorsSpec(first, authors, dir, q, mode);
      assert r == all[..|r|];
      forall k | 0 <= k < |r| ensures IsMatch(dir, authors, q, mode, r[k].email) {
        assert r[k] == all[k];
        assert HasKey(all, all[k].email);
      }
      if |r| < MaxResults {
        assert r == all;
      }
    }
  }

  /** The two loops of the `results` memo. */
  method Search(query: string, mode: Mode, dir: seq<DirEntry>, authors: seq<string>) returns (r: seq<Found>)
    ensures r == Results(query, mode, dir, authors)
  {
    var q := Lower(Trim(query));
    if q == "" {
      return [];
    }
    var items: seq<Found> := [];
    var i := 0;
    while i < |dir|
      invariant 0 <= i <= |dir|
      invariant items == FromDirectory(dir[..i], q, mode)
    {
      assert dir[..i + 1][..i] == dir[..i];
      var d := dir[i];
      if Matches(mode, q, d.email, d.fullName) {
        items := Put(items, Display(d.email, d.fullName));
      }
      i := i + 1;
    }
    assert dir[..i] == dir;
    ghost var first := items;
    var j := 0;
    while j < |authors|
      invariant 0 <= j <= |authors|
      invariant items == FromAuthors(first, authors[..j], dir, q, mode)
    {
      assert authors[..j + 1][..j] == authors[..j];
      var a := authors[j];
      var name := NameOf(dir, a);
      if Matches(mode, q, a, name) {
        items := Put(items, Display(a, name));
      }
      j := j + 1;
    }
    assert authors[..j] == authors;
    r := Take(items, MaxResults);
  }

  // ---------------------------------------------------------------------------
  // addFriend

  /** `sessionStorage.getItem('userEmail') || localStorage.getItem('userEmail') || ''`. */
  function Me(session: Storage, local: Storage): string {
    OrEmpty(Or(Item(session, "userEmail"), Item(local, "userEmail")))
  }

  /** `Array.isArray(friendsByEmail[me]) ? friendsByEmail[me] : []`. */
  function Current(friends: map<string, seq<string>>, me: string): seq<string> {
    if me in friends then friends[me] else []
  }

  /** The `friendsByEmail` update: the target goes first in my list when it is
      not there yet; nobody else's list changes. */
  function Befriended(friends: map<string, seq<string>>, me: string, email: string)
    : (r: map<string, seq<string>>)
    ensures email in Current(r, me)
    ensures forall u | u != me :: (u in r <==> u in friends) && (u in r ==> r[u] == friends[u])
    ensures email in Current(friends, me) ==> r == friends
    ensures email !in Current(friends, me) ==> Current(r, me) == [email] + Current(friends, me)
    ensures Unique(Current(friends, me)) ==> Unique(Current(r, me))
  {
    var current := Current(friends, me);
    if email in current then friends else friends[me := [email] + current]
  }

  /** Adding twice is adding once. */
  lemma BefriendedIdempotent(friends: map<string, seq<string>>, me: string, email: string)
    ensures Befriended(Befriended(friends, me, email), me, email) == Befriended(friends, me, email)
  {
  }

  /** The `friendChats` update: an empty chat for the target unless one is
      stored. */
  function ChatSeeded(chats: map<string, seq<string>>, email: string): (r: map<string, seq<string>>)
    ensures email in r && r.Keys == chats.Keys + {email}
    ensures email in chats ==> r == chats
    ensures email !in chats ==> r[email] == [] && forall u | u in chats :: r[u] == chats[u]
  {
    if email in chats then chats else chats[email := []]
  }

  /** What FriendsFinder keeps in local storage, and the alerts it shows. */
  class LocalFriends {
    var friendsByEmail: map<string, seq<string>>
    var chats: map<string, seq<string>>
    var alerts: seq<string>

    constructor (friendsByEmail: map<string, seq<string>>, chats: map<string, seq<string>>)
      ensures this.friendsByEmail == friendsByEmail && this.chats == chats && alerts == []
    {
      this.friendsByEmail := friendsByEmail;
      this.chats := chats;
      alerts := [];
    }

    /** `addFriend(email)`: nothing without a current user or target, or for
        oneself; otherwise both maps are updated and the alert shown. */
    method AddFriend(session: Storage, local: Storage, email: string)
      modifies this
      ensures var me := Me(session, local);
        if me == "" || email == "" || me == email then
          friendsByEmail == old(friendsByEmail) && chats == old(chats) && alerts == old(alerts)
        else
          && friendsByEmail == Befriended(old(friendsByEmail), me, email)
          && chats == ChatSeeded(old(chats), email)
          && alerts == old(alerts) + ["Friend added. Open Messages to chat."]
    {
      var me := Me(session, local);
      if me == "" || email == "" || me == email {
        return;
      }
      var current := Current(friendsByEmail, me);
      if email !in current {
        friendsByEmail := friendsByEmail[me := [email] + current];
      }
      if email !in chats {
        chats := chats[email := []];
      }
      alerts := alerts + ["Friend added. Open Messages to chat."];
    }
  }
}
