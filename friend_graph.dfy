/** The symmetric `friends` relation kept on the user records. The add and
    remove handlers of server/routes/userRoutes.js are specified by Befriend
    and Unfriend below; the handlers themselves are in UserRoutes. */
module FriendGraph {
  import opened Models
  import opened Seqs

  predicate AreFriends(users: map<UserId, User>, a: UserId, b: UserId) {
    a in users && b in users && b in users[a].friends
  }

  /** A in B.friends exactly when B in A.friends. */
  predicate Symmetric(users: map<UserId, User>) {
    forall a, b | a in users && b in users :: b in users[a].friends <==> a in users[b].friends
  }

  /** The invariant the add and remove handlers keep: the relation is
      symmetric, no list repeats an id or holds its owner, and every listed
      id is a stored user. */
  predicate WellFormed(users: map<UserId, User>) {
    && Symmetric(users)
    && forall a | a in users ::
         && Unique(users[a].friends)
         && a !in users[a].friends
         && forall b | b in users[a].friends :: b in users
  }

  /** `if (!list.includes(x)) list.push(x)` */
  function AddIfAbsent(s: seq<UserId>, x: UserId): (r: seq<UserId>)
    ensures forall y :: y in r <==> y in s || y == x
    ensures Unique(s) ==> Unique(r)
    ensures |s| <= |r| && r[..|s|] == s
  {
    if x in s then s else s + [x]
  }

  /** `list.filter((id) => id !== x)` */
  function Remove(s: seq<UserId>, x: UserId): (r: seq<UserId>)
    ensures forall y :: y in r <==> y in s && y != x
    ensures Unique(s) ==> Unique(r)
    ensures |r| <= |s|
  {
    if s == [] then []
    else if s[0] == x then Remove(s[1..], x)
    else
      var t := Remove(s[1..], x);
      assert Unique(s) ==> s[0] !in s[1..];
      assert forall j | 0 < j < |[s[0]] + t| :: ([s[0]] + t)[j] == t[j - 1];
      [s[0]] + t
  }

  lemma {:induction false} RemoveAbsent(s: seq<UserId>, x: UserId)
    requires x !in s
    ensures Remove(s, x) == s
  {
    if s != [] {
      RemoveAbsent(s[1..], x);
    }
  }

  lemma {:induction false} RemoveAppend(s: seq<UserId>, t: seq<UserId>, x: UserId)
    ensures Remove(s + t, x) == Remove(s, x) + Remove(t, x)
  {
    if s == [] {
      assert s + t == t;
    } else {
      assert (s + t)[1..] == s[1..] + t;
      RemoveAppend(s[1..], t, x);
    }
  }

  /** Removing an id that occurs once drops exactly that position: the other
      entries stay, in their original order. */
  lemma RemoveAt(s: seq<UserId>, i: nat)
    requires Unique(s) && i < |s|
    ensures Remove(s, s[i]) == s[..i] + s[i + 1..]
  {
    var x := s[i];
    assert s == s[..i] + [x] + s[i + 1..];
    assert x !in s[..i];
    assert x !in s[i + 1..];
    RemoveAppend(s[..i] + [x], s[i + 1..], x);
    RemoveAppend(s[..i], [x], x);
    RemoveAbsent(s[..i], x);
    RemoveAbsent(s[i + 1..], x);
  }

  /** The successful add-friend: each id is pushed onto the other's list
      unless already there. */
  function Befriend(users: map<UserId, User>, a: UserId, b: UserId): map<UserId, User>
    requires a in users && b in users && a != b
  {
    users[a := users[a].(friends := AddIfAbsent(users[a].friends, b))]
         [b := users[b].(friends := AddIfAbsent(users[b].friends, a))]
  }

  /** The successful remove-friend: each id is filtered out of the other's list. */
  function Unfriend(users: map<UserId, User>, a: UserId, b: UserId): map<UserId, User>
    requires a in users && b in users && a != b
  {
    users[a := users[a].(friends := Remove(users[a].friends, b))]
         [b := users[b].(friends := Remove(users[b].friends, a))]
  }

  /** Adding keeps the invariant. */
  lemma BefriendWellFormed(users: map<UserId, User>, a: UserId, b: UserId)
    requires WellFormed(users) && a in users && b in users && a != b
    ensures WellFormed(Befriend(users, a, b))
  {
    var r := Befriend(users, a, b);
    forall x, y | x in r && y in r
      ensures y in r[x].friends <==> x in r[y].friends
    {
      assert y in users[x].friends <==> x in users[y].friends;
    }
  }

  /** After adding, each is in the other's list; nobody else's record and no
      other field changes, and the old lists survive as prefixes. */
  lemma BefriendLinks(users: map<UserId, User>, a: UserId, b: UserId)
    requires a in users && b in users && a != b
    ensures var r := Befriend(users, a, b);
      && r.Keys == users.Keys
      && AreFriends(r, a, b) && AreFriends(r, b, a)
      && (forall c | c in users && c != a && c != b :: r[c] == users[c])
      && r[a] == users[a].(friends := r[a].friends)
      && r[b] == users[b].(friends := r[b].friends)
      && r[a].friends[..|users[a].friends|] == users[a].friends
      && r[b].friends[..|users[b].friends|] == users[b].friends
  {
  }

  /** Adding the same pair again changes nothing. */
  lemma BefriendIdempotent(users: map<UserId, User>, a: UserId, b: UserId)
    requires a in users && b in users && a != b
    ensures Befriend(Befriend(users, a, b), a, b) == Befriend(users, a, b)
  {
  }

  /** Removing keeps the invariant. */
  lemma UnfriendWellFormed(users: map<UserId, User>, a: UserId, b: UserId)
    requires WellFormed(users) && a in users && b in users && a != b
    ensures WellFormed(Unfriend(users, a, b))
  {
    var r := Unfriend(users, a, b);
    forall x, y | x in r && y in r
      ensures y in r[x].friends <==> x in r[y].friends
    {
      assert y in users[x].friends <==> x in users[y].friends;
    }
  }

  /** After removing, neither lists the other; nobody else's record and no
      other field changes, and each list loses that one id only. */
  lemma UnfriendSeparates(users: map<UserId, User>, a: UserId, b: UserId)
    requires a in users && b in users && a != b
    ensures var r := Unfriend(users, a, b);
      && r.Keys == users.Keys
      && !AreFriends(r, a, b) && !AreFriends(r, b, a)
      && (forall c | c in users && c != a && c != b :: r[c] == users[c])
      && r[a] == users[a].(friends := r[a].friends)
      && r[b] == users[b].(friends := r[b].friends)
      && (forall c :: c in r[a].friends <==> c in users[a].friends && c != b)
      && (forall c :: c in r[b].friends <==> c in users[b].friends && c != a)
  {
  }

  /** Under the invariant, removing a friend drops that one position of the
      remover's list and keeps every other entry in its order (the other list
      is the same statement with the roles swapped). */
  lemma UnfriendKeepsOrder(users: map<UserId, User>, a: UserId, b: UserId, i: nat)
    requires WellFormed(users) && a in users && b in users && a != b
    requires i < |users[a].friends| && users[a].friends[i] == b
    ensures Unfriend(users, a, b)[a].friends == users[a].friends[..i] + users[a].friends[i + 1..]
  {
    RemoveAt(users[a].friends, i);
  }

  /** Filtering out an id that was just pushed gives the list back. */
  lemma RemoveAfterAdd(s: seq<UserId>, x: UserId)
    requires x !in s
    ensures Remove(AddIfAbsent(s, x), x) == s
  {
    RemoveAppend(s, [x], x);
    RemoveAbsent(s, x);
  }

  /** Removing undoes adding two users who were not friends. */
  lemma UnfriendAfterBefriend(users: map<UserId, User>, a: UserId, b: UserId)
    requires WellFormed(users) && a in users && b in users && a != b
    requires !AreFriends(users, a, b)
    ensures Unfriend(Befriend(users, a, b), a, b) == users
  {
    var ua, ub := users[a], users[b];
    assert a !in ub.friends;
    RemoveAfterAdd(ua.friends, b);
    RemoveAfterAdd(ub.friends, a);
    var mid := Befriend(users, a, b);
    assert mid[a].friends == AddIfAbsent(ua.friends, b);
    assert mid[b].friends == AddIfAbsent(ub.friends, a);
    var r := Unfriend(mid, a, b);
    assert r[a] == ua.(friends := Remove(mid[a].friends, b)) == ua;
    assert r[b] == ub.(friends := Remove(mid[b].friends, a)) == ub;
    assert forall k | k in users && k != a && k != b :: r[k] == users[k];
    assert r.Keys == users.Keys;
  }

  /** Registering a user with an empty friends list keeps the invariant:
      nobody can list an id that is not yet stored. */
  lemma InsertLonely(users: map<UserId, User>, id: UserId, u: User)
    requires WellFormed(users) && id !in users && u.friends == []
    ensures WellFormed(users[id := u])
  {
    var r := users[id := u];
    forall x, y | x in r && y in r
      ensures y in r[x].friends <==> x in r[y].friends
    {
      if x != id && y != id {
        assert y in users[x].friends <==> x in users[y].friends;
      } else if x == id && y != id {
        assert id !in users[y].friends;
      } else if x != id && y == id {
        assert id !in users[x].friends;
      }
    }
  }

  /** Saving a record whose friends list is unchanged keeps the invariant. */
  lemma SaveKeepsFriends(users: map<UserId, User>, id: UserId, u: User)
    requires WellFormed(users) && id in users && u.friends == users[id].friends
    ensures WellFormed(users[id := u])
  {
    var r := users[id := u];
    forall x, y | x in r && y in r
      ensures y in r[x].friends <==> x in r[y].friends
    {
      assert y in users[x].friends <==> x in users[y].friends;
    }
  }
}
