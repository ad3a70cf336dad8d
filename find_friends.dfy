/** frontend/src/pages/FindFriendsPage.jsx: the page's friend-id list and
    search results, the `friendAdded` and `addFriend` updaters, `isFriend`,
    and the search guard. */
module FindFriendsPage {
  import opened Strings
  import opened Models
  import opened Seqs

  /** A user as `/users/search` lists them. */
  datatype Hit = Hit(id: UserId, fullName: string, email: string)

  /** The query parameters of one search request. */
  datatype SearchRequest = SearchRequest(q: string, mode: string)

  /** What the search request gave: a reply with `success` and its `data`, a
      reply without success, or a thrown error. */
  datatype SearchAnswer = SearchOk(hits: seq<Hit>) | SearchRefused | SearchThrew

  /** The `friendAdded` updater: the id is appended unless it is present. */
  function WithFriend(prev: seq<UserId>, id: UserId): (r: seq<UserId>)
    ensures id in r && forall x | x in prev :: x in r
    ensures id in prev ==> r == prev
    ensures id !in prev ==> r == prev + [id]
  {
    if id in prev then prev else prev + [id]
  }

  /** The event updater never introduces a duplicate and is idempotent. */
  lemma WithFriendUnique(prev: seq<UserId>, id: UserId)
    ensures Unique(prev) ==> Unique(WithFriend(prev, id))
    ensures WithFriend(WithFriend(prev, id), id) == WithFriend(prev, id)
  {
  }

  /** The `addFriend` updater appends without looking: adding someone who is
      already listed (for instance after the event arrived first) lists them
      twice. */
  lemma AddAppendsDuplicate(prev: seq<UserId>, id: UserId)
    requires id in prev
    ensures !Unique(prev + [id])
  {
    var i :| 0 <= i < |prev| && prev[i] == id;
    assert (prev + [id])[i] == (prev + [id])[|prev|];
  }

  class FindFriends {
    var myFriends: seq<UserId>
    var results: seq<Hit>
    var requests: seq<SearchRequest>

    constructor ()
      ensures myFriends == [] && results == [] && requests == []
    {
      myFriends := [];
      results := [];
      requests := [];
    }

    /** The mount effect's `/users/me` reply: the friend ids replace the list
        when the reply succeeded and carried a `friends` array. */
    method MeLoaded(token: Option<string>, success: bool, friends: Option<seq<UserId>>)
      modifies this
      ensures myFriends == (if Truthy(token) && success && friends.Some? then friends.value else old(myFriends))
      ensures results == old(results) && requests == old(requests)
    {
      if !Truthy(token) {
        return;
      }
      if success && friends.Some? {
        myFriends := friends.value;
      }
    }

    /** The `friendAdded` listener. */
    method OnFriendAdded(id: UserId)
      modifies this
      ensures myFriends == WithFriend(old(myFriends), id)
      ensures results == old(results) && requests == old(requests)
      ensures IsFriend(id)
    {
      myFriends := WithFriend(myFriends, id);
    }

    /** `handleSearch`: no request without a token or with a blank query; the
        results are replaced only by a successful reply. */
    method HandleSearch(token: Option<string>, query: string, mode: string, answer: SearchAnswer)
      modifies this
      ensures !Truthy(token) || Trim(query) == "" ==> requests == old(requests) && results == old(results)
      ensures Truthy(token) && Trim(query) != "" ==>
        && requests == old(requests) + [SearchRequest(query, mode)]
        && results == (if answer.SearchOk? then answer.hits else old(results))
      ensures myFriends == old(myFriends)
    {
      if !Truthy(token) || Trim(query) == "" {
        return;
      }
      requests := requests + [SearchRequest(query, mode)];
      if answer.SearchOk? {
        results := answer.hits;
      }
    }

    /** `addFriend(id)`: the id is appended once the request succeeds; a
        thrown request leaves the list alone. */
    method AddFriend(id: UserId, succeeded: bool)
      modifies this
      ensures myFriends == (if succeeded then old(myFriends) + [id] else old(myFriends))
      ensures results == old(results) && requests == old(requests)
      ensures succeeded ==> IsFriend(id)
      ensures !succeeded ==> (IsFriend(id) <==> old(IsFriend(id)))
    {
      if succeeded {
        myFriends := myFriends + [id];
      }
    }

    /** `isFriend(id)`: membership in the page's friend list. */
    predicate IsFriend(id: UserId)
      reads this
    {
      id in myFriends
    }
  }
}
