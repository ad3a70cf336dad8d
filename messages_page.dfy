/** frontend/src/pages/MessagesPage.jsx: the friend list, the active chat
    and its messages, and the handlers that change them: the incoming
    message listener, loading a chat, sending, and removing a friend. */
module MessagesPage {
  import opened Strings
  import opened Models
  import opened Seqs
  import ApiService

  /** A friend as `/users/me` lists them. */
  datatype Friend = Friend(id: UserId, fullName: Option<string>)

  /** What a send request gave: a reply with `success` and the stored
      message, or anything else (a reply without success, a thrown error). */
  datatype SendAnswer = SendOk(message: Message) | SendFailed

  /** `friends.find((f) => f._id === id)?.fullName || "this user"`. */
  function NameFor(friends: seq<Friend>, id: UserId): (name: string)
    ensures name != ""
    ensures (forall k | 0 <= k < |friends| :: friends[k].id != id) ==> name == "this user"
  {
    if friends == [] then "this user"
    else if friends[0].id == id then (if Truthy(friends[0].fullName) then friends[0].fullName.value else "this user")
    else NameFor(friends[1..], id)
  }

  function ConfirmText(friends: seq<Friend>, id: UserId): string {
    "Remove " + NameFor(friends, id) + " from your friends?"
  }

  function IsNot(id: UserId): Friend -> bool {
    (f: Friend) => f.id != id
  }

  /** `prev.filter((f) => f._id !== id)`: no entry with that id is left, and
      every other entry stays, in its order. */
  function WithoutFriend(friends: seq<Friend>, id: UserId): (r: seq<Friend>)
    ensures forall k | 0 <= k < |r| :: r[k].id != id && r[k] in friends
    ensures forall k | 0 <= k < |friends| && friends[k].id != id :: friends[k] in r
  {
    Filter(friends, IsNot(id))
  }

  /** Removing someone not listed changes nothing, and removing is
      order-preserving: it distributes over concatenation. */
  lemma WithoutFriendSpec(a: seq<Friend>, b: seq<Friend>, id: UserId)
    ensures (forall k | 0 <= k < |a| :: a[k].id != id) ==> WithoutFriend(a, id) == a
    ensures WithoutFriend(a + b, id) == WithoutFriend(a, id) + WithoutFriend(b, id)
  {
    if forall k | 0 <= k < |a| :: a[k].id != id {
      FilterAll(a, IsNot(id));
    }
    FilterAppend(a, b, IsNot(id));
  }

  /** The error `removeFriendSmart`'s failure is turned into:
      "Request failed", the status in parentheses when it is truthy, and
      ": " and the message when there is one. */
  function RequestFailed(res: ApiService.SmartResult): (e: string)
    ensures StartsWith(e, "Request failed")
    ensures (res.status.None? || res.status == Some(0)) && res.message == "" ==> e == "Request failed"
  {
    "Request failed"
      + (if res.status.Some? && res.status.value != 0 then " (" + Show(res.status.value) + ")" else "")
      + (if res.message != "" then ": " + res.message else "")
  }

  class Messages {
    var friends: seq<Friend>
    var activeFriend: Option<UserId>
    var messages: seq<Message>
    var input: string
    var removingId: Option<UserId>
    /** The texts sent, each with the friend it went to. */
    var sent: seq<(UserId, string)>
    /** The confirm prompts and the alerts shown. */
    var prompts: seq<string>
    var alerts: seq<string>

    constructor ()
      ensures friends == [] && activeFriend == None && messages == [] && input == ""
      ensures removingId == None && sent == [] && prompts == [] && alerts == []
    {
      friends := [];
      activeFriend := None;
      messages := [];
      input := "";
      removingId := None;
      sent := [];
      prompts := [];
      alerts := [];
    }

    /** The friend-list effect: replaced only by a successful reply that
        carries a `friends` array. */
    method FriendsLoaded(token: Option<string>, success: bool, list: Option<seq<Friend>>)
      modifies this
      ensures friends == (if Truthy(token) && success && list.Some? then list.value else old(friends))
      ensures activeFriend == old(activeFriend) && messages == old(messages) && input == old(input)
      ensures removingId == old(removingId) && sent == old(sent) && prompts == old(prompts) && alerts == old(alerts)
    {
      if Truthy(token) && success && list.Some? {
        friends := list.value;
      }
    }

    /** `messageListener`: a message from the open chat's friend goes first;
        any other leaves the list alone. */
    method OnNewMessage(msg: Message)
      modifies this
      ensures messages == (if activeFriend == Some(msg.from) then [msg] + old(messages) else old(messages))
      ensures friends == old(friends) && activeFriend == old(activeFriend) && input == old(input)
      ensures removingId == old(removingId) && sent == old(sent) && prompts == old(prompts) && alerts == old(alerts)
    {
      if activeFriend == Some(msg.from) {
        messages := [msg] + messages;
      }
    }

    /** `loadMessages(friendId)`: the chat opens at once; its messages
        replace the list only on a successful reply. */
    method LoadMessages(friendId: UserId, reply: Option<seq<Message>>)
      modifies this
      ensures activeFriend == Some(friendId)
      ensures messages == (if reply.Some? then reply.value else old(messages))
      ensures friends == old(friends) && input == old(input)
      ensures removingId == old(removingId) && sent == old(sent) && prompts == old(prompts) && alerts == old(alerts)
    {
      activeFriend := Some(friendId);
      if reply.Some? {
        messages := reply.value;
      }
    }

    /** `sendMessage`: nothing for a blank input or without an open chat;
        otherwise the trimmed text is sent, and on success the stored
        message goes first and the input is cleared. */
    method SendMessage(answer: SendAnswer)
      modifies this
      ensures Trim(old(input)) == "" || !Truthy(old(activeFriend)) ==>
        sent == old(sent) && messages == old(messages) && input == old(input)
      ensures Trim(old(input)) != "" && Truthy(old(activeFriend)) ==>
        && sent == old(sent) + [(old(activeFriend).value, Trim(old(input)))]
        && (answer.SendOk? ==> messages == [answer.message] + old(messages) && input == "")
        && (answer.SendFailed? ==> messages == old(messages) && input == old(input))
      ensures friends == old(friends) && activeFriend == old(activeFriend)
      ensures removingId == old(removingId) && prompts == old(prompts) && alerts == old(alerts)
    {
      var text := Trim(input);
      if text == "" || !Truthy(activeFriend) {
        return;
      }
      sent := sent + [(activeFriend.value, text)];
      if answer.SendOk? {
        messages := [answer.message] + messages;
        input := "";
      }
    }

    /** `handleRemoveFriend(friendId)`. `confirmed` is the answer to the
        confirm dialog and `res` what `removeFriendSmart` resolved to. */
    method HandleRemoveFriend(friendId: UserId, confirmed: bool, res: ApiService.SmartResult)
      modifies this
      ensures prompts == old(prompts) + [ConfirmText(old(friends), friendId)]
      ensures !confirmed ==>
        && friends == old(friends) && activeFriend == old(activeFriend) && messages == old(messages)
        && removingId == old(removingId) && alerts == old(alerts)
      ensures confirmed ==> removingId == None
      ensures confirmed && res.success ==>
        && friends == WithoutFriend(old(friends), friendId) && alerts == old(alerts)
        && (old(activeFriend) == Some(friendId) ==> activeFriend == None && messages == [])
        && (old(activeFriend) != Some(friendId) ==> activeFriend == old(activeFriend) && messages == old(messages))
      ensures confirmed && !res.success ==>
        && friends == old(friends) && activeFriend == old(activeFriend) && messages == old(messages)
        && alerts == old(alerts) + ["Failed to remove friend. " + RequestFailed(res)]
      ensures input == old(input) && sent == old(sent)
    {
      prompts := prompts + [ConfirmText(friends, friendId)];
      if !confirmed {
        return;
      }
      removingId := Some(friendId);
      if !res.success {
        // The thrown error's message is never empty, so the fallback
        // "Please try again." is not reached.
        alerts := alerts + ["Failed to remove friend. " + RequestFailed(res)];
      } else {
        friends := WithoutFriend(friends, friendId);
        if activeFriend == Some(friendId) {
          activeFriend := None;
          messages := [];
        }
      }
      removingId := None;
    }
  }
}
