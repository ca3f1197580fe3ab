/**
 * The home page: the cards of freelancers with their unread and online
 * markers, the client-wide unread counts kept up to date from chat events, the
 * set of freelancers currently online, and the five dialogs of which at most
 * one is open.
 *
 * Fetching users and counts, and the socket subscriptions, are not modelled:
 * what they deliver is a parameter of the operation it feeds.
 */
module HomePage {
  import opened Wrappers
  import ChatView
  import opened UnreadCounts

  /** The parts of a user the page looks at. */
  datatype User = User(id: string, role: string)

  /**
   * The count update on a received message: a message addressed to `me` adds
   * one to its sender's count (a missing count reads as 0).
   */
  function CountsOnReceive(counts: Counts, me: string, message: ChatView.Message): (r: Counts)
    ensures message.receiverId != me ==> r == counts
    ensures message.receiverId == me ==>
      message.senderId in r && r[message.senderId] == CountOf(counts, message.senderId) + 1
    ensures forall k :: k != message.senderId ==> (k in r <==> k in counts)
    ensures forall k :: k != message.senderId && k in counts ==> r[k] == counts[k]
  {
    if message.receiverId == me then counts[message.senderId := CountOf(counts, message.senderId) + 1]
    else counts
  }

  /** The count update on a read receipt addressed to `me`: the sender's count drops to 0. */
  function CountsOnRead(counts: Counts, me: string, data: ChatView.ReadPayload): (r: Counts)
    ensures data.receiverId != me ==> r == counts
    ensures data.receiverId == me ==> data.senderId in r && r[data.senderId] == 0
    ensures forall k :: k != data.senderId ==> (k in r <==> k in counts)
    ensures forall k :: k != data.senderId && k in counts ==> r[k] == counts[k]
  {
    if data.receiverId == me then counts[data.senderId := 0] else counts
  }

  /** How many of `msgs` come from `sender` and are addressed to `me`. */
  function Received(msgs: seq<ChatView.Message>, me: string, sender: string): nat {
    if |msgs| == 0 then 0
    else Received(msgs[..|msgs| - 1], me, sender)
         + (if msgs[|msgs| - 1].receiverId == me && msgs[|msgs| - 1].senderId == sender then 1 else 0)
  }

  /** The counts after a stream of received messages, in arrival order. */
  function CountsAfterAll(counts: Counts, me: string, msgs: seq<ChatView.Message>): Counts {
    if |msgs| == 0 then counts
    else CountsOnReceive(CountsAfterAll(counts, me, msgs[..|msgs| - 1]), me, msgs[|msgs| - 1])
  }

  /**
   * Counting is exact: after a stream of messages, each peer's count is its
   * count before plus the number of those messages it sent to `me`.
   */
  lemma {:induction false} CountsAfterAllExact(counts: Counts, me: string, msgs: seq<ChatView.Message>, sender: string)
    ensures CountOf(CountsAfterAll(counts, me, msgs), sender) == CountOf(counts, sender) + Received(msgs, me, sender)
  {
    if |msgs| > 0 {
      CountsAfterAllExact(counts, me, msgs[..|msgs| - 1], sender);
    }
  }

  /** A read receipt after any stream of messages leaves that peer with no unread messages. */
  lemma ReadClearsPeer(counts: Counts, me: string, msgs: seq<ChatView.Message>, sender: string)
    ensures CountOf(CountsOnRead(CountsAfterAll(counts, me, msgs), me, ChatView.ReadPayload(sender, me)), sender) == 0
  {
  }

  /**
   * The users whose cards the page shows: a freelancer sees only their own
   * card; an employer, or a visitor, sees the fetched freelancers.
   */
  function UsersToShow(current: Option<User>, fetched: seq<User>): (r: seq<User>)
    ensures current.Some? && current.value.role == "freelancer" ==> r == [current.value]
    ensures !(current.Some? && current.value.role == "freelancer") ==> r == fetched
  {
    if current.Some? && current.value.role == "employer" then fetched
    else if current.Some? && current.value.role == "freelancer" then [current.value]
    else fetched
  }

  /** What one card shows about its user. */
  datatype Card = Card(user: User, isOnline: bool, unreadCount: nat, canEdit: bool)

  function CardFor(user: User, current: Option<User>, online: set<string>, counts: Counts): Card {
    Card(user, user.id in online, CountOf(counts, user.id), current.Some? && current.value.id == user.id)
  }

  /**
   * The cards: every shown user who is not an employer, in order, each marked
   * online when in the online set, with its unread count (0 when absent), and
   * editable and deletable only by that user.
   */
  function Cards(users: seq<User>, current: Option<User>, online: set<string>, counts: Counts): (r: seq<Card>)
    ensures |r| <= |users|
    ensures forall i :: 0 <= i < |r| ==> r[i].user in users && r[i].user.role != "employer"
    ensures forall i :: 0 <= i < |r| ==>
      r[i].isOnline == (r[i].user.id in online) &&
      r[i].unreadCount == (if r[i].user.id in counts then counts[r[i].user.id] else 0) &&
      (r[i].canEdit <==> current.Some? && current.value.id == r[i].user.id)
    ensures exists idx :: CardsAt(users, r, idx, current, online, counts)
  {
    if |users| == 0 then
      assert CardsAt(users, [], [], current, online, counts);
      []
    else
      var rest := Cards(users[1..], current, online, counts);
      CardsStep(users, rest, current, online, counts);
      if users[0].role != "employer" then [CardFor(users[0], current, online, counts)] + rest else rest
  }

  /**
   * `cards` is `users` with the employers filtered out and each remaining
   * user mapped to its card, in order: `idx` lists the positions of the
   * users shown, strictly increasing, and every user who is not an employer
   * is among them.
   */
  ghost predicate CardsAt(users: seq<User>, cards: seq<Card>, idx: seq<nat>,
                          current: Option<User>, online: set<string>, counts: Counts) {
    |idx| == |cards|
    && (forall i :: 0 <= i < |idx| ==> idx[i] < |users| && users[idx[i]].role != "employer"
                                        && cards[i] == CardFor(users[idx[i]], current, online, counts))
    && (forall i, j :: 0 <= i < j < |idx| ==> idx[i] < idx[j])
    && (forall k :: 0 <= k < |users| && users[k].role != "employer" ==> k in idx)
  }

  /** Positions in the tail, as positions in the whole list. */
  function Shift(idx: seq<nat>): (r: seq<nat>)
    ensures |r| == |idx| && forall i :: 0 <= i < |idx| ==> r[i] == idx[i] + 1
  {
    seq(|idx|, i requires 0 <= i < |idx| => idx[i] + 1)
  }

  /** The tail's positions, shifted by one, select the tail's cards from the whole list. */
  lemma ShiftedTail(users: seq<User>, rest: seq<Card>, tail: seq<nat>,
                    current: Option<User>, online: set<string>, counts: Counts)
    requires |users| > 0 && CardsAt(users[1..], rest, tail, current, online, counts)
    ensures |Shift(tail)| == |rest|
    ensures forall i :: 0 <= i < |rest| ==>
      (1 <= Shift(tail)[i] < |users| && users[Shift(tail)[i]].role != "employer"
       && rest[i] == CardFor(users[Shift(tail)[i]], current, online, counts))
    ensures forall i, j :: 0 <= i < j < |rest| ==> Shift(tail)[i] < Shift(tail)[j]
    ensures forall k :: 1 <= k < |users| && users[k].role != "employer" ==> k in Shift(tail)
  {
    ShiftSelects(users, rest, tail, current, online, counts);
    ShiftCovers(users, tail);
  }

  lemma ShiftSelects(users: seq<User>, rest: seq<Card>, tail: seq<nat>,
                     current: Option<User>, online: set<string>, counts: Counts)
    requires |users| > 0 && |tail| == |rest|
    requires forall i :: 0 <= i < |tail| ==>
      (tail[i] < |users[1..]| && users[1..][tail[i]].role != "employer"
       && rest[i] == CardFor(users[1..][tail[i]], current, online, counts))
    ensures forall i :: 0 <= i < |rest| ==>
      (1 <= Shift(tail)[i] < |users| && users[Shift(tail)[i]].role != "employer"
       && rest[i] == CardFor(users[Shift(tail)[i]], current, online, counts))
  {
    var shifted := Shift(tail);
    forall i | 0 <= i < |rest| ensures users[shifted[i]] == users[1..][tail[i]] {
    }
  }

  lemma ShiftCovers(users: seq<User>, tail: seq<nat>)
    requires |users| > 0
    requires forall k :: 0 <= k < |users[1..]| && users[1..][k].role != "employer" ==> k in tail
    ensures forall k :: 1 <= k < |users| && users[k].role != "employer" ==> k in Shift(tail)
  {
    var shifted := Shift(tail);
    forall k | 1 <= k < |users| && users[k].role != "employer" ensures k in shifted {
      assert users[1..][k - 1] == users[k];
      var i :| 0 <= i < |tail| && tail[i] == k - 1;
      assert shifted[i] == k;
    }
  }

  /** The cards of the tail, in order, give the cards of the whole list, in order. */
  lemma CardsStep(users: seq<User>, rest: seq<Card>, current: Option<User>, online: set<string>, counts: Counts)
    requires |users| > 0
    requires exists idx :: CardsAt(users[1..], rest, idx, current, online, counts)
    ensures users[0].role != "employer" ==>
      exists idx :: CardsAt(users, [CardFor(users[0], current, online, counts)] + rest, idx, current, online, counts)
    ensures users[0].role == "employer" ==> exists idx :: CardsAt(users, rest, idx, current, online, counts)
  {
    var tail :| CardsAt(users[1..], rest, tail, current, online, counts);
    ShiftedTail(users, rest, tail, current, online, counts);
    if users[0].role != "employer" {
      KeptHead(users, rest, Shift(tail), current, online, counts);
    } else {
      DroppedHead(users, rest, Shift(tail), current, online, counts);
    }
  }

  lemma KeptHead(users: seq<User>, rest: seq<Card>, shifted: seq<nat>,
                 current: Option<User>, online: set<string>, counts: Counts)
    requires |users| > 0 && users[0].role != "employer" && |shifted| == |rest|
    requires forall i :: 0 <= i < |rest| ==>
      (1 <= shifted[i] < |users| && users[shifted[i]].role != "employer"
       && rest[i] == CardFor(users[shifted[i]], current, online, counts))
    requires forall i, j :: 0 <= i < j < |rest| ==> shifted[i] < shifted[j]
    requires forall k :: 1 <= k < |users| && users[k].role != "employer" ==> k in shifted
    ensures CardsAt(users, [CardFor(users[0], current, online, counts)] + rest, [0] + shifted, current, online, counts)
  {
    var r := [CardFor(users[0], current, online, counts)] + rest;
    var idx := [0] + shifted;
    forall k | 0 <= k < |users| && users[k].role != "employer" ensures k in idx {
      if k > 0 {
        assert k in shifted;
      }
    }
    forall i | 0 <= i < |idx| ensures idx[i] < |users| && users[idx[i]].role != "employer"
                                      && r[i] == CardFor(users[idx[i]], current, online, counts) {
      if i > 0 {
        assert idx[i] == shifted[i - 1] && r[i] == rest[i - 1];
      }
    }
  }

  lemma DroppedHead(users: seq<User>, rest: seq<Card>, shifted: seq<nat>,
                    current: Option<User>, online: set<string>, counts: Counts)
    requires |users| > 0 && users[0].role == "employer" && |shifted| == |rest|
    requires forall i :: 0 <= i < |rest| ==>
      (1 <= shifted[i] < |users| && users[shifted[i]].role != "employer"
       && rest[i] == CardFor(users[shifted[i]], current, online, counts))
    requires forall i, j :: 0 <= i < j < |rest| ==> shifted[i] < shifted[j]
    requires forall k :: 1 <= k < |users| && users[k].role != "employer" ==> k in shifted
    ensures CardsAt(users, rest, shifted, current, online, counts)
  {
  }

  /** No one who is not an employer is left without a card. */
  lemma CardsComplete(users: seq<User>, current: Option<User>, online: set<string>, counts: Counts, u: User)
    requires u in users && u.role != "employer"
    ensures exists i :: 0 <= i < |Cards(users, current, online, counts)| && Cards(users, current, online, counts)[i].user == u
  {
    var r := Cards(users, current, online, counts);
    var idx :| CardsAt(users, r, idx, current, online, counts);
    var k :| 0 <= k < |users| && users[k] == u;
    assert k in idx;
    var i :| 0 <= i < |idx| && idx[i] == k;
    assert r[i].user == u;
  }

  /** A freelancer's page shows exactly one card, their own, which they may edit. */
  lemma FreelancerSeesOwnCard(me: User, fetched: seq<User>, online: set<string>, counts: Counts)
    requires me.role == "freelancer"
    ensures Cards(UsersToShow(Some(me), fetched), Some(me), online, counts)
      == [Card(me, me.id in online, CountOf(counts, me.id), true)]
  {
    assert [me][1..] == [];
  }

  /** The page's own state. */
  class Page {
    var counts: Counts
    var online: set<string>
    var editOpen: bool
    var deleteOpen: bool
    var viewOpen: bool
    var chatOpen: bool
    var roomsOpen: bool
    var selected: Option<User>

    constructor ()
      ensures counts == map[] && online == {} && selected.None?
      ensures !editOpen && !deleteOpen && !viewOpen && !chatOpen && !roomsOpen
    {
      counts := map[];
      online := {};
      editOpen, deleteOpen, viewOpen, chatOpen, roomsOpen := false, false, false, false, false;
      selected := None;
    }

    predicate NoneOpen()
      reads this
    {
      !editOpen && !deleteOpen && !viewOpen && !chatOpen && !roomsOpen
    }

    /** Exactly one of the five dialogs is open. */
    predicate ExactlyOneOpen()
      reads this
    {
      (if editOpen then 1 else 0) + (if deleteOpen then 1 else 0) + (if viewOpen then 1 else 0)
      + (if chatOpen then 1 else 0) + (if roomsOpen then 1 else 0) == 1
    }

    /** The counts fetched on mount replace the table. */
    method CountsFetched(fetched: Counts)
      modifies this`counts
      ensures counts == fetched
    {
      counts := fetched;
    }

    /** A message arrives for the signed-in user `me`. */
    method ReceiveMessage(me: string, message: ChatView.Message)
      modifies this`counts
      ensures counts == CountsOnReceive(old(counts), me, message)
    {
      counts := CountsOnReceive(counts, me, message);
    }

    /** A read receipt arrives for the signed-in user `me`. */
    method MessagesRead(me: string, data: ChatView.ReadPayload)
      modifies this`counts
      ensures counts == CountsOnRead(old(counts), me, data)
    {
      counts := CountsOnRead(counts, me, data);
    }

    /** A freelancer came online: adding an id already there changes nothing. */
    method UserOnline(userId: string)
      modifies this`online
      ensures online == old(online) + {userId}
      ensures userId in old(online) ==> online == old(online)
    {
      online := online + {userId};
    }

    /** A freelancer went offline: a copy of the set, with only that id deleted. */
    method UserOffline(userId: string)
      modifies this`online
      ensures online == old(online) - {userId}
      ensures userId !in online && forall id :: id != userId ==> (id in online <==> id in old(online))
    {
      var copy := online;
      copy := copy - {userId};
      online := copy;
    }

    /** The server's list of online users replaces the set. */
    method OnlineUsers(userIds: seq<string>)
      modifies this`online
      ensures forall id :: id in online <==> id in userIds
    {
      online := set id | id in userIds;
    }

    /** `closeAllModals`: every dialog is closed; the selection is kept. */
    method CloseAllModals()
      modifies this`editOpen, this`deleteOpen, this`viewOpen, this`chatOpen, this`roomsOpen
      ensures NoneOpen()
    {
      editOpen := false;
      deleteOpen := false;
      viewOpen := false;
      chatOpen := false;
      roomsOpen := false;
    }

    method OpenEdit(user: User)
      modifies this`editOpen, this`deleteOpen, this`viewOpen, this`chatOpen, this`roomsOpen, this`selected
      ensures ExactlyOneOpen() && editOpen && selected == Some(user)
    {
      CloseAllModals();
      selected := Some(user);
      editOpen := true;
    }

    method OpenDelete(user: User)
      modifies this`editOpen, this`deleteOpen, this`viewOpen, this`chatOpen, this`roomsOpen, this`selected
      ensures ExactlyOneOpen() && deleteOpen && selected == Some(user)
    {
      CloseAllModals();
      selected := Some(user);
      deleteOpen := true;
    }

    method OpenView(user: User)
      modifies this`editOpen, this`deleteOpen, this`viewOpen, this`chatOpen, this`roomsOpen, this`selected
      ensures ExactlyOneOpen() && viewOpen && selected == Some(user)
    {
      CloseAllModals();
      selected := Some(user);
      viewOpen := true;
    }

    /**
     * A click on a card's chat button: a freelancer on their own card opens
     * the rooms dialog; every other click opens the chat dialog.
     */
    method OpenChatOrRooms(current: Option<User>, user: User)
      modifies this`editOpen, this`deleteOpen, this`viewOpen, this`chatOpen, this`roomsOpen, this`selected
      ensures ExactlyOneOpen() && selected == Some(user)
      ensures roomsOpen <==> current.Some? && current.value.role == "freelancer" && current.value.id == user.id
      ensures chatOpen <==> !roomsOpen
    {
      CloseAllModals();
      if current.Some? && current.value.role == "freelancer" && current.value.id == user.id {
        selected := Some(user);
        roomsOpen := true;
      } else {
        selected := Some(user);
        chatOpen := true;
      }
    }
  }
}
