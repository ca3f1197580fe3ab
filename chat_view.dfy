/**
 * The conversation window of the chat client: the list of messages shown
 * between the signed-in user ("me") and one chat partner, and how socket
 * events and the send button change it.
 *
 * Socket emission, `uuid` and the clock are not modelled; the identifier and
 * timestamp a send uses, and whether the emit threw, are parameters.
 */
module ChatView {
  import opened Wrappers
  import opened Strings

  /** The delivery state the sender's client shows for a message. */
  datatype Status = Sending | Sent | Error

  /**
   * A message as the client holds it. An absent `isRead` behaves exactly as
   * `false` everywhere it is tested, so it is modelled as `false`.
   */
  datatype Message = Message(
    id: string,
    senderId: string,
    receiverId: string,
    text: string,
    timestamp: int,
    status: Status,
    isRead: bool)

  /** The payload of a `messagesRead` event. */
  datatype ReadPayload = ReadPayload(senderId: string, receiverId: string)

  /** The glyph shown under one of my own messages. */
  datatype Tick = SingleTick | DoubleTick

  /** A message travels between me and the partner, in either direction. */
  predicate InConversation(m: Message, me: string, partner: string) {
    (m.senderId == partner && m.receiverId == me) || (m.senderId == me && m.receiverId == partner)
  }

  predicate HasId(msgs: seq<Message>, id: string) {
    exists j :: 0 <= j < |msgs| && msgs[j].id == id
  }

  predicate UniqueIds(msgs: seq<Message>) {
    forall i, j :: 0 <= i < j < |msgs| ==> msgs[i].id != msgs[j].id
  }

  /** `findIndex(msg => msg.id === id)`: the first position holding that id. */
  function IndexOfId(msgs: seq<Message>, id: string): (r: Option<nat>)
    ensures r.Some? ==> r.value < |msgs| && msgs[r.value].id == id
    ensures r.Some? ==> forall j :: 0 <= j < r.value ==> msgs[j].id != id
    ensures r.None? <==> !HasId(msgs, id)
  {
    if |msgs| == 0 then None
    else if msgs[0].id == id then Some(0)
    else
      match IndexOfId(msgs[1..], id)
      case Some(i) => Some(i + 1)
      case None =>
        assert forall j :: 1 <= j < |msgs| ==> msgs[j] == msgs[1..][j - 1];
        None
  }

  /** What a received message becomes in the list: the same message, marked sent. */
  function Delivered(m: Message): Message {
    m.(status := Sent)
  }

  /**
   * The list update of a received message: a message whose id is already
   * listed replaces the first one with that id in place; any other message is
   * appended at the end.
   */
  function Upsert(msgs: seq<Message>, incoming: Message): (r: seq<Message>)
    ensures HasId(msgs, incoming.id) ==>
      |r| == |msgs| &&
      exists i :: 0 <= i < |msgs| && msgs[i].id == incoming.id && r[i] == Delivered(incoming) &&
        (forall j :: 0 <= j < i ==> msgs[j].id != incoming.id) &&
        (forall j :: 0 <= j < |msgs| && j != i ==> r[j] == msgs[j])
    ensures !HasId(msgs, incoming.id) ==>
      |r| == |msgs| + 1 && r[..|msgs|] == msgs && r[|msgs|] == Delivered(incoming)
    ensures UniqueIds(msgs) ==> UniqueIds(r)
    ensures HasId(r, incoming.id)
  {
    match IndexOfId(msgs, incoming.id)
    case Some(i) =>
      var r := msgs[i := Delivered(incoming)];
      assert UniqueIds(msgs) ==> UniqueIds(r) by {
        if UniqueIds(msgs) {
          forall a, b | 0 <= a < b < |r| ensures r[a].id != r[b].id {
            if a != i && b != i {
              assert r[a] == msgs[a] && r[b] == msgs[b];
            }
          }
        }
      }
      assert r[i].id == incoming.id;
      r
    case None =>
      var r := msgs + [Delivered(incoming)];
      assert r[|msgs|].id == incoming.id;
      r
  }

  /**
   * The list update of a read receipt: every message I sent is read, and
   * nothing else about any message changes.
   */
  function MarkMineRead(msgs: seq<Message>, me: string): (r: seq<Message>)
    ensures |r| == |msgs|
    ensures forall i :: 0 <= i < |msgs| ==> r[i].isRead == (msgs[i].isRead || msgs[i].senderId == me)
    ensures forall i :: 0 <= i < |msgs| ==> r[i].(isRead := msgs[i].isRead) == msgs[i]
  {
    if |msgs| == 0 then []
    else
      var m := msgs[0];
      var head := if m.senderId == me && !m.isRead then m.(isRead := true) else m;
      var tail := MarkMineRead(msgs[1..], me);
      assert forall i :: 1 <= i < |msgs| ==> msgs[i] == msgs[1..][i - 1];
      [head] + tail
  }

  /** Applying a read receipt twice is the same as applying it once. */
  lemma MarkMineReadIdempotent(msgs: seq<Message>, me: string)
    ensures MarkMineRead(MarkMineRead(msgs, me), me) == MarkMineRead(msgs, me)
  {
    var once := MarkMineRead(msgs, me);
    var twice := MarkMineRead(once, me);
    forall i | 0 <= i < |msgs| ensures twice[i] == once[i] {
      assert twice[i].(isRead := once[i].isRead) == once[i];
    }
  }

  /** The status update after an emit: every message with that id gets the new status. */
  function SetStatus(msgs: seq<Message>, id: string, status: Status): (r: seq<Message>)
    ensures |r| == |msgs|
    ensures forall i :: 0 <= i < |msgs| ==> r[i].status == (if msgs[i].id == id then status else msgs[i].status)
    ensures forall i :: 0 <= i < |msgs| ==> r[i].(status := msgs[i].status) == msgs[i]
  {
    if |msgs| == 0 then []
    else
      var m := msgs[0];
      var head := if m.id == id then m.(status := status) else m;
      var tail := SetStatus(msgs[1..], id, status);
      assert forall i :: 1 <= i < |msgs| ==> msgs[i] == msgs[1..][i - 1];
      [head] + tail
  }

  /**
   * When the optimistic message carries an id not yet in the list, the
   * status change touches that message only: the list is the old list plus
   * the new message in its final state.
   */
  lemma {:induction false} SetStatusOfFresh(msgs: seq<Message>, pending: Message, status: Status)
    requires !HasId(msgs, pending.id)
    ensures SetStatus(msgs + [pending], pending.id, status) == msgs + [pending.(status := status)]
  {
    var r := SetStatus(msgs + [pending], pending.id, status);
    forall i | 0 <= i < |msgs| ensures r[i] == msgs[i] {
      assert (msgs + [pending])[i] == msgs[i];
      assert msgs[i].id != pending.id;
      assert r[i].(status := msgs[i].status) == msgs[i];
    }
    assert (msgs + [pending])[|msgs|] == pending;
    assert r[|msgs|].(status := pending.status) == pending;
  }

  /** `renderMessageStatus`: no glyph on the partner's messages; two ticks once read. */
  function StatusTick(m: Message, me: string): (r: Option<Tick>)
    ensures r.None? <==> m.senderId != me
    ensures r == Some(DoubleTick) <==> m.senderId == me && m.isRead
    ensures r == Some(SingleTick) <==> m.senderId == me && !m.isRead
  {
    if m.senderId != me then None
    else if m.isRead then Some(DoubleTick)
    else Some(SingleTick)
  }

  /** After a read receipt none of my messages shows a single tick. */
  lemma ReadReceiptLeavesNoSingleTick(msgs: seq<Message>, me: string)
    ensures forall i :: 0 <= i < |msgs| ==>
      StatusTick(MarkMineRead(msgs, me)[i], me) != Some(SingleTick)
  {
  }

  /** The messages of `msgs` whose date key is `key`, in list order. */
  function OnDate(msgs: seq<Message>, dateKey: int -> string, key: string): (r: seq<Message>)
    ensures |r| <= |msgs|
  {
    if |msgs| == 0 then []
    else
      var last := msgs[|msgs| - 1];
      OnDate(msgs[..|msgs| - 1], dateKey, key) + (if dateKey(last.timestamp) == key then [last] else [])
  }

  /** A date group holds exactly the messages of that date. */
  lemma {:induction false} OnDateMembers(msgs: seq<Message>, dateKey: int -> string, key: string)
    ensures forall m :: m in OnDate(msgs, dateKey, key) ==> m in msgs && dateKey(m.timestamp) == key
    ensures forall m :: m in msgs && dateKey(m.timestamp) == key ==> m in OnDate(msgs, dateKey, key)
  {
    if |msgs| > 0 {
      var init := msgs[..|msgs| - 1];
      assert msgs == init + [msgs[|msgs| - 1]];
      OnDateMembers(init, dateKey, key);
    }
  }

  /** No message of that date, no group. */
  lemma {:induction false} OnDateAbsent(msgs: seq<Message>, dateKey: int -> string, key: string)
    requires forall m :: m in msgs ==> dateKey(m.timestamp) != key
    ensures OnDate(msgs, dateKey, key) == []
  {
    if |msgs| > 0 {
      var init := msgs[..|msgs| - 1];
      assert forall m :: m in init ==> m in msgs;
      assert msgs[|msgs| - 1] in msgs;
      OnDateAbsent(init, dateKey, key);
    }
  }

  /** The date keys of `msgs` in the order they first occur. */
  function KeysInOrder(msgs: seq<Message>, dateKey: int -> string): (r: seq<string>)
    ensures forall i, j :: 0 <= i < j < |r| ==> r[i] != r[j]
  {
    if |msgs| == 0 then []
    else
      var keys := KeysInOrder(msgs[..|msgs| - 1], dateKey);
      var k := dateKey(msgs[|msgs| - 1].timestamp);
      if k in keys then keys else keys + [k]
  }

  /** The ordered keys are exactly the dates that occur. */
  lemma {:induction false} KeysInOrderCovers(msgs: seq<Message>, dateKey: int -> string)
    ensures forall k :: k in KeysInOrder(msgs, dateKey) <==> exists m :: m in msgs && dateKey(m.timestamp) == k
  {
    if |msgs| > 0 {
      var init := msgs[..|msgs| - 1];
      assert msgs == init + [msgs[|msgs| - 1]];
      KeysInOrderCovers(init, dateKey);
    }
  }

  /** Extending the list by one message extends each date group by at most that message. */
  lemma GroupStep(msgs: seq<Message>, dateKey: int -> string, i: nat)
    requires i < |msgs|
    ensures KeysInOrder(msgs[..i + 1], dateKey) ==
      (var keys := KeysInOrder(msgs[..i], dateKey);
       if dateKey(msgs[i].timestamp) in keys then keys else keys + [dateKey(msgs[i].timestamp)])
    ensures forall k :: (OnDate(msgs[..i + 1], dateKey, k) ==
      OnDate(msgs[..i], dateKey, k) + (if dateKey(msgs[i].timestamp) == k then [msgs[i]] else []))
  {
    var prefix := msgs[..i + 1];
    assert prefix[..|prefix| - 1] == msgs[..i];
    assert prefix[|prefix| - 1] == msgs[i];
  }

  /** The groups and their order after the first `i` messages have been placed. */
  ghost predicate GroupedUpTo(msgs: seq<Message>, dateKey: int -> string, i: nat,
                        groups: map<string, seq<Message>>, order: seq<string>)
    requires i <= |msgs|
  {
    order == KeysInOrder(msgs[..i], dateKey)
    && (forall k :: k in groups <==> k in order)
    && (forall k :: k in groups ==> groups[k] == OnDate(msgs[..i], dateKey, k))
  }

  /** Placing message `i`: its group is created when missing, and the message is appended to it. */
  lemma GroupedStep(msgs: seq<Message>, dateKey: int -> string, i: nat,
                    groups: map<string, seq<Message>>, order: seq<string>)
    requires i < |msgs| && GroupedUpTo(msgs, dateKey, i, groups, order)
    ensures
      var key := dateKey(msgs[i].timestamp);
      var g := if key in groups then groups else groups[key := []];
      GroupedUpTo(msgs, dateKey, i + 1, g[key := g[key] + [msgs[i]]],
                  if key in groups then order else order + [key])
  {
    var key := dateKey(msgs[i].timestamp);
    var g := if key in groups then groups else groups[key := []];
    var next := g[key := g[key] + [msgs[i]]];
    if key !in groups {
      KeysInOrderCovers(msgs[..i], dateKey);
      OnDateAbsent(msgs[..i], dateKey, key);
    }
    GroupStep(msgs, dateKey, i);
    forall k | k in next ensures next[k] == OnDate(msgs[..i + 1], dateKey, k) {
      if k != key {
        assert next[k] == groups[k];
      }
    }
  }

  /**
   * `groupMessagesByDate`: one group per date key, holding the messages of
   * that date in list order; `order` is the order of the groups, which is the
   * order in which their keys first occur.
   */
  method GroupByDate(msgs: seq<Message>, dateKey: int -> string)
    returns (groups: map<string, seq<Message>>, order: seq<string>)
    ensures forall k :: k in groups <==> exists m :: m in msgs && dateKey(m.timestamp) == k
    ensures forall k :: k in groups ==> groups[k] == OnDate(msgs, dateKey, k)
    ensures order == KeysInOrder(msgs, dateKey)
  {
    groups, order := map[], [];
    var i := 0;
    while i < |msgs|
      invariant 0 <= i <= |msgs|
      invariant GroupedUpTo(msgs, dateKey, i, groups, order)
    {
      var m := msgs[i];
      var key := dateKey(m.timestamp);
      GroupedStep(msgs, dateKey, i, groups, order);
      if key !in groups {
        groups := groups[key := []];
        order := order + [key];
      }
      groups := groups[key := groups[key] + [m]];
      i := i + 1;
    }
    assert msgs[..i] == msgs;
    KeysInOrderCovers(msgs, dateKey);
  }

  /** The conversation window's state: the shown messages and the input box. */
  class ChatWindow {
    var messages: seq<Message>
    var draft: string

    constructor ()
      ensures messages == [] && draft == ""
    {
      messages := [];
      draft := "";
    }

    /** Typing into the input box. */
    method EditDraft(text: string)
      modifies this`draft
      ensures draft == text
    {
      draft := text;
    }

    /** The `receiveMessage` handler: messages of other conversations are ignored. */
    method ReceiveMessage(me: string, partner: string, incoming: Message)
      modifies this`messages
      ensures InConversation(incoming, me, partner) ==> messages == Upsert(old(messages), incoming)
      ensures !InConversation(incoming, me, partner) ==> messages == old(messages)
      ensures UniqueIds(old(messages)) ==> UniqueIds(messages)
    {
      if InConversation(incoming, me, partner) {
        messages := Upsert(messages, incoming);
      }
    }

    /** The `messagesRead` handler: only a receipt for my messages to this partner applies. */
    method MessagesRead(me: string, partner: string, data: ReadPayload)
      modifies this`messages
      ensures data.senderId == me && data.receiverId == partner ==> messages == MarkMineRead(old(messages), me)
      ensures !(data.senderId == me && data.receiverId == partner) ==> messages == old(messages)
      ensures |messages| == |old(messages)|
      ensures forall i :: 0 <= i < |messages| ==> old(messages)[i].isRead ==> messages[i].isRead
    {
      if data.senderId == me && data.receiverId == partner {
        messages := MarkMineRead(messages, me);
      }
    }

    /**
     * `handleSendMessage`: nothing happens without a sender, a partner, a
     * socket and a draft with something besides white space. Otherwise the
     * trimmed draft is appended as an unread message with status `Sending`,
     * the draft is cleared, and the message's status then becomes `Sent`, or
     * `Error` when the emit throws.
     */
    method SendMessage(me: Option<string>, partner: Option<string>, socketReady: bool,
                       newId: string, now: int, emitFails: bool)
      modifies this
      ensures Falsy(me) || Trim(old(draft)) == "" || partner.None? || !socketReady ==>
        messages == old(messages) && draft == old(draft)
      ensures !(Falsy(me) || Trim(old(draft)) == "" || partner.None? || !socketReady) ==>
        draft == "" &&
        messages == SetStatus(
          old(messages) + [Message(newId, me.value, partner.value, Trim(old(draft)), now, Sending, false)],
          newId, if emitFails then Error else Sent)
      ensures !(Falsy(me) || Trim(old(draft)) == "" || partner.None? || !socketReady) && !HasId(old(messages), newId) ==>
        messages == old(messages) +
          [Message(newId, me.value, partner.value, Trim(old(draft)), now, if emitFails then Error else Sent, false)]
    {
      if Falsy(me) || Trim(draft) == "" || partner.None? || !socketReady {
        return;
      }
      var pending := Message(newId, me.value, partner.value, Trim(draft), now, Sending, false);
      ghost var before := messages;
      messages := messages + [pending];
      draft := "";
      if emitFails {
        messages := SetStatus(messages, pending.id, Error);
      } else {
        messages := SetStatus(messages, pending.id, Sent);
      }
      if !HasId(before, newId) {
        SetStatusOfFresh(before, pending, if emitFails then Error else Sent);
      }
    }
  }
}
