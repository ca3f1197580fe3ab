/**
 * The freelancer's list of conversation rooms, one per employer who opened a
 * conversation, with an unread badge per room, kept in step with the
 * client-wide table of unread counts per peer.
 *
 * Fetching the rooms and emitting socket events are not modelled: the fetched
 * rooms (or a failed fetch) and whether a socket exists are parameters.
 */
module RoomsView {
  import opened Wrappers
  import ChatView
  import opened UnreadCounts

  /** The employer side of a room, as fetched. */
  datatype Employer = Employer(id: string, username: string, avatarUrl: Option<string>)

  /** A room as the server returns it. */
  datatype RoomData = RoomData(id: string, roomName: string, employer: Option<Employer>)

  /** A room as the list shows it. */
  datatype Room = Room(
    id: string,
    roomName: string,
    employer: Option<Employer>,
    employerName: string,
    employerAvatarUrl: Option<string>,
    unreadCount: nat)

  /** `room.employer?.id || ""`. */
  function EmployerKey(employer: Option<Employer>): string {
    if employer.Some? then employer.value.id else ""
  }

  /** `room.employer?.id === id`. */
  predicate EmployerIs(room: Room, id: string) {
    room.employer.Some? && room.employer.value.id == id
  }

  /** One fetched room as shown, with its badge taken from the client-wide counts. */
  function ProcessRoom(raw: RoomData, counts: Counts): Room {
    var name := if raw.employer.Some? && raw.employer.value.username != "" then raw.employer.value.username
                else "Unknown Employer";
    var avatar := if raw.employer.Some? && raw.employer.value.avatarUrl.Some? && raw.employer.value.avatarUrl.value != ""
                  then raw.employer.value.avatarUrl else None;
    Room(raw.id, raw.roomName, raw.employer, name, avatar, CountOf(counts, EmployerKey(raw.employer)))
  }

  /**
   * The room list built by `loadRooms`: the fetched rooms in the same order,
   * each with its employer's client-wide unread count (0 when there is none),
   * the employer's username as display name, falling back to "Unknown
   * Employer", and the employer's avatar URL when it is not empty.
   */
  function ProcessRooms(raw: seq<RoomData>, counts: Counts): (r: seq<Room>)
    ensures |r| == |raw|
    ensures forall i :: 0 <= i < |raw| ==>
      r[i].id == raw[i].id && r[i].roomName == raw[i].roomName && r[i].employer == raw[i].employer
    ensures forall i :: 0 <= i < |raw| ==>
      r[i].unreadCount == (if EmployerKey(raw[i].employer) in counts then counts[EmployerKey(raw[i].employer)] else 0)
    ensures forall i :: 0 <= i < |raw| ==>
      (r[i].employerName == "Unknown Employer" <==>
        raw[i].employer.None? || raw[i].employer.value.username in {"", "Unknown Employer"})
    ensures forall i :: 0 <= i < |raw| && raw[i].employer.Some? && raw[i].employer.value.username != "" ==>
      r[i].employerName == raw[i].employer.value.username
    ensures forall i :: 0 <= i < |raw| ==>
      (r[i].employerAvatarUrl.Some? <==>
        raw[i].employer.Some? && raw[i].employer.value.avatarUrl.Some? && raw[i].employer.value.avatarUrl.value != "")
    ensures forall i :: 0 <= i < |raw| && r[i].employerAvatarUrl.Some? ==>
      r[i].employerAvatarUrl == raw[i].employer.value.avatarUrl
  {
    seq(|raw|, i requires 0 <= i < |raw| => ProcessRoom(raw[i], counts))
  }

  /** A new message from `sender` bumps the badge of that sender's rooms. */
  function Bump(room: Room, sender: string): Room {
    if EmployerIs(room, sender) then room.(unreadCount := room.unreadCount + 1) else room
  }

  /**
   * The room-list update of `handleReceiveMessage`: the rooms whose employer
   * sent the message gain one unread message; every other room, and every other
   * field, is unchanged.
   */
  function BumpRooms(rooms: seq<Room>, sender: string): (r: seq<Room>)
    ensures |r| == |rooms|
    ensures forall i :: 0 <= i < |rooms| ==>
      r[i].unreadCount == (if EmployerIs(rooms[i], sender) then rooms[i].unreadCount + 1 else rooms[i].unreadCount)
    ensures forall i :: 0 <= i < |rooms| ==> r[i].(unreadCount := rooms[i].unreadCount) == rooms[i]
  {
    seq(|rooms|, i requires 0 <= i < |rooms| => Bump(rooms[i], sender))
  }

  /** The last room whose employer is `sender`, if any. */
  function LastMatching(rooms: seq<Room>, sender: string): (r: Option<nat>)
    ensures r.Some? ==> r.value < |rooms| && EmployerIs(rooms[r.value], sender)
    ensures r.Some? ==> forall j :: r.value < j < |rooms| ==> !EmployerIs(rooms[j], sender)
    ensures r.None? <==> forall j :: 0 <= j < |rooms| ==> !EmployerIs(rooms[j], sender)
  {
    if |rooms| == 0 then None
    else if EmployerIs(rooms[|rooms| - 1], sender) then Some(|rooms| - 1)
    else
      var r := LastMatching(rooms[..|rooms| - 1], sender);
      assert forall j :: 0 <= j < |rooms| - 1 ==> rooms[j] == rooms[..|rooms| - 1][j];
      r
  }

  /**
   * The client-wide counts after `handleReceiveMessage`: each matching room
   * writes its new badge value for the sender, so the last matching room's
   * value is the one kept; with no matching room nothing is written.
   */
  function CountsAfterReceive(rooms: seq<Room>, counts: Counts, sender: string): Counts {
    match LastMatching(rooms, sender)
    case None => counts
    case Some(i) => counts[sender := rooms[i].unreadCount + 1]
  }

  /** One more room: its bumped copy is appended, and it writes the table when it is the sender's. */
  lemma ReceiveStep(rooms: seq<Room>, room: Room, counts: Counts, counts0: Counts, sender: string)
    requires counts == CountsAfterReceive(rooms, counts0, sender)
    ensures BumpRooms(rooms + [room], sender) == BumpRooms(rooms, sender) + [Bump(room, sender)]
    ensures CountsAfterReceive(rooms + [room], counts0, sender) ==
      if EmployerIs(room, sender) then counts[sender := room.unreadCount + 1] else counts
  {
    BumpRoomsSnoc(rooms, room, sender);
    LastMatchingSnoc(rooms, room, sender);
  }

  lemma BumpRoomsSnoc(rooms: seq<Room>, room: Room, sender: string)
    ensures BumpRooms(rooms + [room], sender) == BumpRooms(rooms, sender) + [Bump(room, sender)]
  {
    var ext := rooms + [room];
    var lhs := BumpRooms(ext, sender);
    var rhs := BumpRooms(rooms, sender) + [Bump(room, sender)];
    assert |lhs| == |rhs|;
    forall k | 0 <= k < |lhs| ensures lhs[k] == rhs[k] {
      if k < |rooms| {
        assert ext[k] == rooms[k];
      }
    }
  }

  lemma LastMatchingSnoc(rooms: seq<Room>, room: Room, sender: string)
    ensures LastMatching(rooms + [room], sender) ==
      if EmployerIs(room, sender) then Some(|rooms|) else LastMatching(rooms, sender)
  {
    assert (rooms + [room])[..|rooms|] == rooms;
  }

  /**
   * The client-wide count for a sender with a room is overwritten with that
   * room's new badge value, whatever it was before; no other key changes.
   */
  lemma ReceiveOverwritesCount(rooms: seq<Room>, counts: Counts, sender: string)
    ensures forall k :: k != sender ==>
      (k in CountsAfterReceive(rooms, counts, sender) <==> k in counts)
    ensures forall k :: k != sender && k in counts ==> CountsAfterReceive(rooms, counts, sender)[k] == counts[k]
    ensures (exists j :: 0 <= j < |rooms| && EmployerIs(rooms[j], sender)) ==>
      sender in CountsAfterReceive(rooms, counts, sender) &&
      exists j :: 0 <= j < |rooms| && EmployerIs(rooms[j], sender) &&
        CountsAfterReceive(rooms, counts, sender)[sender] == BumpRooms(rooms, sender)[j].unreadCount
    ensures (forall j :: 0 <= j < |rooms| ==> !EmployerIs(rooms[j], sender)) ==>
      CountsAfterReceive(rooms, counts, sender) == counts
  {
    match LastMatching(rooms, sender)
    case None =>
    case Some(i) =>
      assert BumpRooms(rooms, sender)[i].unreadCount == rooms[i].unreadCount + 1;
  }

  /** A read receipt from `sender` clears the badge of that sender's rooms. */
  function Reset(room: Room, sender: string): Room {
    if EmployerIs(room, sender) then room.(unreadCount := 0) else room
  }

  /** The room-list update of `handleMessagesRead`: the sender's rooms drop to 0, others stay. */
  function ResetRooms(rooms: seq<Room>, sender: string): (r: seq<Room>)
    ensures |r| == |rooms|
    ensures forall i :: 0 <= i < |rooms| ==>
      r[i].unreadCount == (if EmployerIs(rooms[i], sender) then 0 else rooms[i].unreadCount)
    ensures forall i :: 0 <= i < |rooms| ==> r[i].(unreadCount := rooms[i].unreadCount) == rooms[i]
  {
    seq(|rooms|, i requires 0 <= i < |rooms| => Reset(rooms[i], sender))
  }

  /** The client-wide counts after `handleMessagesRead`. */
  function CountsAfterRead(rooms: seq<Room>, counts: Counts, sender: string): Counts {
    if LastMatching(rooms, sender).Some? then counts[sender := 0] else counts
  }

  /** Applying the same read receipt twice is the same as applying it once. */
  lemma ReadIdempotent(rooms: seq<Room>, counts: Counts, sender: string)
    ensures ResetRooms(ResetRooms(rooms, sender), sender) == ResetRooms(rooms, sender)
    ensures CountsAfterRead(ResetRooms(rooms, sender), CountsAfterRead(rooms, counts, sender), sender)
      == CountsAfterRead(rooms, counts, sender)
  {
    var once := ResetRooms(rooms, sender);
    forall i | 0 <= i < |rooms| ensures EmployerIs(once[i], sender) == EmployerIs(rooms[i], sender) {
      assert once[i].(unreadCount := rooms[i].unreadCount) == rooms[i];
    }
    assert LastMatching(once, sender).Some? == LastMatching(rooms, sender).Some?;
  }

  /** The room-list update of `handleJoinRoom`: rooms with that id drop to 0. */
  function ClearRoom(rooms: seq<Room>, roomId: string): (r: seq<Room>)
    ensures |r| == |rooms|
    ensures forall i :: 0 <= i < |rooms| ==>
      r[i].unreadCount == (if rooms[i].id == roomId then 0 else rooms[i].unreadCount)
    ensures forall i :: 0 <= i < |rooms| ==> r[i].(unreadCount := rooms[i].unreadCount) == rooms[i]
  {
    seq(|rooms|, i requires 0 <= i < |rooms| => if rooms[i].id == roomId then rooms[i].(unreadCount := 0) else rooms[i])
  }

  /** The decimal digits of `n`, as `String(n)` writes them. */
  function Decimal(n: nat): (s: string)
    ensures |s| > 0 && forall k :: 0 <= k < |s| ==> '0' <= s[k] <= '9'
    ensures n < 10 <==> |s| == 1
  {
    if n < 10 then ["0123456789"[n]] else Decimal(n / 10) + ["0123456789"[n % 10]]
  }

  /** The number a string of decimal digits stands for. */
  function DecimalValue(s: string): nat
    requires forall k :: 0 <= k < |s| ==> '0' <= s[k] <= '9'
  {
    if |s| == 0 then 0
    else DecimalValue(s[..|s| - 1]) * 10 + ((s[|s| - 1] as int) - ('0' as int))
  }

  /** Reading the digits back gives the number: the badge shows the count itself. */
  lemma {:induction false} DecimalRoundTrip(n: nat)
    ensures DecimalValue(Decimal(n)) == n
  {
    if n >= 10 {
      var s := Decimal(n);
      assert s[..|s| - 1] == Decimal(n / 10);
      DecimalRoundTrip(n / 10);
    }
  }

  /** The unread badge of a room: none at 0, "99+" above 99, else the count. */
  function Badge(count: nat): (r: Option<string>)
    ensures r.Some? <==> count > 0
    ensures count > 99 ==> r == Some("99+")
    ensures 0 < count <= 99 ==> |r.value| <= 2 && forall k :: 0 <= k < |r.value| ==> '0' <= r.value[k] <= '9'
    ensures 0 < count <= 99 ==> DecimalValue(r.value) == count
  {
    if count == 0 then None
    else if count > 99 then Some("99+")
    else
      DecimalRoundTrip(count);
      assert count >= 10 ==> count / 10 < 10;
      Some(Decimal(count))
  }

  /** The rooms dialog of a freelancer. */
  class RoomsDialog {
    var rooms: seq<Room>
    var counts: Counts
    var activePartner: Option<Employer>
    var chatOpen: bool

    constructor (counts0: Counts)
      ensures rooms == [] && counts == counts0 && activePartner.None? && !chatOpen
    {
      rooms := [];
      counts := counts0;
      activePartner := None;
      chatOpen := false;
    }

    /**
     * `loadRooms`: when the dialog is open for a freelancer and the fetch
     * succeeds, the list becomes the processed fetched rooms.
     */
    method LoadRooms(isOpen: bool, freelancerId: string, fetched: Option<seq<RoomData>>)
      modifies this`rooms
      ensures isOpen && freelancerId != "" && fetched.Some? ==> rooms == ProcessRooms(fetched.value, counts)
      ensures !(isOpen && freelancerId != "" && fetched.Some?) ==> rooms == old(rooms)
    {
      if isOpen && freelancerId != "" && fetched.Some? {
        rooms := ProcessRooms(fetched.value, counts);
      }
    }

    /**
     * `handleReceiveMessage`, registered only with a socket and a signed-in
     * freelancer: for a message addressed to the freelancer, walk the rooms;
     * each room of the sender gains one unread message and writes its new
     * count into the client-wide table.
     */
    method ReceiveMessage(freelancerId: string, message: ChatView.Message)
      modifies this`rooms, this`counts
      ensures freelancerId != "" && message.receiverId == freelancerId ==>
        rooms == BumpRooms(old(rooms), message.senderId) &&
        counts == CountsAfterReceive(old(rooms), old(counts), message.senderId)
      ensures freelancerId == "" || message.receiverId != freelancerId ==> rooms == old(rooms) && counts == old(counts)
    {
      if freelancerId == "" || message.receiverId != freelancerId {
        return;
      }
      var sender := message.senderId;
      var prev := rooms;
      var next: seq<Room> := [];
      var i := 0;
      while i < |prev|
        invariant 0 <= i <= |prev|
        invariant next == BumpRooms(prev[..i], sender)
        invariant counts == CountsAfterReceive(prev[..i], old(counts), sender)
      {
        var room := prev[i];
        assert prev[..i + 1] == prev[..i] + [room];
        ReceiveStep(prev[..i], room, counts, old(counts), sender);
        if EmployerIs(room, sender) {
          var newCount := room.unreadCount + 1;
          counts := counts[sender := newCount];
          next := next + [room.(unreadCount := newCount)];
        } else {
          next := next + [room];
        }
        i := i + 1;
      }
      assert prev[..i] == prev;
      rooms := next;
    }

    /**
     * `handleMessagesRead`, registered only with a socket and a signed-in
     * freelancer: a receipt addressed to the freelancer clears the sender's
     * rooms and, when the sender has a room, the sender's client-wide
     * count.
     */
    method MessagesRead(freelancerId: string, data: ChatView.ReadPayload)
      modifies this`rooms, this`counts
      ensures freelancerId != "" && data.receiverId == freelancerId ==>
        rooms == ResetRooms(old(rooms), data.senderId) &&
        counts == CountsAfterRead(old(rooms), old(counts), data.senderId)
      ensures freelancerId == "" || data.receiverId != freelancerId ==> rooms == old(rooms) && counts == old(counts)
    {
      if freelancerId != "" && data.receiverId == freelancerId {
        counts := CountsAfterRead(rooms, counts, data.senderId);
        rooms := ResetRooms(rooms, data.senderId);
      }
    }

    /**
     * `handleJoinRoom`: with a socket and a room id, open the chat with the
     * room's employer, clear that room's badge and the employer's client-wide
     * count.
     */
    method JoinRoom(socketReady: bool, room: Room)
      modifies this
      ensures socketReady && room.id != "" ==>
        rooms == ClearRoom(old(rooms), room.id) &&
        counts == (if EmployerKey(room.employer) != "" then old(counts)[EmployerKey(room.employer) := 0] else old(counts)) &&
        activePartner == room.employer && chatOpen
      ensures !(socketReady && room.id != "") ==>
        rooms == old(rooms) && counts == old(counts) &&
        activePartner == old(activePartner) && chatOpen == old(chatOpen)
    {
      if socketReady && room.id != "" {
        activePartner := room.employer;
        chatOpen := true;
        rooms := ClearRoom(rooms, room.id);
        var employerId := EmployerKey(room.employer);
        if employerId != "" {
          counts := counts[employerId := 0];
        }
      }
    }
  }
}
