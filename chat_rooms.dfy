/** The connection manager of the chat socket (`ConnectionManager`, app/api/v1/websockets/chat.py):
    one socket per user, booking rooms listing the users who joined them, personal sends and
    room broadcasts. A socket is an abstract handle; sending on it fails exactly when it is in
    the `dead` set the caller passes, and every successful send is recorded in `outbox`. */
module ChatRooms {
  import opened Common
  import opened ChatSchemas

  /** An open socket connection. */
  type Socket = nat

  /** One entry of `booking_rooms`: a booking id and the users in its room, in joining order.
      The dictionary's entries are kept in insertion order, as Python keeps them. */
  datatype Room = Room(bookingId: string, members: seq<string>)

  /** A frame sent to a user on the socket that was theirs at the time. */
  datatype Delivery = Delivery(userId: string, socket: Socket, frame: WebSocketMessage)

  /** What the manager itself keeps true: one entry per booking, no empty room, nobody twice
      in a room. */
  predicate RoomsValid(rooms: seq<Room>) {
    && (forall i, j | 0 <= i < j < |rooms| :: rooms[i].bookingId != rooms[j].bookingId)
    && (forall i | 0 <= i < |rooms| :: rooms[i].members != [] && Distinct(rooms[i].members))
  }

  function ForBooking(bookingId: string): Room -> bool {
    (r: Room) => r.bookingId == bookingId
  }

  /** `booking_rooms.get(booking_id, [])`. */
  function MembersOf(rooms: seq<Room>, bookingId: string): seq<string> {
    var i := IndexWhere(rooms, ForBooking(bookingId));
    if i.Some? then rooms[i.value].members else []
  }

  /** The user is listed in the room of that booking. */
  predicate InRoom(rooms: seq<Room>, bookingId: string, userId: string) {
    exists k | 0 <= k < |rooms| :: rooms[k].bookingId == bookingId && userId in rooms[k].members
  }

  lemma InRoomIsMember(rooms: seq<Room>, bookingId: string, userId: string)
    requires RoomsValid(rooms)
    ensures InRoom(rooms, bookingId, userId) <==> userId in MembersOf(rooms, bookingId)
    ensures Distinct(MembersOf(rooms, bookingId))
  {
    var i := IndexWhere(rooms, ForBooking(bookingId));
    if InRoom(rooms, bookingId, userId) {
      var k :| 0 <= k < |rooms| && rooms[k].bookingId == bookingId && userId in rooms[k].members;
      assert i.Some? && i.value == k;
    }
  }

  lemma InRoomConcat(a: seq<Room>, b: seq<Room>)
    ensures forall bookingId, userId :: InRoom(a + b, bookingId, userId) <==> InRoom(a, bookingId, userId) || InRoom(b, bookingId, userId)
  {
    forall bookingId, userId
      ensures InRoom(a + b, bookingId, userId) <==> InRoom(a, bookingId, userId) || InRoom(b, bookingId, userId)
    {
      if InRoom(a + b, bookingId, userId) {
        var k :| 0 <= k < |a + b| && (a + b)[k].bookingId == bookingId && userId in (a + b)[k].members;
        if k >= |a| { assert (a + b)[k] == b[k - |a|]; } else { assert (a + b)[k] == a[k]; }
      }
      if InRoom(a, bookingId, userId) {
        var k :| 0 <= k < |a| && a[k].bookingId == bookingId && userId in a[k].members;
        assert (a + b)[k] == a[k];
      }
      if InRoom(b, bookingId, userId) {
        var k :| 0 <= k < |b| && b[k].bookingId == bookingId && userId in b[k].members;
        assert (a + b)[|a| + k] == b[k];
      }
    }
  }

  /** `list.remove`: drops the first occurrence, if any. */
  function RemoveFirst(s: seq<string>, x: string): seq<string> {
    if s == [] then []
    else if s[0] == x then s[1..]
    else [s[0]] + RemoveFirst(s[1..], x)
  }

  /** Removing an absent user changes nothing; otherwise exactly one entry goes, nobody else
      disappears, and from a list without repeats the user is then gone entirely. */
  lemma {:induction false} RemoveFirstSpec(s: seq<string>, x: string)
    ensures var r := RemoveFirst(s, x);
      && (x !in s ==> r == s)
      && (x in s ==> |r| == |s| - 1)
      && |r| <= |s|
      && (forall y | y in r :: y in s)
      && (forall y | y in s && y != x :: y in r)
      && (Distinct(s) ==> Distinct(r) && x !in r)
  {
    if s != [] {
      assert s == [s[0]] + s[1..];
      if s[0] == x {
        assert Distinct(s) ==> x !in s[1..];
      } else {
        var t := RemoveFirst(s[1..], x);
        RemoveFirstSpec(s[1..], x);
        assert RemoveFirst(s, x) == [s[0]] + t;
        if Distinct(s) {
          assert s[0] !in s[1..] && Distinct(s[1..]);
        }
      }
    }
  }

  lemma RemoveFirstOfAppended(s: seq<string>, x: string)
    requires x !in s
    ensures RemoveFirst(s + [x], x) == s
    decreases |s|
  {
    if s == [] {
      assert s + [x] == [x];
    } else {
      var t := s + [x];
      assert t[1..] == s[1..] + [x] && t[0] == s[0] != x;
      calc {
        RemoveFirst(t, x);
        [s[0]] + RemoveFirst(t[1..], x);
        { RemoveFirstOfAppended(s[1..], x); }
        [s[0]] + s[1..];
        s;
      }
    }
  }

  // ---------------------------------------------------------------------------------------------
  // Joining and leaving a room.

  /** `join_booking_room`: creates the room on first join and appends the user unless present. */
  function Joined(rooms: seq<Room>, bookingId: string, userId: string): seq<Room> {
    var i := IndexWhere(rooms, ForBooking(bookingId));
    if i.None? then rooms + [Room(bookingId, [userId])]
    else if userId in rooms[i.value].members then rooms
    else rooms[i.value := Room(bookingId, rooms[i.value].members + [userId])]
  }

  /** Joining puts the user at the end of that room unless already there, changes no other
      membership, keeps the manager valid, and joining twice is joining once. */
  lemma JoinedSpec(rooms: seq<Room>, bookingId: string, userId: string)
    requires RoomsValid(rooms)
    ensures var j := Joined(rooms, bookingId, userId);
      && RoomsValid(j)
      && InRoom(j, bookingId, userId)
      && MembersOf(j, bookingId)
           == (if userId in MembersOf(rooms, bookingId) then MembersOf(rooms, bookingId) else MembersOf(rooms, bookingId) + [userId])
      && (forall b, v | b != bookingId || v != userId :: InRoom(j, b, v) <==> InRoom(rooms, b, v))
      && Joined(j, bookingId, userId) == j
  {
    var i := IndexWhere(rooms, ForBooking(bookingId));
    var j := Joined(rooms, bookingId, userId);
    if i.None? {
      InRoomConcat(rooms, [Room(bookingId, [userId])]);
      assert j[|rooms|] == Room(bookingId, [userId]);
      IndexWhereAt(j, ForBooking(bookingId), |rooms|);
    } else if userId !in rooms[i.value].members {
      var k := i.value;
      IndexWhereAt(j, ForBooking(bookingId), k);
      JoinedExistingRoom(rooms, k, bookingId, userId);
    }
  }

  /** Appending a new member to an existing room keeps the manager valid and changes no other
      membership. */
  lemma JoinedExistingRoom(rooms: seq<Room>, k: nat, bookingId: string, userId: string)
    requires RoomsValid(rooms)
    requires k < |rooms| && rooms[k].bookingId == bookingId && userId !in rooms[k].members
    ensures var j := rooms[k := Room(bookingId, rooms[k].members + [userId])];
      && RoomsValid(j)
      && userId in j[k].members
      && (forall b, v | b != bookingId || v != userId :: InRoom(j, b, v) <==> InRoom(rooms, b, v))
  {
    var j := rooms[k := Room(bookingId, rooms[k].members + [userId])];
    assert Distinct(rooms[k].members + [userId]) by {
      var m := rooms[k].members + [userId];
      forall a, c | 0 <= a < c < |m| ensures m[a] != m[c] {
        if c == |m| - 1 { assert m[a] in rooms[k].members; }
      }
    }
    forall b, v | b != bookingId || v != userId ensures InRoom(j, b, v) <==> InRoom(rooms, b, v) {
      if InRoom(j, b, v) {
        var t :| 0 <= t < |j| && j[t].bookingId == b && v in j[t].members;
        if t == k { assert v in rooms[k].members; }
      }
      if InRoom(rooms, b, v) {
        var t :| 0 <= t < |rooms| && rooms[t].bookingId == b && v in rooms[t].members;
        assert v in j[t].members;
      }
    }
    assert userId in j[k].members;
  }

  /** `leave_booking_room`: removes the user from that room, and the room once it is empty. */
  function Left(rooms: seq<Room>, bookingId: string, userId: string): seq<Room> {
    var i := IndexWhere(rooms, ForBooking(bookingId));
    if i.None? || userId !in rooms[i.value].members then rooms
    else
      var rest := RemoveFirst(rooms[i.value].members, userId);
      if rest == [] then RemoveAt(rooms, i.value) else rooms[i.value := Room(bookingId, rest)]
  }

  /** Leaving takes the user out of that room, changes no other membership and keeps the
      manager valid. */
  lemma LeftSpec(rooms: seq<Room>, bookingId: string, userId: string)
    requires RoomsValid(rooms)
    ensures var l := Left(rooms, bookingId, userId);
      && RoomsValid(l)
      && !InRoom(l, bookingId, userId)
      && (forall b, v | b != bookingId || v != userId :: InRoom(l, b, v) <==> InRoom(rooms, b, v))
  {
    var i := IndexWhere(rooms, ForBooking(bookingId));
    var l := Left(rooms, bookingId, userId);
    if i.Some? && userId in rooms[i.value].members {
      var k := i.value;
      var rest := RemoveFirst(rooms[k].members, userId);
      RemoveFirstSpec(rooms[k].members, userId);
      forall b, v | b != bookingId || v != userId ensures InRoom(l, b, v) <==> InRoom(rooms, b, v) {
        if InRoom(l, b, v) {
          var t :| 0 <= t < |l| && l[t].bookingId == b && v in l[t].members;
          if rest == [] {
            if t >= k { assert l[t] == rooms[t + 1]; } else { assert l[t] == rooms[t]; }
          }
        }
        if InRoom(rooms, b, v) {
          var t :| 0 <= t < |rooms| && rooms[t].bookingId == b && v in rooms[t].members;
          if rest == [] {
            if t > k { assert l[t - 1] == rooms[t]; } else if t < k { assert l[t] == rooms[t]; }
          } else {
            assert v in l[t].members;
          }
        }
      }
    }
  }

  /** Leaving a room one has just joined restores the rooms exactly. */
  lemma JoinThenLeave(rooms: seq<Room>, bookingId: string, userId: string)
    requires RoomsValid(rooms)
    requires !InRoom(rooms, bookingId, userId)
    ensures Left(Joined(rooms, bookingId, userId), bookingId, userId) == rooms
  {
    var i := IndexWhere(rooms, ForBooking(bookingId));
    var j := Joined(rooms, bookingId, userId);
    if i.None? {
      IndexWhereAt(j, ForBooking(bookingId), |rooms|);
      assert RemoveAt(j, |rooms|) == rooms;
    } else {
      var k := i.value;
      assert userId !in rooms[k].members;
      IndexWhereAt(j, ForBooking(bookingId), k);
      RemoveFirstOfAppended(rooms[k].members, userId);
      assert j[k := Room(bookingId, rooms[k].members)] == rooms;
    }
  }

  // ---------------------------------------------------------------------------------------------
  // Leaving every room when the connection ends.

  /** One room after its member `userId` disconnected: without the user, and gone if that
      emptied it. */
  function Cleaned(r: Room, userId: string): seq<Room> {
    if userId !in r.members then [r]
    else
      var rest := RemoveFirst(r.members, userId);
      if rest == [] then [] else [Room(r.bookingId, rest)]
  }

  /** The rooms after `disconnect` with every room visited: the user removed from each room and
      the rooms this emptied deleted. */
  function Purged(rooms: seq<Room>, userId: string): (r: seq<Room>)
    ensures |r| <= |rooms|
    decreases |rooms|
  {
    if rooms == [] then []
    else Purged(rooms[..|rooms| - 1], userId) + Cleaned(rooms[|rooms| - 1], userId)
  }

  lemma PurgedSnoc(rooms: seq<Room>, i: nat, userId: string)
    requires i < |rooms|
    ensures Purged(rooms[..i + 1], userId) == Purged(rooms[..i], userId) + Cleaned(rooms[i], userId)
  {
    assert rooms[..i + 1][..i] == rooms[..i];
  }

  /** Cleaning one valid room keeps it valid and under its booking, takes the user out of it
      and keeps everybody else in it. */
  lemma CleanedSpec(r: Room, userId: string)
    requires r.members != [] && Distinct(r.members)
    ensures var c := Cleaned(r, userId);
      && |c| <= 1
      && RoomsValid(c)
      && (forall k | 0 <= k < |c| :: c[k].bookingId == r.bookingId)
      && (forall b :: !InRoom(c, b, userId))
      && (forall b, v | v != userId :: InRoom(c, b, v) <==> InRoom([r], b, v))
  {
    var c := Cleaned(r, userId);
    RemoveFirstSpec(r.members, userId);
    forall b, v | v != userId ensures InRoom(c, b, v) <==> InRoom([r], b, v) {
      if InRoom([r], b, v) {
        assert [r][0] == r;
        assert c[0].bookingId == b && v in c[0].members;
      }
      if InRoom(c, b, v) {
        assert [r][0] == r;
      }
    }
  }

  /** After disconnecting, the user is in no room, everybody else is in the same rooms as
      before, and the manager is still valid. */
  lemma {:induction false} PurgedSpec(rooms: seq<Room>, userId: string)
    requires RoomsValid(rooms)
    ensures var p := Purged(rooms, userId);
      && RoomsValid(p)
      && BookingsAmong(p, rooms)
      && (forall b :: !InRoom(p, b, userId))
      && (forall b, v | v != userId :: InRoom(p, b, v) <==> InRoom(rooms, b, v))
    decreases |rooms|
  {
    if rooms != [] {
      var n := |rooms| - 1;
      var init := rooms[..n];
      var r := rooms[n];
      assert RoomsValid(init) by {
        forall i | 0 <= i < |init| ensures init[i] == rooms[i] { }
      }
      PurgedSpec(init, userId);
      CleanedSpec(r, userId);
      var pi := Purged(init, userId);
      var c := Cleaned(r, userId);
      PurgedStepValid(rooms, pi, c);
      assert rooms == init + [r];
      PurgedStepMembers(init, r, pi, c, userId);
    }
  }

  /** The inductive step of `PurgedSpec` for membership. */
  lemma PurgedStepMembers(init: seq<Room>, r: Room, pi: seq<Room>, c: seq<Room>, userId: string)
    requires forall b :: !InRoom(pi, b, userId)
    requires forall b :: !InRoom(c, b, userId)
    requires forall b, v | v != userId :: InRoom(pi, b, v) <==> InRoom(init, b, v)
    requires forall b, v | v != userId :: InRoom(c, b, v) <==> InRoom([r], b, v)
    ensures forall b :: !InRoom(pi + c, b, userId)
    ensures forall b, v | v != userId :: InRoom(pi + c, b, v) <==> InRoom(init + [r], b, v)
  {
    InRoomConcat(pi, c);
    InRoomConcat(init, [r]);
  }

  /** Every room of `p` belongs to the booking of some room of `rooms`. */
  predicate BookingsAmong(p: seq<Room>, rooms: seq<Room>) {
    forall k | 0 <= k < |p| :: exists t | 0 <= t < |rooms| :: p[k].bookingId == rooms[t].bookingId
  }

  /** The inductive step of `PurgedSpec` for validity: the cleaned room of the last booking
      clashes with none of the earlier ones. */
  lemma PurgedStepValid(rooms: seq<Room>, pi: seq<Room>, c: seq<Room>)
    requires rooms != [] && RoomsValid(rooms)
    requires RoomsValid(pi) && RoomsValid(c)
    requires BookingsAmong(pi, rooms[..|rooms| - 1])
    requires forall k | 0 <= k < |c| :: c[k].bookingId == rooms[|rooms| - 1].bookingId
    requires |c| <= 1
    ensures RoomsValid(pi + c)
    ensures BookingsAmong(pi + c, rooms)
  {
    var p := pi + c;
    var n := |rooms| - 1;
    var init := rooms[..n];
    forall i, j | 0 <= i < j < |p| ensures p[i].bookingId != p[j].bookingId {
      if j >= |pi| {
        assert p[j] == c[j - |pi|];
        var t :| 0 <= t < n && pi[i].bookingId == init[t].bookingId;
        assert init[t] == rooms[t];
      }
    }
    forall i | 0 <= i < |p| ensures p[i].members != [] && Distinct(p[i].members) {
      if i >= |pi| { assert p[i] == c[i - |pi|]; }
    }
    forall k | 0 <= k < |p| ensures exists t | 0 <= t < |rooms| :: p[k].bookingId == rooms[t].bookingId {
      if k < |pi| {
        var t :| 0 <= t < n && pi[k].bookingId == init[t].bookingId;
        assert p[k] == pi[k] && init[t] == rooms[t];
      } else {
        assert p[k] == c[k - |pi|];
        assert p[k].bookingId == rooms[n].bookingId;
      }
    }
  }

  /** The rooms after `disconnect` as written. It deletes an emptied room from `booking_rooms`
      while iterating over it, so the next step of the iteration raises: the rooms after the
      first emptied one are never visited, and the call ends with an exception (`raised`). */
  function PartialCleanup(rooms: seq<Room>, userId: string): (r: (seq<Room>, bool))
    ensures !r.1 ==> |r.0| == |rooms| && forall k | 0 <= k < |rooms| :: r.0[k] == Room(rooms[k].bookingId, RemoveFirst(rooms[k].members, userId))
    decreases |rooms|
  {
    if rooms == [] then ([], false)
    else
      var head := rooms[0];
      var tail := PartialCleanup(rooms[1..], userId);
      if userId in head.members then
        var rest := RemoveFirst(head.members, userId);
        if rest == [] then (rooms[1..], true)
        else
          var r := ([Room(head.bookingId, rest)] + tail.0, tail.1);
          assert !r.1 ==> forall k | 1 <= k < |rooms| :: r.0[k] == tail.0[k - 1];
          r
      else
        RemoveFirstSpec(head.members, userId);
        var r := ([head] + tail.0, tail.1);
        assert !r.1 ==> forall k | 1 <= k < |rooms| :: r.0[k] == tail.0[k - 1];
        r
  }

  /** The as-written `disconnect` leaves the user behind: a user in two rooms alone is still
      listed in the second once the first has been emptied, whereas visiting every room
      leaves no room at all. */
  lemma DisconnectLeavesUserBehind()
    ensures var rooms := [Room("b1", ["u"]), Room("b2", ["u"])];
      && RoomsValid(rooms)
      && PartialCleanup(rooms, "u") == ([Room("b2", ["u"])], true)
      && InRoom(PartialCleanup(rooms, "u").0, "b2", "u")
      && Purged(rooms, "u") == []
  {
    var rooms := [Room("b1", ["u"]), Room("b2", ["u"])];
    assert rooms[1..] == [Room("b2", ["u"])];
    assert rooms[..1] == [Room("b1", ["u"])];
    assert [Room("b2", ["u"])][0].members == ["u"];
    assert RemoveFirst(["u"], "u") == [] by { assert ["u"][1..] == []; }
    assert Purged(rooms[..1], "u") == [] by {
      assert rooms[..1][..0] == [];
    }
  }

  // ---------------------------------------------------------------------------------------------
  // Broadcasting.

  /** The members a broadcast reaches, in room order: not the excluded user, connected, and
      the send on their socket succeeds. */
  function Recipients(members: seq<string>, active: map<string, Socket>, exclude: string, dead: set<Socket>): seq<string>
    decreases |members|
  {
    if members == [] then []
    else
      var m := members[|members| - 1];
      Recipients(members[..|members| - 1], active, exclude, dead)
        + (if m != exclude && m in active && active[m] !in dead then [m] else [])
  }

  /** The members whose send fails, in room order; each is then disconnected. */
  function Dropped(members: seq<string>, active: map<string, Socket>, exclude: string, dead: set<Socket>): seq<string>
    decreases |members|
  {
    if members == [] then []
    else
      var m := members[|members| - 1];
      Dropped(members[..|members| - 1], active, exclude, dead)
        + (if m != exclude && m in active && active[m] in dead then [m] else [])
  }

  /** Recipients are connected, not excluded, and members of the room; dropped members are
      connected through a dead socket. */
  lemma {:induction false} RecipientsAndDropped(members: seq<string>, active: map<string, Socket>, exclude: string, dead: set<Socket>)
    ensures forall k | 0 <= k < |Recipients(members, active, exclude, dead)| ::
      var m := Recipients(members, active, exclude, dead)[k];
      m in members && m != exclude && m in active && active[m] !in dead
    ensures forall k | 0 <= k < |Dropped(members, active, exclude, dead)| ::
      var m := Dropped(members, active, exclude, dead)[k];
      m in members && m != exclude && m in active && active[m] in dead
    decreases |members|
  {
    if members != [] {
      RecipientsAndDropped(members[..|members| - 1], active, exclude, dead);
      assert forall x | x in members[..|members| - 1] :: x in members;
    }
  }

  function DeliveriesTo(users: seq<string>, active: map<string, Socket>, frame: WebSocketMessage): (r: seq<Delivery>)
    requires forall i | 0 <= i < |users| :: users[i] in active
    ensures |r| == |users|
    ensures forall i | 0 <= i < |users| :: r[i] == Delivery(users[i], active[users[i]], frame)
  {
    seq(|users|, i requires 0 <= i < |users| => Delivery(users[i], active[users[i]], frame))
  }

  /** The connections left once each of the users has been disconnected. */
  function WithoutAll(active: map<string, Socket>, users: seq<string>): (r: map<string, Socket>)
    decreases |users|
  {
    if users == [] then active else WithoutAll(active, users[..|users| - 1]) - {users[|users| - 1]}
  }

  /** Exactly the listed users lose their connection; the others keep their socket. */
  lemma {:induction false} WithoutAllSpec(active: map<string, Socket>, users: seq<string>, u: string)
    ensures u in WithoutAll(active, users) <==> u in active && u !in users
    ensures u in WithoutAll(active, users) ==> WithoutAll(active, users)[u] == active[u]
    decreases |users|
  {
    if users != [] {
      WithoutAllSpec(active, users[..|users| - 1], u);
      assert users == users[..|users| - 1] + [users[|users| - 1]];
    }
  }

  lemma WithoutAllSnoc(active: map<string, Socket>, users: seq<string>, m: string)
    ensures WithoutAll(active, users + [m]) == WithoutAll(active, users) - {m}
  {
    assert (users + [m])[..|users|] == users;
  }

  lemma DeliveriesSnoc(users: seq<string>, active: map<string, Socket>, frame: WebSocketMessage, m: string)
    requires forall i | 0 <= i < |users| :: users[i] in active
    requires m in active
    ensures DeliveriesTo(users + [m], active, frame) == DeliveriesTo(users, active, frame) + [Delivery(m, active[m], frame)]
  {
  }

  /** The whole state of the manager: the frames sent so far, the connections and the rooms. */
  datatype Hub = Hub(outbox: seq<Delivery>, active: map<string, Socket>, rooms: seq<Room>)

  /** `send_personal_message`: a connected user is sent the frame on their socket, or is
      disconnected when that send fails; a user without a connection is not sent anything. */
  function Deliver(st: Hub, userId: string, frame: WebSocketMessage, dead: set<Socket>): Hub {
    if userId !in st.active then st
    else if st.active[userId] in dead then Hub(st.outbox, st.active - {userId}, Purged(st.rooms, userId))
    else Hub(st.outbox + [Delivery(userId, st.active[userId], frame)], st.active, st.rooms)
  }

  /** One member visited by a broadcast: everyone but `exclude` is sent the frame. */
  function Visit(st: Hub, m: string, frame: WebSocketMessage, exclude: string, dead: set<Socket>): Hub {
    if m != exclude then Deliver(st, m, frame, dead) else st
  }

  function VisitAll(st: Hub, members: seq<string>, frame: WebSocketMessage, exclude: string, dead: set<Socket>): Hub
    decreases |members|
  {
    if members == [] then st
    else Visit(VisitAll(st, members[..|members| - 1], frame, exclude, dead), members[|members| - 1], frame, exclude, dead)
  }

  /** `broadcast_to_booking`, visiting the members the room had when the broadcast began. */
  function Broadcast(st: Hub, frame: WebSocketMessage, bookingId: string, exclude: string, dead: set<Socket>): Hub {
    VisitAll(st, MembersOf(st.rooms, bookingId), frame, exclude, dead)
  }

  lemma VisitAllSnoc(st: Hub, members: seq<string>, i: nat, frame: WebSocketMessage, exclude: string, dead: set<Socket>)
    requires i < |members|
    ensures VisitAll(st, members[..i + 1], frame, exclude, dead)
         == Visit(VisitAll(st, members[..i], frame, exclude, dead), members[i], frame, exclude, dead)
  {
    assert members[..i + 1][..i] == members[..i];
  }

  /** Visiting distinct members in turn sends the frame to exactly the recipients, each on the
      socket they had when the broadcast began, and disconnects exactly the dropped members. */
  lemma {:induction false} VisitAllSpec(outbox: seq<Delivery>, active: map<string, Socket>, rooms: seq<Room>, members: seq<string>,
                                        frame: WebSocketMessage, exclude: string, dead: set<Socket>)
    requires Distinct(members)
    ensures forall k | 0 <= k < |Recipients(members, active, exclude, dead)| :: Recipients(members, active, exclude, dead)[k] in active
    ensures var st := VisitAll(Hub(outbox, active, rooms), members, frame, exclude, dead);
      && st.outbox == outbox + DeliveriesTo(Recipients(members, active, exclude, dead), active, frame)
      && st.active == WithoutAll(active, Dropped(members, active, exclude, dead))
      && st.rooms == PurgedAll(rooms, Dropped(members, active, exclude, dead))
    decreases |members|
  {
    RecipientsAndDropped(members, active, exclude, dead);
    if members != [] {
      var n := |members| - 1;
      var init := members[..n];
      var m := members[n];
      assert Distinct(init);
      VisitAllSpec(outbox, active, rooms, init, frame, exclude, dead);
      RecipientsAndDropped(init, active, exclude, dead);
      var reached := Recipients(init, active, exclude, dead);
      var failed := Dropped(init, active, exclude, dead);
      assert m !in init;
      assert m !in failed;
      WithoutAllSpec(active, failed, m);
      assert members[..n] == init;
      if m != exclude && m in active {
        if active[m] in dead {
          assert Dropped(members, active, exclude, dead) == failed + [m];
          PurgedAllSnoc(rooms, failed, m);
          WithoutAllSnoc(active, failed, m);
        } else {
          assert Dropped(members, active, exclude, dead) == failed;
          DeliveriesSnoc(reached, active, frame, m);
        }
      } else {
        assert Dropped(members, active, exclude, dead) == failed;
      }
    }
  }

  /** A broadcast sends the frame to exactly the recipients among the room's members, each on
      the socket they had when it began, disconnects exactly the dropped members, and keeps the
      manager valid. */
  lemma BroadcastSpec(st: Hub, frame: WebSocketMessage, bookingId: string, exclude: string, dead: set<Socket>)
    requires RoomsValid(st.rooms)
    ensures var members := MembersOf(st.rooms, bookingId);
      var reached := Recipients(members, st.active, exclude, dead);
      var failed := Dropped(members, st.active, exclude, dead);
      var r := Broadcast(st, frame, bookingId, exclude, dead);
      && (forall k | 0 <= k < |reached| :: reached[k] in st.active)
      && r.outbox == st.outbox + DeliveriesTo(reached, st.active, frame)
      && r.active == WithoutAll(st.active, failed)
      && r.rooms == PurgedAll(st.rooms, failed)
      && RoomsValid(r.rooms)
  {
    var members := MembersOf(st.rooms, bookingId);
    InRoomIsMember(st.rooms, bookingId, exclude);
    VisitAllSpec(st.outbox, st.active, st.rooms, members, frame, exclude, dead);
    PurgedAllSpec(st.rooms, Dropped(members, st.active, exclude, dead));
  }

  /** A broadcast only appends to the outbox, and only frames to members of that room other
      than `exclude`; it adds nobody to any room and opens no connection. */
  lemma BroadcastOnlyToOthersInRoom(st: Hub, frame: WebSocketMessage, bookingId: string, exclude: string, dead: set<Socket>)
    requires RoomsValid(st.rooms)
    ensures var r := Broadcast(st, frame, bookingId, exclude, dead);
      && |st.outbox| <= |r.outbox| && r.outbox[..|st.outbox|] == st.outbox
      && (forall k | |st.outbox| <= k < |r.outbox| ::
            && r.outbox[k].userId != exclude && r.outbox[k].frame == frame
            && InRoom(st.rooms, bookingId, r.outbox[k].userId))
      && (forall b, v | InRoom(r.rooms, b, v) :: InRoom(st.rooms, b, v))
      && (forall v | v in r.active :: v in st.active && r.active[v] == st.active[v])
  {
    var members := MembersOf(st.rooms, bookingId);
    var failed := Dropped(members, st.active, exclude, dead);
    var r := Broadcast(st, frame, bookingId, exclude, dead);
    BroadcastSpec(st, frame, bookingId, exclude, dead);
    RecipientsAndDropped(members, st.active, exclude, dead);
    PurgedAllSpec(st.rooms, failed);
    forall k | |st.outbox| <= k < |r.outbox|
      ensures r.outbox[k].userId != exclude && r.outbox[k].frame == frame && InRoom(st.rooms, bookingId, r.outbox[k].userId)
    {
      InRoomIsMember(st.rooms, bookingId, r.outbox[k].userId);
    }
    forall v | v in r.active ensures v in st.active && r.active[v] == st.active[v] {
      WithoutAllSpec(st.active, failed, v);
    }
  }

  /** Among distinct members, the recipients are exactly the connected members other than
      `exclude` whose socket is live, each listed once. */
  lemma {:induction false} RecipientsExactly(members: seq<string>, active: map<string, Socket>, exclude: string, dead: set<Socket>)
    requires Distinct(members)
    ensures Distinct(Recipients(members, active, exclude, dead))
    ensures forall m :: m in Recipients(members, active, exclude, dead) <==> m in members && m != exclude && m in active && active[m] !in dead
    decreases |members|
  {
    if members != [] {
      var n := |members| - 1;
      var init := members[..n];
      var x := members[n];
      assert Distinct(init);
      RecipientsExactly(init, active, exclude, dead);
      assert members == init + [x];
      assert x !in init;
    }
  }

  /** A broadcast reaches every other member of the room whose socket is live exactly once, on
      the socket they had when it began, and reaches nobody else. */
  lemma BroadcastReachesEachOnce(st: Hub, frame: WebSocketMessage, bookingId: string, exclude: string, dead: set<Socket>)
    requires RoomsValid(st.rooms)
    ensures var r := Broadcast(st, frame, bookingId, exclude, dead);
      && |st.outbox| <= |r.outbox|
      && (var sent := r.outbox[|st.outbox|..];
          && (forall k | 0 <= k < |sent| ::
                && sent[k].frame == frame && sent[k].userId != exclude
                && InRoom(st.rooms, bookingId, sent[k].userId)
                && sent[k].userId in st.active && sent[k].socket == st.active[sent[k].userId]
                && st.active[sent[k].userId] !in dead)
          && (forall j, k | 0 <= j < k < |sent| :: sent[j].userId != sent[k].userId)
          && (forall m | InRoom(st.rooms, bookingId, m) && m != exclude && m in st.active && st.active[m] !in dead ::
                exists k | 0 <= k < |sent| :: sent[k].userId == m))
  {
    var members := MembersOf(st.rooms, bookingId);
    var reached := Recipients(members, st.active, exclude, dead);
    var r := Broadcast(st, frame, bookingId, exclude, dead);
    BroadcastSpec(st, frame, bookingId, exclude, dead);
    InRoomIsMember(st.rooms, bookingId, exclude);
    RecipientsExactly(members, st.active, exclude, dead);
    var sent := r.outbox[|st.outbox|..];
    assert sent == DeliveriesTo(reached, st.active, frame);
    forall k | 0 <= k < |sent| ensures InRoom(st.rooms, bookingId, sent[k].userId) {
      assert reached[k] in reached;
      InRoomIsMember(st.rooms, bookingId, sent[k].userId);
    }
    forall m | InRoom(st.rooms, bookingId, m) && m != exclude && m in st.active && st.active[m] !in dead
      ensures exists k | 0 <= k < |sent| :: sent[k].userId == m
    {
      InRoomIsMember(st.rooms, bookingId, m);
      var k :| 0 <= k < |reached| && reached[k] == m;
      assert sent[k].userId == m;
    }
  }

  /** A personal send adds nobody to any room, opens no connection and keeps the manager valid. */
  lemma DeliverOnlyRemoves(st: Hub, userId: string, frame: WebSocketMessage, dead: set<Socket>)
    requires RoomsValid(st.rooms)
    ensures var r := Deliver(st, userId, frame, dead);
      && RoomsValid(r.rooms)
      && (forall b, v | InRoom(r.rooms, b, v) :: InRoom(st.rooms, b, v))
      && (forall v | v in r.active :: v in st.active && r.active[v] == st.active[v])
  {
    PurgedSpec(st.rooms, userId);
  }

  /** The rooms after disconnecting each of the users in turn. */
  function PurgedAll(rooms: seq<Room>, users: seq<string>): seq<Room>
    decreases |users|
  {
    if users == [] then rooms else Purged(PurgedAll(rooms, users[..|users| - 1]), users[|users| - 1])
  }

  lemma PurgedAllSnoc(rooms: seq<Room>, users: seq<string>, m: string)
    ensures PurgedAll(rooms, users + [m]) == Purged(PurgedAll(rooms, users), m)
  {
    assert (users + [m])[..|users|] == users;
  }

  lemma {:induction false} PurgedAllSpec(rooms: seq<Room>, users: seq<string>)
    requires RoomsValid(rooms)
    ensures RoomsValid(PurgedAll(rooms, users))
    ensures forall b, u | u in users :: !InRoom(PurgedAll(rooms, users), b, u)
    ensures forall b, v | v !in users :: InRoom(PurgedAll(rooms, users), b, v) <==> InRoom(rooms, b, v)
    decreases |users|
  {
    if users != [] {
      var init := users[..|users| - 1];
      var last := users[|users| - 1];
      PurgedAllSpec(rooms, init);
      PurgedSpec(PurgedAll(rooms, init), last);
      assert users == init + [last];
    }
  }

  /** `broadcast_to_booking` as written iterates over the room's live list. A failed send
      disconnects that member, which removes them from the very list being iterated, so the
      member after them is skipped; an exception of the as-written `disconnect` ends the
      broadcast. The result is the users who receive the frame, in order. */
  function BroadcastAsWritten(rooms: seq<Room>, active: map<string, Socket>, bookingId: string, exclude: string, dead: set<Socket>, i: nat): (r: seq<string>)
    ensures exclude !in r
    ensures forall u | u in r :: u in active && active[u] !in dead
    decreases |MembersOf(rooms, bookingId)| - i
  {
    var members := MembersOf(rooms, bookingId);
    if i >= |members| then []
    else
      var m := members[i];
      if m == exclude || m !in active then BroadcastAsWritten(rooms, active, bookingId, exclude, dead, i + 1)
      else if active[m] !in dead then [m] + BroadcastAsWritten(rooms, active, bookingId, exclude, dead, i + 1)
      else
        var after := PartialCleanup(rooms, m);
        if after.1 then []
        else
          SameBookingsSameMembers(rooms, after.0, bookingId, m);
          RemoveFirstSpec(members, m);
          BroadcastAsWritten(after.0, active - {m}, bookingId, exclude, dead, i + 1)
  }

  lemma SameBookingsSameMembers(rooms: seq<Room>, rooms': seq<Room>, bookingId: string, m: string)
    requires |rooms'| == |rooms|
    requires forall k | 0 <= k < |rooms| :: rooms'[k] == Room(rooms[k].bookingId, RemoveFirst(rooms[k].members, m))
    ensures MembersOf(rooms', bookingId) == RemoveFirst(MembersOf(rooms, bookingId), m)
  {
    var i := IndexWhere(rooms, ForBooking(bookingId));
    var i' := IndexWhere(rooms', ForBooking(bookingId));
    assert forall k | 0 <= k < |rooms| :: rooms'[k].bookingId == rooms[k].bookingId;
    if i.Some? {
      assert i'.Some?;
      assert i'.value == i.value;
    } else {
      assert i'.None?;
      assert RemoveFirst([], m) == [];
    }
  }

  /** The as-written broadcast skips the member after a failed one: of a room of "a", "f"
      and "c", broadcast by "a" while the socket of "f" is dead, nobody receives the frame,
      though "c" is connected; iterating over a copy of the list reaches "c". */
  lemma BroadcastSkipsNextMember()
    ensures var rooms := [Room("b", ["a", "f", "c"])];
      var active := map["a" := 0, "f" := 1, "c" := 2];
      && RoomsValid(rooms)
      && BroadcastAsWritten(rooms, active, "b", "a", {1}, 0) == []
      && Recipients(MembersOf(rooms, "b"), active, "a", {1}) == ["c"]
  {
    var rooms := [Room("b", ["a", "f", "c"])];
    var active := map["a" := 0, "f" := 1, "c" := 2];
    assert IndexWhere(rooms, ForBooking("b")) == Some(0);
    assert MembersOf(rooms, "b") == ["a", "f", "c"];
    assert RemoveFirst(["a", "f", "c"], "f") == ["a", "c"] by {
      assert ["a", "f", "c"][1..] == ["f", "c"];
      assert ["f", "c"][1..] == ["c"];
    }
    assert rooms[1..] == [];
    assert "f" in rooms[0].members;
    assert PartialCleanup([], "f") == ([], false);
    assert PartialCleanup(rooms, "f")
        == ([Room("b", RemoveFirst(rooms[0].members, "f"))] + PartialCleanup(rooms[1..], "f").0, PartialCleanup(rooms[1..], "f").1);
    var after := [Room("b", ["a", "c"])];
    assert rooms[0].members == ["a", "f", "c"];
    assert [Room("b", ["a", "c"])] + [] == after;
    assert PartialCleanup(rooms, "f") == (after, false);
    assert IndexWhere(after, ForBooking("b")) == Some(0);
    assert MembersOf(after, "b") == ["a", "c"];
    var s := ["a", "f", "c"];
    assert s[..2][..1] == ["a"];
    assert s[..2] == ["a", "f"];
    assert ["a"][..0] == [];
    assert Recipients(s[..2], active, "a", {1}) == [];
  }

  // ---------------------------------------------------------------------------------------------
  // The manager.

  class ConnectionManager {
    /** `active_connections`: user id to socket. */
    var active: map<string, Socket>
    /** `booking_rooms`, in insertion order. */
    var rooms: seq<Room>
    /** The frames sent so far. */
    var outbox: seq<Delivery>

    predicate Valid()
      reads this
    {
      RoomsValid(rooms)
    }

    function State(): Hub
      reads this
    {
      Hub(outbox, active, rooms)
    }

    constructor()
      ensures Valid()
      ensures active == map[] && rooms == [] && outbox == []
    {
      active := map[];
      rooms := [];
      outbox := [];
    }

    /** `connect`: the user's socket replaces any earlier one. */
    method Connect(userId: string, socket: Socket)
      modifies this
      ensures active == old(active)[userId := socket]
      ensures rooms == old(rooms) && outbox == old(outbox)
    {
      active := active[userId := socket];
    }

    /** `disconnect`, visiting every room. */
    method Disconnect(userId: string)
      requires Valid()
      modifies this
      ensures Valid()
      ensures active == old(active) - {userId}
      ensures rooms == Purged(old(rooms), userId)
      ensures outbox == old(outbox)
    {
      active := active - {userId};
      ghost var before := rooms;
      var kept: seq<Room> := [];
      var i := 0;
      while i < |rooms|
        invariant 0 <= i <= |rooms| && rooms == before
        invariant kept == Purged(rooms[..i], userId)
        invariant active == old(active) - {userId} && outbox == old(outbox)
      {
        PurgedSnoc(rooms, i, userId);
        var r := rooms[i];
        if userId in r.members {
          var rest := RemoveFirst(r.members, userId);
          if rest != [] {
            kept := kept + [Room(r.bookingId, rest)];
          }
        } else {
          kept := kept + [r];
        }
        i := i + 1;
      }
      assert rooms[..i] == rooms;
      PurgedSpec(rooms, userId);
      rooms := kept;
    }

    /** `join_booking_room`. */
    method JoinBookingRoom(userId: string, bookingId: string)
      requires Valid()
      modifies this
      ensures Valid()
      ensures rooms == Joined(old(rooms), bookingId, userId)
      ensures active == old(active) && outbox == old(outbox)
    {
      var before := rooms;
      var i := IndexWhere(rooms, ForBooking(bookingId));
      if i.None? {
        rooms := rooms + [Room(bookingId, [userId])];
      } else if userId !in rooms[i.value].members {
        rooms := rooms[i.value := Room(bookingId, rooms[i.value].members + [userId])];
      }
      assert rooms == Joined(before, bookingId, userId);
      assert RoomsValid(rooms) by { JoinedSpec(before, bookingId, userId); }
    }

    /** `leave_booking_room`. */
    method LeaveBookingRoom(userId: string, bookingId: string)
      requires Valid()
      modifies this
      ensures Valid()
      ensures rooms == Left(old(rooms), bookingId, userId)
      ensures active == old(active) && outbox == old(outbox)
    {
      LeftSpec(rooms, bookingId, userId);
      var i := IndexWhere(rooms, ForBooking(bookingId));
      if i.Some? && userId in rooms[i.value].members {
        var rest := RemoveFirst(rooms[i.value].members, userId);
        if rest == [] {
          rooms := RemoveAt(rooms, i.value);
        } else {
          rooms := rooms[i.value := Room(bookingId, rest)];
        }
      }
    }

    /** `send_personal_message`: sends to a connected user; a failed send disconnects them. */
    method SendPersonalMessage(frame: WebSocketMessage, userId: string, dead: set<Socket>)
      requires Valid()
      modifies this
      ensures Valid()
      ensures userId !in old(active) ==> active == old(active) && rooms == old(rooms) && outbox == old(outbox)
      ensures userId in old(active) && old(active)[userId] !in dead ==>
        && outbox == old(outbox) + [Delivery(userId, old(active)[userId], frame)]
        && active == old(active) && rooms == old(rooms)
      ensures userId in old(active) && old(active)[userId] in dead ==>
        && outbox == old(outbox)
        && active == old(active) - {userId} && rooms == Purged(old(rooms), userId)
      ensures State() == Deliver(old(State()), userId, frame, dead)
    {
      if userId in active {
        if active[userId] in dead {
          Disconnect(userId);
        } else {
          outbox := outbox + [Delivery(userId, active[userId], frame)];
        }
      }
    }

    /** `broadcast_to_booking`, iterating over the members the room had when the broadcast
        began: every connected member except `exclude` is sent the frame, and every member whose
        send fails is disconnected (`BroadcastSpec` states the outcome in those terms). */
    method BroadcastToBooking(frame: WebSocketMessage, bookingId: string, exclude: string, dead: set<Socket>)
      requires Valid()
      modifies this
      ensures Valid()
      ensures State() == Broadcast(old(State()), frame, bookingId, exclude, dead)
    {
      ghost var start := State();
      var members := MembersOf(rooms, bookingId);
      var i := 0;
      while i < |members|
        invariant 0 <= i <= |members|
        invariant Valid()
        invariant State() == VisitAll(start, members[..i], frame, exclude, dead)
      {
        var m := members[i];
        VisitAllSnoc(start, members, i, frame, exclude, dead);
        if m != exclude {
          SendPersonalMessage(frame, m, dead);
        }
        i := i + 1;
      }
      assert members[..i] == members;
    }
  }
}
