/**
 * The chat service: a room id that does not depend on the order of the two user ids, and the
 * insert-if-absent of the room record.
 */
module ChatService {
  import opened Wrappers
  import opened Types
  import opened Seqs
  import opened Text
  import opened AuthContext

  /** `[uid1, uid2].sort().join('_')`: the smaller id in UTF-16 code unit order, `_`, the larger. */
  function RoomId(a: Id, b: Id): (r: string)
    ensures !Less(b, a) ==> r == a + "_" + b
    ensures Less(b, a) ==> r == b + "_" + a
  {
    if Less(b, a) then b + "_" + a else a + "_" + b
  }

  /** Both users compute the same room id. */
  lemma RoomIdSymmetric(a: Id, b: Id)
    ensures RoomId(a, b) == RoomId(b, a)
  {
    LessTotal(a, b);
  }

  /** How many rooms carry `id`. */
  function RoomsWithId(rooms: seq<Room>, id: Id): (n: nat)
    ensures n <= |rooms|
    ensures n == 0 <==> forall i :: 0 <= i < |rooms| ==> rooms[i].id != id
  {
    if rooms == [] then 0
    else RoomsWithId(rooms[..|rooms| - 1], id) + (if rooms[|rooms| - 1].id == id then 1 else 0)
  }

  /** The record `ensureChatRoomExists` creates. */
  function NewRoom(myId: Id, theirId: Id, now: int): Room
  {
    Room(RoomId(myId, theirId), [myId, theirId], now, "", now)
  }

  /** `ensureChatRoomExists`: the rooms afterwards and the room returned. */
  function Ensured(rooms: seq<Room>, myId: Id, theirId: Id, now: int): (r: (seq<Room>, Room))
    ensures r.1.id == RoomId(myId, theirId)
    ensures RoomsWithId(rooms, RoomId(myId, theirId)) > 0 ==>
      r.0 == rooms && exists k :: 0 <= k < |rooms| && rooms[k] == r.1 && forall j :: 0 <= j < k ==> rooms[j].id != r.1.id
    ensures RoomsWithId(rooms, RoomId(myId, theirId)) == 0 ==>
      r.0 == rooms + [r.1] && r.1.participants == [myId, theirId] && r.1.lastMessage == ""
  {
    var id := RoomId(myId, theirId);
    match FindFirst(rooms, (room: Room) => room.id == id)
    case Some(k) => (rooms, rooms[k])
    case None => (rooms + [NewRoom(myId, theirId, now)], NewRoom(myId, theirId, now))
  }

  /** With at most one room of that id before, there is exactly one after. */
  lemma EnsuredLeavesOne(rooms: seq<Room>, myId: Id, theirId: Id, now: int)
    requires RoomsWithId(rooms, RoomId(myId, theirId)) <= 1
    ensures RoomsWithId(Ensured(rooms, myId, theirId, now).0, RoomId(myId, theirId)) == 1
  {
    var after := Ensured(rooms, myId, theirId, now).0;
    if RoomsWithId(rooms, RoomId(myId, theirId)) == 0 {
      assert after[..|after| - 1] == rooms;
    }
  }

  /** Two calls for the same pair, in either order, leave exactly one room with the pair's id. */
  lemma EnsureTwiceOneRoom(rooms: seq<Room>, a: Id, b: Id, now1: int, now2: int, swapped: bool)
    requires RoomsWithId(rooms, RoomId(a, b)) <= 1
    ensures var once := Ensured(rooms, a, b, now1).0;
      var twice := if swapped then Ensured(once, b, a, now2).0 else Ensured(once, a, b, now2).0;
      RoomsWithId(twice, RoomId(a, b)) == 1 && twice == once
  {
    RoomIdSymmetric(a, b);
    EnsuredLeavesOne(rooms, a, b, now1);
  }

  /** `ensureChatRoomExists` on the store. */
  method EnsureChatRoomExists(store: Store, myId: Id, theirId: Id, now: int) returns (room: Room)
    modifies store
    ensures room == Ensured(old(store.rooms), myId, theirId, now).1
    ensures store.Snapshot() == old(store.Snapshot()).(rooms := Ensured(old(store.rooms), myId, theirId, now).0)
  {
    var roomId := RoomId(myId, theirId);
    var existing := FindFirst(store.rooms, (r: Room) => r.id == roomId);
    if existing.None? {
      var created := Room(roomId, [myId, theirId], now, "", now);
      store.rooms := store.rooms + [created];
      return created;
    }
    room := store.rooms[existing.value];
  }
}
