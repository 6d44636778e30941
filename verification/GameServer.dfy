/** The game server's objects, updated in place, each method against the model's step. */
module GameServer {
  import opened Types
  import R = RoomModel
  import G = GameModel
  import SnapshotJson
  import RoomIds

  class Room {
    const number: nat // which room object this is: the source tells objects apart by address
    const id: int32
    var state: R.Phase
    var playerUids: seq<uint32>
    var players: map<uint32, R.Player>
    var currentFrame: R.Frame
    ghost var casts: seq<R.Cast> // what Broadcast has been given so far

    ghost function View(): R.RoomView
      reads this
    {
      R.RoomView(id, state, playerUids, players, currentFrame, casts)
    }

    ghost predicate Valid()
      reads this
    {
      R.WellFormed(View())
    }

    constructor (number: nat, id: int32)
      ensures this.number == number && this.id == id && View() == R.NewRoom(id) && Valid()
    {
      this.number, this.id := number, id;
      state, playerUids, players := R.Idle, [], map[];
      currentFrame, casts := R.Frame(0, 0, map[]), [];
    }

    predicate HasPlayer(uid: uint32)
      reads this
    {
      uid in players
    }

    predicate IsFull()
      reads this
    {
      |playerUids| >= 2
    }

    method AssignGameId() returns (seat: int)
      requires Valid()
      ensures seat == R.AssignGameId(View())
    {
      if playerUids == [] {
        return 1;
      }
      assert playerUids[0] in playerUids;
      if players[playerUids[0]].gameId == 1 {
        return 2;
      }
      return 1;
    }

    method AddPlayer(uid: uint32, nickname: string, characterId: int32)
      requires Valid()
      modifies this
      ensures Valid() && View() == R.AddPlayer(old(View()), uid, nickname, characterId)
    {
      R.ApplyKeepsWellFormed(View(), R.Enroll(uid, nickname, characterId));
      if uid !in players {
        var seat := AssignGameId();
        playerUids := playerUids + [uid];
        players := players[uid := R.Player(uid, nickname, characterId, seat, false)];
      }
    }

    method RemovePlayer(uid: uint32)
      modifies this
      ensures View() == R.RemovePlayer(old(View()), uid)
    {
      players := players - {uid};
      var i := 0;
      while i < |playerUids|
        invariant 0 <= i <= |playerUids| && playerUids == old(playerUids)
        invariant R.RemoveFirst(playerUids, uid) == playerUids[..i] + R.RemoveFirst(playerUids[i..], uid)
      {
        if playerUids[i] == uid {
          playerUids := playerUids[..i] + playerUids[i + 1..];
          break;
        }
        i := i + 1;
      }
    }

    method MarkReady(uid: uint32)
      requires Valid() && HasPlayer(uid)
      modifies this
      ensures Valid() && View() == R.MarkReady(old(View()), uid)
    {
      R.ApplyKeepsWellFormed(View(), R.Ready(uid));
      players := players[uid := players[uid].(ready := true)];
    }

    method PushInput(uid: uint32, raw: seq<byte>)
      requires Valid()
      modifies this
      ensures Valid() && View() == R.PushInput(old(View()), uid, raw)
    {
      R.ApplyKeepsWellFormed(View(), R.Input(uid, raw));
      if state != R.Gaming || uid !in players {
        return;
      }
      var seat := players[uid].gameId;
      if |raw| < 4 {
        return;
      }
      var inputFrameId := BigEndian32(raw);
      if inputFrameId < currentFrame.frameId {
        return;
      }
      if seat !in currentFrame.inputs {
        var action := if |raw| >= 6 then raw[4..6] else [0, 0];
        currentFrame := currentFrame.(inputs := currentFrame.inputs[seat := action]);
      }
    }

    method Broadcast(manager: RoomManager, cast: R.Cast)
      modifies this`casts, manager`wire
      ensures casts == old(casts) + [cast]
      ensures manager.wire == old(manager.wire) + G.Fanout(manager.sessions, playerUids, number, cast)
    {
      casts := casts + [cast];
      manager.SendToPlayers(playerUids, number, cast);
    }

    method Tick(manager: RoomManager)
      requires Valid()
      modifies this, manager`wire
      ensures Valid() && View() == R.Tick(old(View()))
      ensures manager.wire == old(manager.wire) + G.Sends(manager.sessions, number, old(View()), View())
    {
      R.ApplyKeepsWellFormed(View(), R.Ticked);
      if state != R.Gaming {
        return;
      }
      currentFrame := currentFrame.(playerCount := |playerUids|);
      Broadcast(manager, R.FrameUpdate(currentFrame));
      currentFrame := currentFrame.(frameId := Increment32(currentFrame.frameId));
      currentFrame := currentFrame.(inputs := map[]);
    }

    method CheckAllReady() returns (all: bool)
      requires Valid()
      ensures all == R.AllReady(View())
      ensures all <==> |playerUids| >= 2 && forall u | u in playerUids :: u in players && players[u].ready
    {
      if |playerUids| < 2 {
        return false;
      }
      var rest := players.Keys;
      while rest != {}
        invariant rest <= players.Keys
        invariant forall u | u in players && u !in rest :: players[u].ready
        decreases rest
      {
        var u :| u in rest;
        if !players[u].ready {
          return false;
        }
        rest := rest - {u};
      }
      return true;
    }

    method StartGame(manager: RoomManager)
      requires Valid()
      modifies this, manager`wire
      ensures Valid() && View() == R.StartGame(old(View()))
      ensures manager.wire == old(manager.wire) + G.Sends(manager.sessions, number, old(View()), View())
    {
      R.ApplyKeepsWellFormed(View(), R.Begin);
      state := R.Gaming;
      currentFrame := currentFrame.(frameId := 0);
      currentFrame := currentFrame.(inputs := map[]);
      Broadcast(manager, R.GameStart(id));
    }

    method ClearReady()
      modifies this`players
      ensures players == R.ClearReady(old(players))
    {
      var rest := players.Keys;
      while rest != {}
        invariant rest <= players.Keys == old(players).Keys
        invariant forall u | u in players ::
          players[u] == if u in rest then old(players)[u] else old(players)[u].(ready := false)
        decreases rest
      {
        var u :| u in rest;
        players := players[u := players[u].(ready := false)];
        rest := rest - {u};
      }
    }

    method StopGame(manager: RoomManager, winner: uint32)
      requires Valid()
      modifies this, manager`wire
      ensures Valid() && View() == R.StopGame(old(View()), winner)
      ensures manager.wire == old(manager.wire) + G.Sends(manager.sessions, number, old(View()), View())
    {
      R.ApplyKeepsWellFormed(View(), R.Finish(winner));
      state := R.Idle;
      ClearReady();
      Broadcast(manager, R.GameOver(id, winner));
    }

    method BuildSnapshotJson() returns (json: string)
      requires Valid()
      ensures json == R.SnapshotText(View())
    {
      hide SnapshotJson.Entry;
      ghost var rows := R.Rows(playerUids, players);
      json := "[";
      var first, i := true, 0;
      while i < |playerUids|
        invariant 0 <= i <= |playerUids| && first == (i == 0)
        invariant json + SnapshotJson.Items(rows[i..], first) == "[" + SnapshotJson.Items(rows, true)
      {
        assert playerUids[i] in playerUids;
        var p := players[playerUids[i]];
        SnapshotJson.AppendItem(json, rows, i, first);
        json := json + if first then "" else ",";
        json := json + SnapshotJson.Entry(SnapshotJson.Row(p.uid, p.nickname, p.characterId));
        first, i := false, i + 1;
      }
      assert rows[i..] == [];
      SnapshotJson.Nothing(json);
      json := json + "]";
    }
  }

  class RoomManager {
    var rooms: map<int32, Room>
    var uidToRoom: map<uint32, int32>
    var sessions: map<uint32, nat>
    var streams: seq<G.Stream>    // the StreamBattle calls so far
    var wire: seq<G.Delivery>     // every write made to a stream
    var nextRoomId: int32         // the counter of CreateRoom
    var pending: seq<Room>        // what the loop still holds of its snapshot
    var objects: seq<Room>        // every room object ever made, so that they can be numbered

    /** Rooms are known by their numbers, and the tables hold known rooms. */
    ghost predicate Structure()
      reads this
    {
      && (forall i | 0 <= i < |objects| :: objects[i].number == i)
      && (forall id | id in rooms :: Known(rooms[id]))
      && (forall i | 0 <= i < |pending| :: Known(pending[i]))
    }

    ghost predicate Known(r: Room)
      reads this
    {
      r.number < |objects| && objects[r.number] == r
    }

    static ghost function Views(rs: seq<Room>): (vs: seq<R.RoomView>)
      reads rs
      ensures |vs| == |rs| && forall i | 0 <= i < |rs| :: vs[i] == rs[i].View()
    {
      seq(|rs|, i requires 0 <= i < |rs| reads rs => rs[i].View())
    }

    static ghost function Numbers(rs: seq<Room>): (ns: seq<nat>)
      ensures |ns| == |rs| && forall i | 0 <= i < |rs| :: ns[i] == rs[i].number
    {
      seq(|rs|, i requires 0 <= i < |rs| => rs[i].number)
    }

    ghost function View(): G.World
      reads this, objects
    {
      G.World(map id | id in rooms :: rooms[id].number, Views(objects), uidToRoom, sessions, streams, wire,
        nextRoomId, Numbers(pending))
    }

    ghost predicate Valid()
      reads this, objects
    {
      Structure() && G.Inv(View())
    }

    constructor ()
      ensures Valid() && View() == G.Init() && fresh(this)
    {
      rooms, uidToRoom, sessions, streams, wire := map[], map[], map[], [], [];
      nextRoomId, pending, objects := 1000, [], [];
      new;
      assert View() == G.Init();
      G.InitInv();
    }

    method GetOrCreateRoom(id: int32) returns (room: Room)
      requires Structure()
      modifies this`rooms, this`objects
      ensures Structure() && View() == G.GetOrCreate(old(View()), id)
      ensures id in rooms && rooms[id] == room && (room in old(objects) || fresh(room))
      ensures old(objects) <= objects && forall r | r in objects :: r in old(objects) || r == room
    {
      if id in rooms {
        return rooms[id];
      }
      room := new Room(|objects|, id);
      rooms := rooms[id := room];
      objects := objects + [room];
      assert Views(objects) == Views(old(objects)) + [R.NewRoom(id)];
      assert View().rooms == old(View()).rooms[id := room.number];
    }

    method GetRoom(id: int32) returns (room: Room?)
      requires Structure()
      ensures G.GetRoom(View(), id) == if room == null then None else Some(room.number)
      ensures room != null ==>
        Known(room) && room in objects && room.number < |View().objs| && View().objs[room.number] == room.View()
    {
      if id in rooms {
        return rooms[id];
      }
      return null;
    }

    method RemoveRoom(id: int32)
      requires Structure()
      modifies this`rooms
      ensures Structure() && View() == old(View()).(rooms := old(View()).rooms - {id})
    {
      rooms := rooms - {id};
      assert View().rooms == old(View()).rooms - {id};
    }

    method DestroyRoom(id: int32)
      requires Structure()
      modifies this`rooms, this`uidToRoom
      ensures Structure() && View() == G.Destroy(old(View()), id)
    {
      var room := GetRoom(id);
      if room == null {
        return;
      }
      UnmapAll(room.playerUids);
      RemoveRoom(id);
    }

    method UnmapAll(uids: seq<uint32>)
      requires Structure()
      modifies this`uidToRoom
      ensures Structure() && View() == old(View()).(uidToRoom := G.Unmap(old(View()).uidToRoom, uids))
    {
      var i := 0;
      while i < |uids|
        invariant 0 <= i <= |uids| && Structure()
        invariant G.Unmap(uidToRoom, uids[i..]) == G.Unmap(old(uidToRoom), uids)
      {
        ghost var before := uidToRoom;
        uidToRoom := uidToRoom - {uids[i]};
        assert G.Unmap(uidToRoom, uids[i + 1..]) == G.Unmap(before, uids[i..]);
        i := i + 1;
      }
      assert G.Unmap(uidToRoom, uids[i..]) == uidToRoom;
    }

    method RegisterSession(uid: uint32, stream: nat)
      requires Structure()
      modifies this`sessions
      ensures Structure() && View() == old(View()).(sessions := old(View()).sessions[uid := stream])
    {
      sessions := sessions[uid := stream];
    }

    method UnregisterSession(uid: uint32)
      requires Structure()
      modifies this`sessions
      ensures Structure() && View() == old(View()).(sessions := old(View()).sessions - {uid})
    {
      sessions := sessions - {uid};
    }

    method SendToPlayers(uids: seq<uint32>, room: nat, cast: R.Cast)
      modifies this`wire
      ensures wire == old(wire) + G.Fanout(sessions, uids, room, cast)
    {
      var i := 0;
      while i < |uids|
        invariant 0 <= i <= |uids|
        invariant wire + G.Fanout(sessions, uids[i..], room, cast) == old(wire) + G.Fanout(sessions, uids, room, cast)
      {
        assert uids[i..][1..] == uids[i + 1..];
        if uids[i] in sessions {
          ghost var before, d := wire, G.Pushed(sessions[uids[i]], uids[i], room, cast);
          wire := wire + [G.Pushed(sessions[uids[i]], uids[i], room, cast)];
          assert before + ([d] + G.Fanout(sessions, uids[i + 1..], room, cast))
              == wire + G.Fanout(sessions, uids[i + 1..], room, cast);
        }
        i := i + 1;
      }
    }

    method GetRoomByUid(uid: uint32) returns (room: Room?)
      requires Structure()
      ensures G.GetRoomByUid(View(), uid) == if room == null then None else Some(room.number)
      ensures room != null ==>
        Known(room) && room in objects && room.number < |View().objs| && View().objs[room.number] == room.View()
    {
      if uid in uidToRoom {
        room := GetRoom(uidToRoom[uid]);
      } else {
        room := null;
      }
    }

    method MapUidToRoom(uid: uint32, id: int32)
      requires Structure()
      modifies this`uidToRoom
      ensures Structure() && View() == old(View()).(uidToRoom := old(View()).uidToRoom[uid := id])
    {
      uidToRoom := uidToRoom[uid := id];
    }

    method UnmapUid(uid: uint32)
      requires Structure()
      modifies this`uidToRoom
      ensures Structure() && View() == old(View()).(uidToRoom := G.Unmap(old(View()).uidToRoom, [uid]))
    {
      uidToRoom := uidToRoom - {uid};
      assert uidToRoom == G.Unmap(old(uidToRoom), [uid]);
    }

    // ---- RunLoop, one section at a time ----

    /** Each room of the table once, in whatever order the table yields them. */
    method CopyRooms() returns (copy: seq<Room>)
      requires Structure() && forall id | id in rooms :: rooms[id].id == id
      ensures forall i | 0 <= i < |copy| :: Known(copy[i]) && copy[i].id in rooms && rooms[copy[i].id] == copy[i]
      ensures forall i, j | 0 <= i < j < |copy| :: copy[i] != copy[j]
      ensures forall id | id in rooms :: rooms[id] in copy
    {
      copy := [];
      var ids := rooms.Keys;
      while ids != {}
        invariant ids <= rooms.Keys
        invariant forall i | 0 <= i < |copy| ::
          (Known(copy[i]) && copy[i].id in rooms && copy[i].id !in ids && rooms[copy[i].id] == copy[i])
        invariant forall i, j | 0 <= i < j < |copy| :: copy[i] != copy[j]
        invariant forall id | id in rooms && id !in ids :: rooms[id] in copy
        decreases ids
      {
        var id :| id in ids;
        copy := copy + [rooms[id]];
        ids := ids - {id};
      }
    }

    method TakeSnapshot() returns (ghost order: seq<nat>)
      requires Valid() && pending == []
      modifies this`pending
      ensures G.Enabled(old(View()), G.Snapshot(order))
      ensures Valid() && View() == G.Step(old(View()), G.Snapshot(order)) == old(View()).(pending := order)
    {
      forall id | id in rooms
        ensures rooms[id].id == id
      {
        IdOf(id);
      }
      hide G.Life, G.Consistent, R.WellFormed;
      pending := CopyRooms();
      order := Numbers(pending);
      SnapshotOrder(pending);
      assert View() == old(View()).(pending := order);
      G.StepKeepsInv(old(View()), G.Snapshot(order));
      assert View() == G.Step(old(View()), G.Snapshot(order));
    }

    lemma IdOf(id: int32)
      requires Valid() && id in rooms
      ensures rooms[id].id == id
    {
      assert View().rooms[id] == rooms[id].number;
      assert View().objs[rooms[id].number] == rooms[id].View();
    }

    lemma SnapshotOrder(copy: seq<Room>)
      requires Structure()
      requires forall i | 0 <= i < |copy| :: Known(copy[i]) && copy[i].id in rooms && rooms[copy[i].id] == copy[i]
      requires forall i, j | 0 <= i < j < |copy| :: copy[i] != copy[j]
      requires forall id | id in rooms :: rooms[id] in copy
      ensures NoDuplicates(Numbers(copy))
      ensures forall o :: o in Numbers(copy) <==> o in View().rooms.Values
    {
      var numbers, m := Numbers(copy), View().rooms;
      forall o | o in numbers
        ensures o in m.Values
      {
        var i :| 0 <= i < |numbers| && numbers[i] == o;
        assert m[copy[i].id] == o;
      }
      forall o | o in m.Values
        ensures o in numbers
      {
        var id :| id in m && m[id] == o;
        var i :| 0 <= i < |copy| && copy[i] == rooms[id];
        assert numbers[i] == o;
      }
    }

    /** After one known room has run a section, the world is the model's update. */
    twostate lemma RoomChanged(room: Room)
      requires old(Structure()) && old(Known(room))
      requires objects == old(objects) && rooms == old(rooms)
      requires uidToRoom == old(uidToRoom) && sessions == old(sessions)
      requires streams == old(streams) && nextRoomId == old(nextRoomId) && pending == old(pending)
      requires forall r | r in objects && r != room :: unchanged(r)
      requires wire == old(wire) + G.Sends(sessions, room.number, old(room.View()), room.View())
      ensures Structure() && View() == G.Update(old(View()), room.number, room.View())
    {
      var w := G.Update(old(View()), room.number, room.View());
      forall i | 0 <= i < |objects|
        ensures View().objs[i] == w.objs[i]
      {
        assert objects[i] in objects;
      }
      assert View().objs == w.objs;
      assert View().rooms == w.rooms;
    }

    // A room's section, seen from the manager.

    method TickRoom(room: Room)
      requires Structure() && Known(room) && room.Valid()
      modifies this`wire, room
      ensures Structure() && View() == G.Update(old(View()), room.number, R.Tick(old(room.View())))
    {
      room.Tick(this);
      RoomChanged(room);
    }

    method StartRoom(room: Room)
      requires Structure() && Known(room) && room.Valid()
      modifies this`wire, room
      ensures Structure() && View() == G.Update(old(View()), room.number, R.StartGame(old(room.View())))
    {
      room.StartGame(this);
      RoomChanged(room);
    }

    method StopRoom(room: Room, winner: uint32)
      requires Structure() && Known(room) && room.Valid()
      modifies this`wire, room
      ensures Structure() && View() == G.Update(old(View()), room.number, R.StopGame(old(room.View()), winner))
    {
      room.StopGame(this, winner);
      RoomChanged(room);
    }

    method PushRoomInput(room: Room, uid: uint32, raw: seq<byte>)
      requires Structure() && Known(room) && room.Valid()
      modifies room
      ensures Structure() && View() == G.Update(old(View()), room.number, R.PushInput(old(room.View()), uid, raw))
    {
      room.PushInput(uid, raw);
      assert G.Sends(sessions, room.number, old(room.View()), room.View()) == [];
      RoomChanged(room);
    }

    method ReadyRoom(room: Room, uid: uint32)
      requires Structure() && Known(room) && room.Valid() && room.HasPlayer(uid)
      modifies room
      ensures Structure() && View() == G.Update(old(View()), room.number, R.MarkReady(old(room.View()), uid))
    {
      room.MarkReady(uid);
      assert G.Sends(sessions, room.number, old(room.View()), room.View()) == [];
      RoomChanged(room);
    }

    method NextPending() returns (room: Room)
      requires Structure() && pending != []
      modifies this`pending
      ensures Structure() && View() == old(View()).(pending := old(View()).pending[1..])
      ensures Known(room) && room in objects && room.number == old(View()).pending[0]
      ensures View().objs[room.number] == room.View()
    {
      room := pending[0];
      pending := pending[1..];
      assert View().pending == old(View()).pending[1..];
    }

    /** The body of the loop over the snapshot. */
    method ProcessRoom(room: Room)
      requires Structure() && Known(room) && room.Valid()
      modifies this`wire, room
      ensures Structure()
      ensures var r := old(room.View());
        && (r.phase == R.Gaming ==> View() == G.Update(old(View()), room.number, R.Tick(r)))
        && (r.phase == R.Idle ==> (View() ==
             if |r.uids| >= 2 && R.AllReady(r)
             then G.Update(old(View()), room.number, R.StartGame(r)) else old(View())))
    {
      hide R.WellFormed, R.AllReady, R.Tick, R.StartGame, G.Update, View, Structure;
      if room.state == R.Gaming {
        TickRoom(room);
      } else if room.state == R.Idle {
        if room.IsFull() {
          var ready := room.CheckAllReady();
          if ready {
            StartRoom(room);
          }
        }
      }
    }

    /** One room's turn. */
    method ProcessNext()
      requires Valid() && pending != []
      modifies this, objects
      ensures Valid() && View() == G.RoomTurn(old(View())) && objects == old(objects)
    {
      assert View().pending != [];
      hide G.Inv, G.RoomTurn, R.WellFormed, R.AllReady, R.Tick, R.StartGame, G.Update, View, Structure;
      G.TurnKeepsInv(View());
      ghost var w := View();
      TurnUnfolded(w);
      var room := NextPending();
      assert room.Valid() by {
        Sound(w, room.number);
      }
      ProcessRoom(room);
    }

    /** One iteration of the loop, with nobody in between. */
    method RunIteration() returns (ghost order: seq<nat>)
      requires Valid() && pending == []
      modifies this, objects
      ensures Valid() && objects == old(objects)
      ensures G.Enabled(old(View()), G.Snapshot(order))
      ensures G.Inv(old(View()).(pending := order)) && View() == G.AllTurns(old(View()).(pending := order))
    {
      hide G.Inv, G.RoomTurn, View, Structure, G.Enabled;
      order := TakeSnapshot();
      while pending != []
        invariant Valid() && objects == old(objects)
        invariant G.AllTurns(View()) == G.AllTurns(old(View()).(pending := order))
        decreases |View().pending|
      {
        PendingViewed();
        G.OneTurn(View());
        ProcessNext();
      }
      PendingViewed();
    }

    lemma PendingViewed()
      requires Valid()
      ensures |View().pending| == |pending|
    {
    }

    lemma TurnUnfolded(w: G.World)
      requires G.Inv(w) && w.pending != []
      ensures var o := w.pending[0];
        var r, w1 := w.objs[o], w.(pending := w.pending[1..]);
        && (r.phase == R.Gaming ==> G.RoomTurn(w) == G.Update(w1, o, R.Tick(r)))
        && (r.phase == R.Idle ==> (G.RoomTurn(w) ==
             if |r.uids| >= 2 && R.AllReady(r) then G.Update(w1, o, R.StartGame(r)) else w1))
    {
    }

    lemma Sound(w: G.World, o: nat)
      requires G.Inv(w) && o < |w.objs|
      ensures R.WellFormed(w.objs[o])
    {
    }

    // ---- GameControlService ----

    method FillRoom(room: Room, items: seq<G.Element>) returns (ok: bool)
      requires Structure() && Known(room) && room.Valid()
      modifies room
      ensures room.Valid() && room.View() == G.AddAll(old(room.View()), items)
      ensures ok == (forall e | e in items :: e.Element?)
    {
      var i := 0;
      while i < |items|
        invariant 0 <= i <= |items| && room.Valid()
        invariant G.AddAll(room.View(), items[i..]) == G.AddAll(old(room.View()), items)
        invariant forall e | e in items[..i] :: e.Element?
      {
        assert items[i..][0] == items[i] && items[i..][1..] == items[i + 1..];
        assert items[i] in items;
        if items[i].BadElement? {
          return false;
        }
        room.AddPlayer(items[i].uid, items[i].nickname, items[i].characterId);
        i := i + 1;
      }
      assert items[..i] == items;
      return true;
    }

    /** `fetch_add`, and the reset that keeps the counter small. */
    method DrawRoomId() returns (id: int32)
      requires Structure() && nextRoomId <= 1_000_000_001
      modifies this`nextRoomId
      ensures Structure() && id == old(View()).nextRoomId
      ensures View() == old(View()).(nextRoomId := RoomIds.WholeCall(id))
    {
      id := nextRoomId;
      nextRoomId := id + 1;
      if id > 1_000_000_000 {
        nextRoomId := 1000;
      }
    }

    method FillKnownRoom(room: Room, items: seq<G.Element>) returns (ok: bool)
      requires Structure() && Known(room) && room in objects && room.Valid()
      modifies room
      ensures Structure() && ok == (forall e | e in items :: e.Element?)
      ensures View() == old(View()).(objs := old(View()).objs[room.number := G.AddAll(old(room.View()), items)])
    {
      ok := FillRoom(room, items);
      var o := room.number;
      assert forall i | 0 <= i < |objects| && i != o :: objects[i] in objects && objects[i] != room;
      assert View().objs == old(View()).objs[o := room.View()];
      assert View().rooms == old(View()).rooms;
    }

    method CreateRoom(players: G.PlayerList) returns (rsp: G.CreateRoomRsp)
      requires Valid()
      modifies this, objects
      ensures Valid() && G.CreateRoom(old(View()), players) == (View(), rsp)
    {
      assert View().nextRoomId == nextRoomId;
      hide G.Inv, G.CreateRoom, R.WellFormed, G.AddAll, View, Structure, G.GetOrCreate, RoomIds.WholeCall;
      G.CreateKeepsInv(View(), players);
      ghost var w := View();
      CreateUnfolded(w, players);
      var id := DrawRoomId();
      var room := GetOrCreateRoom(id);
      assert room.Valid() by {
        Sound(View(), room.number);
      }
      var ok := FillKnownRoom(room, if players.BadText? then [] else players.items);
      if players.BadText? || !ok {
        return G.CreateRoomRsp(-1, 0);
      }
      return G.CreateRoomRsp(0, id);
    }

    lemma CreateUnfolded(w: G.World, players: G.PlayerList)
      requires G.Inv(w)
      ensures w.nextRoomId <= 1_000_000_001
      ensures var id := w.nextRoomId;
        var w1 := G.GetOrCreate(w.(nextRoomId := RoomIds.WholeCall(id)), id);
        && G.Inv(w1) && id in w1.rooms
        && var o := w1.rooms[id];
           o < |w1.objs| && R.WellFormed(w1.objs[o])
           && G.CreateRoom(w, players) ==
             (w1.(objs := w1.objs[o := G.AddAll(w1.objs[o], if players.BadText? then [] else players.items)]),
              if G.Sound(players) then G.CreateRoomRsp(0, id) else G.CreateRoomRsp(-1, 0))
    {
      G.CountKeepsInv(w);
      hide R.WellFormed, G.Life, G.AddAll, RoomIds.WholeCall;
      var id := w.nextRoomId;
      var w0 := w.(nextRoomId := RoomIds.WholeCall(id));
      if id !in w.rooms {
        G.NewRoomKeepsInv(w0, id);
      }
    }

    // ---- GameService::StreamBattle ----

    /** The first read of a stream: it becomes its player's session. */
    method OpenStream(uid: uint32, connId: uint32) returns (s: nat)
      requires Valid()
      modifies this`streams, this`sessions
      ensures Valid() && s == |old(streams)| && View() == G.Open(old(View()), uid, connId)
    {
      G.StepKeepsInv(View(), G.StreamOpened(uid, connId));
      hide G.Inv;
      s := |streams|;
      streams := streams + [G.Stream(uid, connId, true)];
      RegisterSession(uid, s);
    }

    method FinishStream(s: nat)
      requires Structure() && s < |streams|
      modifies this`streams
      ensures Structure()
      ensures View() == old(View()).(streams := old(View()).streams[s := old(View()).streams[s].(open := false)])
    {
      streams := streams[s := streams[s].(open := false)];
    }

    method Reply(s: nat, reply: G.Reply)
      requires Structure()
      modifies this`wire
      ensures Structure() && View() == G.Answer(old(View()), s, reply)
    {
      wire := wire + [G.Replied(s, reply)];
    }

    method EnterRoom(s: nat, uid: uint32, id: int32)
      requires Valid()
      modifies this`wire, this`uidToRoom
      ensures Valid() && View() == G.Handle(old(View()), s, uid, G.EnterRoom(id))
    {
      hide G.Inv, G.Handle, R.WellFormed, View, Structure, G.Answer, R.SnapshotText;
      G.HandleKeepsInv(View(), s, uid, G.EnterRoom(id));
      ghost var w := View();
      EnterUnfolded(w, s, uid, id);
      var room := GetRoom(id);
      if room != null && room.HasPlayer(uid) {
        assert room.Valid() by {
          Sound(w, room.number);
        }
        var json := room.BuildSnapshotJson();
        var rsp := G.EnterRoomRsp(0, id, json, room.players[uid].gameId);
        MapUidToRoom(uid, id);
        Reply(s, rsp);
      } else {
        Reply(s, G.EnterRoomRsp(G.ROOM_NOT_EXIST, 0, "", 0));
      }
    }

    lemma EnterUnfolded(w: G.World, s: nat, uid: uint32, id: int32)
      requires G.Inv(w)
      ensures var o := G.GetRoom(w, id);
        G.Handle(w, s, uid, G.EnterRoom(id)) ==
        if o.Some? && uid in w.objs[o.value].players then
          G.Answer(w.(uidToRoom := w.uidToRoom[uid := id]), s,
            G.EnterRoomRsp(0, id, R.SnapshotText(w.objs[o.value]), w.objs[o.value].players[uid].gameId))
        else G.Answer(w, s, G.EnterRoomRsp(G.ROOM_NOT_EXIST, 0, "", 0))
    {
    }

    method PlayerReady(s: nat, uid: uint32, id: int32)
      requires Valid()
      modifies this`wire, objects
      ensures Valid() && View() == G.Handle(old(View()), s, uid, G.PlayerReady(id)) && objects == old(objects)
    {
      hide G.Inv, R.WellFormed, R.MarkReady, G.Update, View, Structure, G.Answer;
      G.HandleKeepsInv(View(), s, uid, G.PlayerReady(id));
      ghost var w := View();
      var room := GetRoom(id);
      if room != null && room.HasPlayer(uid) {
        assert room.Valid() by {
          Sound(w, room.number);
        }
        ReadyRoom(room, uid);
        Reply(s, G.PlayerReadyRsp(0));
      } else {
        Reply(s, G.PlayerReadyRsp(G.ROOM_NOT_EXIST));
      }
    }

    method FrameInput(s: nat, uid: uint32, payload: seq<byte>)
      requires Valid()
      modifies objects
      ensures Valid() && View() == G.Handle(old(View()), s, uid, G.FrameInput(payload))
    {
      hide G.Inv, R.WellFormed, R.PushInput, G.Update, View, Structure;
      G.HandleKeepsInv(View(), s, uid, G.FrameInput(payload));
      ghost var w := View();
      if |payload| == 6 {
        var room := GetRoomByUid(uid);
        if room != null {
          assert room.Valid() by {
            Sound(w, room.number);
          }
          PushRoomInput(room, uid, payload);
        }
      }
    }

    method GameOver(s: nat, uid: uint32, winner: uint32)
      requires Valid()
      modifies this`wire, this`rooms, this`uidToRoom, objects
      ensures Valid() && View() == G.Handle(old(View()), s, uid, G.GameOverReq(winner))
    {
      hide G.Inv, R.WellFormed, R.StopGame, G.Update, G.Destroy, View, Structure, G.Answer;
      G.HandleKeepsInv(View(), s, uid, G.GameOverReq(winner));
      ghost var w := View();
      var room := GetRoomByUid(uid);
      if room != null {
        assert room.Valid() by {
          Sound(w, room.number);
        }
        var id := room.id;
        StopRoom(room, winner);
        DestroyRoom(id);
        Reply(s, G.GameOverRsp(0));
      } else {
        Reply(s, G.GameOverRsp(G.ROOM_NOT_EXIST));
      }
    }

    /** `process_req`. */
    method ProcessRequest(s: nat, uid: uint32, cmd: G.Command)
      requires Valid()
      modifies this, objects
      ensures Valid() && View() == G.Handle(old(View()), s, uid, cmd)
    {
      hide G.Inv, View, Structure, G.Handle;
      match cmd
      case EnterRoom(id) => EnterRoom(s, uid, id);
      case PlayerReady(id) => PlayerReady(s, uid, id);
      case FrameInput(payload) => FrameInput(s, uid, payload);
      case GameOverReq(winner) => GameOver(s, uid, winner);
      case Ignored => IgnoredChangesNothing(View(), s, uid);
    }

    lemma IgnoredChangesNothing(w: G.World, s: nat, uid: uint32)
      requires G.Inv(w)
      ensures G.Handle(w, s, uid, G.Ignored) == w
    {
    }

    method FirstOther(uids: seq<uint32>, uid: uint32) returns (winner: uint32)
      ensures winner == G.OtherMember(uids, uid)
    {
      var i := 0;
      while i < |uids|
        invariant 0 <= i <= |uids| && G.OtherMember(uids[i..], uid) == G.OtherMember(uids, uid)
      {
        assert uids[i..][0] == uids[i] && uids[i..][1..] == uids[i + 1..];
        if uids[i] != uid {
          return uids[i];
        }
        i := i + 1;
      }
      return 0;
    }

    method LeaveGame(uid: uint32)
      requires Valid()
      modifies this`wire, this`rooms, this`uidToRoom, objects
      ensures Structure() && View() == G.LeaveGame(old(View()), uid)
    {
      hide G.Inv, R.WellFormed, R.StopGame, G.Update, G.Destroy, G.OtherMember, View, Structure;
      ghost var w := View();
      var room := GetRoomByUid(uid);
      if room != null && room.state == R.Gaming {
        assert room.Valid() by {
          Sound(w, room.number);
        }
        var winner := FirstOther(room.playerUids, uid);
        var id := room.id;
        StopRoom(room, winner);
        DestroyRoom(id);
      }
    }

    /** What follows the read loop of a stream. */
    method CloseStream(s: nat)
      requires Valid() && s < |streams|
      modifies this, objects
      ensures Valid() && View() == G.Close(old(View()), s)
    {
      assert View().streams == streams;
      hide G.Inv, G.LeaveGame, View, Structure;
      G.CloseKeepsInv(View(), s);
      var uid := streams[s].uid;
      LeaveGame(uid);
      UnmapUid(uid);
      UnregisterSession(uid);
      FinishStream(s);
    }
  }
}
