/** The game server at request granularity: one request, one disconnect clean-up, one
    snapshot of the room table or one room's turn in the loop is one step. */
module GameModel {
  import opened Types
  import opened RoomModel
  import RoomIds

  const ROOM_NOT_EXIST: int := -3001

  /** What a client's stream is told in answer to its own request. */
  datatype Reply =
    | EnterRoomRsp(err: int, roomId: int32, playerList: string, myGameId: int)
    | PlayerReadyRsp(err: int)
    | GameOverRsp(err: int)

  /** One write to a stream: a room's broadcast addressed to a player, or a reply.
      `room` numbers the room object that broadcast. */
  datatype Delivery =
    | Pushed(stream: nat, uid: uint32, room: nat, cast: Cast)
    | Replied(stream: nat, reply: Reply)

  datatype Command =
    | EnterRoom(roomId: int32)
    | PlayerReady(roomId: int32)
    | FrameInput(payload: seq<byte>)
    | GameOverReq(winner: uint32)
    | Ignored // an unknown command, or a payload that does not parse

  /** `player_list_json` as its consumer sees it: elements in order, any of which may
      make the conversion throw, or text that does not parse at all. */
  datatype Element = Element(uid: uint32, nickname: string, characterId: int32) | BadElement
  datatype PlayerList = BadText | Elements(items: seq<Element>)

  datatype CreateRoomRsp = CreateRoomRsp(err: int, roomId: int32)

  /** One `StreamBattle` call: the player and connection it was opened for, and whether
      its handler is still running. */
  datatype Stream = Stream(uid: uint32, connId: uint32, open: bool)

  /** Room objects are numbered in the order they are made and never forgotten;
      `rooms` says which are in the table, `pending` which ones the loop still has to
      visit in its current snapshot. */
  datatype World = World(
    rooms: map<int32, nat>, objs: seq<RoomView>, uidToRoom: map<uint32, int32>, sessions: map<uint32, nat>,
    streams: seq<Stream>, wire: seq<Delivery>, nextRoomId: int32, pending: seq<nat>)

  function Init(): World {
    World(map[], [], map[], map[], [], [], 1000, [])
  }

  // ---- RoomManager ----

  function GetRoom(w: World, id: int32): Option<nat> {
    if id in w.rooms then Some(w.rooms[id]) else None
  }

  function GetRoomByUid(w: World, uid: uint32): Option<nat> {
    if uid in w.uidToRoom then GetRoom(w, w.uidToRoom[uid]) else None
  }

  function Unmap(m: map<uint32, int32>, uids: seq<uint32>): map<uint32, int32> {
    map u | u in m && u !in uids :: m[u]
  }

  function Destroy(w: World, id: int32): World
    requires id in w.rooms ==> w.rooms[id] < |w.objs|
  {
    if id !in w.rooms then w
    else w.(uidToRoom := Unmap(w.uidToRoom, w.objs[w.rooms[id]].uids), rooms := w.rooms - {id})
  }

  /** `SendToPlayers`: one write per addressee that has a session, in order. */
  function Fanout(sessions: map<uint32, nat>, uids: seq<uint32>, room: nat, cast: Cast): seq<Delivery> {
    if uids == [] then []
    else
      var rest := Fanout(sessions, uids[1..], room, cast);
      if uids[0] in sessions then [Pushed(sessions[uids[0]], uids[0], room, cast)] + rest else rest
  }

  /** The writes caused by a section of room `o` that broadcasts at most once. */
  function Sends(sessions: map<uint32, nat>, o: nat, before: RoomView, after: RoomView): seq<Delivery> {
    if |after.casts| > |before.casts| then Fanout(sessions, after.uids, o, after.casts[|after.casts| - 1]) else []
  }

  /** Room `o` becomes `r`, which has broadcast at most one thing more. */
  function Update(w: World, o: nat, r: RoomView): World
    requires o < |w.objs|
  {
    w.(objs := w.objs[o := r], wire := w.wire + Sends(w.sessions, o, w.objs[o], r))
  }

  function Answer(w: World, s: nat, reply: Reply): World {
    w.(wire := w.wire + [Replied(s, reply)])
  }

  // ---- GameControlService::CreateRoom ----

  function AddAll(r: RoomView, items: seq<Element>): RoomView
    requires r.uids != [] ==> r.uids[0] in r.players
    decreases |items|
  {
    if items == [] || items[0].BadElement? then r
    else AddAll(AddPlayer(r, items[0].uid, items[0].nickname, items[0].characterId), items[1..])
  }

  predicate Sound(l: PlayerList) {
    l.Elements? && forall e | e in l.items :: e.Element?
  }

  function GetOrCreate(w: World, id: int32): World {
    if id in w.rooms then w
    else w.(rooms := w.rooms[id := |w.objs|], objs := w.objs + [NewRoom(id)])
  }

  function CreateRoom(w: World, l: PlayerList): (World, CreateRoomRsp)
    requires Registered(w)
  {
    var id := w.nextRoomId;
    var w1 := GetOrCreate(w.(nextRoomId := RoomIds.WholeCall(id)), id);
    var o := w1.rooms[id];
    var r := AddAll(w1.objs[o], if l.BadText? then [] else l.items);
    (w1.(objs := w1.objs[o := r]), if Sound(l) then CreateRoomRsp(0, id) else CreateRoomRsp(-1, 0))
  }

  // ---- GameService::StreamBattle ----

  function Open(w: World, uid: uint32, connId: uint32): World {
    w.(streams := w.streams + [Stream(uid, connId, true)], sessions := w.sessions[uid := |w.streams|])
  }

  /** `process_req`; `uid` is the request's own uid field, which need not be the
      uid the stream was opened for. */
  function Handle(w: World, s: nat, uid: uint32, cmd: Command): World
    requires Registered(w)
  {
    match cmd
    case EnterRoom(id) =>
      var o := GetRoom(w, id);
      if o.Some? && uid in w.objs[o.value].players then
        var r := w.objs[o.value];
        Answer(w.(uidToRoom := w.uidToRoom[uid := id]), s,
          EnterRoomRsp(0, id, SnapshotText(r), r.players[uid].gameId))
      else Answer(w, s, EnterRoomRsp(ROOM_NOT_EXIST, 0, "", 0))
    case PlayerReady(id) =>
      var o := GetRoom(w, id);
      if o.Some? && uid in w.objs[o.value].players
      then Answer(Update(w, o.value, MarkReady(w.objs[o.value], uid)), s, PlayerReadyRsp(0))
      else Answer(w, s, PlayerReadyRsp(ROOM_NOT_EXIST))
    case FrameInput(payload) =>
      var o := GetRoomByUid(w, uid);
      if |payload| == 6 && o.Some? then Update(w, o.value, PushInput(w.objs[o.value], uid, payload)) else w
    case GameOverReq(winner) =>
      var o := GetRoomByUid(w, uid);
      if o.Some? then
        var id := w.objs[o.value].id;
        Answer(Destroy(Update(w, o.value, StopGame(w.objs[o.value], winner)), id), s, GameOverRsp(0))
      else Answer(w, s, GameOverRsp(ROOM_NOT_EXIST))
    case Ignored => w
  }

  /** The first member other than `uid`, or 0. */
  function OtherMember(uids: seq<uint32>, uid: uint32): uint32 {
    if uids == [] then 0 else if uids[0] != uid then uids[0] else OtherMember(uids[1..], uid)
  }

  /** A player who leaves in mid-game loses it to another member. */
  function LeaveGame(w: World, uid: uint32): World
    requires Registered(w)
  {
    var o := GetRoomByUid(w, uid);
    if o.Some? && w.objs[o.value].phase == Gaming then
      var r := w.objs[o.value];
      Destroy(Update(w, o.value, StopGame(r, OtherMember(r.uids, uid))), r.id)
    else w
  }

  /** What happens when a stream's read loop ends. */
  function Close(w: World, s: nat): World
    requires Registered(w) && s < |w.streams|
  {
    var uid := w.streams[s].uid;
    var w1 := LeaveGame(w, uid);
    w1.(uidToRoom := Unmap(w1.uidToRoom, [uid]), sessions := w1.sessions - {uid},
        streams := w.streams[s := w.streams[s].(open := false)])
  }

  // ---- RoomManager::RunLoop ----

  function RoomTurn(w: World): World
    requires Registered(w) && w.pending != []
  {
    var o := w.pending[0];
    var r := w.objs[o];
    var w1 := w.(pending := w.pending[1..]);
    if r.phase == Gaming then Update(w1, o, Tick(r))
    else if AllReady(r) then Update(w1, o, StartGame(r))
    else w1
  }

  // ---- Steps and runs ----

  datatype Event =
    | CreateRoomCall(players: PlayerList)
    | StreamOpened(uid: uint32, connId: uint32)
    | Request(stream: nat, reqUid: uint32, cmd: Command)
    | StreamClosed(stream: nat)
    | Snapshot(order: seq<nat>)
    | Turn

  /** The references between the tables are sound. */
  ghost predicate Registered(w: World) {
    && (forall id | id in w.rooms :: w.rooms[id] < |w.objs| && w.objs[w.rooms[id]].id == id)
    && (forall o | 0 <= o < |w.objs| :: WellFormed(w.objs[o]))
    && (forall i | 0 <= i < |w.pending| :: w.pending[i] < |w.objs|)
  }

  ghost predicate Enabled(w: World, e: Event) {
    match e
    case Request(s, _, _) => s < |w.streams| && w.streams[s].open
    case StreamClosed(s) => s < |w.streams| && w.streams[s].open
    case Snapshot(order) => w.pending == [] && NoDuplicates(order) && (forall o :: o in order <==> o in w.rooms.Values)
    case Turn => w.pending != []
    case _ => true
  }

  ghost function Step(w: World, e: Event): World
    requires Registered(w) && Enabled(w, e)
  {
    match e
    case CreateRoomCall(l) => CreateRoom(w, l).0
    case StreamOpened(uid, connId) => Open(w, uid, connId)
    case Request(s, uid, cmd) => Handle(w, s, uid, cmd)
    case StreamClosed(s) => Close(w, s)
    case Snapshot(order) => w.(pending := order)
    case Turn => RoomTurn(w)
  }

  // ---- The invariant of every run ----

  /** Room object `o` is in the table. */
  ghost predicate Live(w: World, o: nat)
    requires o < |w.objs|
  {
    w.objs[o].id in w.rooms && w.rooms[w.objs[o].id] == o
  }

  /** A game's broadcasts so far: the start, then the frames 0, 1, 2, ... */
  ghost predicate Opening(casts: seq<Cast>, id: int32) {
    casts == [] ||
    (casts[0] == GameStart(id) &&
     forall k | 1 <= k < |casts| :: casts[k].FrameUpdate? && casts[k].frame.frameId == Wrap32(k - 1))
  }

  /** A room in the table has broadcast nothing before its game and only the game's
      opening during it; a room out of the table has added one verdict and is idle
      with somebody not ready. */
  ghost predicate Life(r: RoomView, live: bool) {
    if live then
      && Opening(r.casts, r.id)
      && (r.phase == Idle ==> r.casts == [])
      && (r.phase == Gaming ==> r.casts != [] && |r.uids| >= 2 && r.frame.frameId == Wrap32(|r.casts| - 1))
    else
      && r.phase == Idle && r.casts != [] && !AllReady(r)
      && r.casts[|r.casts| - 1].GameOver? && r.casts[|r.casts| - 1].overId == r.id
      && Opening(r.casts[..|r.casts| - 1], r.id)
  }

  /** Every mapped player is in the live room it is mapped to; every session belongs to
      an open stream of that player. */
  ghost predicate Consistent(w: World)
    requires Registered(w)
  {
    && (forall u | u in w.uidToRoom ::
         w.uidToRoom[u] in w.rooms && u in w.objs[w.rooms[w.uidToRoom[u]]].players)
    && (forall u | u in w.sessions ::
         w.sessions[u] < |w.streams| && w.streams[w.sessions[u]].open && w.streams[w.sessions[u]].uid == u)
    && NoDuplicates(w.pending)
    && 1000 <= w.nextRoomId <= 1_000_000_001
  }

  ghost predicate Inv(w: World) {
    && Registered(w) && Consistent(w)
    && forall o | 0 <= o < |w.objs| :: Life(w.objs[o], Live(w, o))
  }

  lemma InitInv()
    ensures Inv(Init())
  {
  }

  /** Changing one live room within its life keeps everything else. */
  lemma UpdateKeepsInv(w: World, o: nat, r: RoomView)
    requires Inv(w) && o < |w.objs| && Live(w, o)
    requires WellFormed(r) && Life(r, true) && r.id == w.objs[o].id
    requires forall u | u in w.objs[o].players :: u in r.players
    ensures Inv(Update(w, o, r))
  {
    hide Opening, WellFormed, Fanout, AllReady;
  }

  lemma StopLife(r: RoomView, winner: uint32)
    requires WellFormed(r) && Life(r, true) && r.uids != []
    ensures WellFormed(StopGame(r, winner)) && Life(StopGame(r, winner), false)
  {
    var r' := StopGame(r, winner);
    ApplyKeepsWellFormed(r, Finish(winner));
    assert r'.casts[..|r'.casts| - 1] == r.casts;
    assert !AllReady(r') by {
      assert r'.uids[0] in r'.uids;
    }
  }

  /** A live room that stops leaves the table, and nobody stays mapped to it. */
  lemma StopKeepsInv(w: World, o: nat, winner: uint32)
    requires Inv(w) && o < |w.objs| && Live(w, o) && w.objs[o].uids != []
    ensures var r := w.objs[o];
      Registered(Update(w, o, StopGame(r, winner))) && Inv(Destroy(Update(w, o, StopGame(r, winner)), r.id))
  {
    StopLife(w.objs[o], winner);
    hide WellFormed, Life, Destroy, Registered, Consistent;
    StoppedLife(w, o, StopGame(w.objs[o], winner));
  }

  /** `r'` is what became of the live room `o` when it stopped. */
  ghost predicate Stopped(w: World, o: nat, r': RoomView) {
    && Inv(w) && o < |w.objs| && Live(w, o)
    && WellFormed(r') && Life(r', false) && r'.id == w.objs[o].id && r'.uids == w.objs[o].uids
  }

  lemma StoppedWorld(w: World, o: nat, r': RoomView)
    requires Stopped(w, o, r')
    ensures Registered(Update(w, o, r'))
    ensures Destroy(Update(w, o, r'), r'.id) == w.(objs := w.objs[o := r'], rooms := w.rooms - {r'.id},
      uidToRoom := Unmap(w.uidToRoom, r'.uids), wire := w.wire + Sends(w.sessions, o, w.objs[o], r'))
  {
    hide Life, WellFormed, Fanout, Unmap, Sends;
  }

  lemma StoppedMapping(w: World, o: nat, r': RoomView, u: uint32)
    requires Stopped(w, o, r')
    requires u in Unmap(w.uidToRoom, r'.uids)
    ensures var id := w.uidToRoom[u];
      id != r'.id && id in w.rooms && w.rooms[id] < |w.objs| && w.rooms[id] != o && u in w.objs[w.rooms[id]].players
  {
    assert u in w.objs[o].players ==> u in r'.uids;
    hide Life, WellFormed;
  }

  /** `w2` is what the stop and the removal of room `o` made of `w`. */
  ghost predicate Emptied(w: World, o: nat, r': RoomView, w2: World) {
    && Stopped(w, o, r')
    && w2 == w.(objs := w.objs[o := r'], rooms := w.rooms - {r'.id}, uidToRoom := Unmap(w.uidToRoom, r'.uids),
                wire := w2.wire)
  }

  lemma EmptiedRegistered(w: World, o: nat, r': RoomView, w2: World)
    requires Emptied(w, o, r', w2)
    ensures Registered(w2)
  {
    hide Life, WellFormed, Unmap;
  }

  lemma EmptiedConsistent(w: World, o: nat, r': RoomView, w2: World)
    requires Emptied(w, o, r', w2) && Registered(w2)
    ensures Consistent(w2)
  {
    hide Life, WellFormed, NoDuplicates;
    forall u | u in w2.uidToRoom
      ensures w2.uidToRoom[u] in w2.rooms && u in w2.objs[w2.rooms[w2.uidToRoom[u]]].players
    {
      StoppedMapping(w, o, r', u);
    }
    hide Registered;
  }

  lemma StoppedLife(w: World, o: nat, r': RoomView)
    requires Stopped(w, o, r')
    ensures Registered(Update(w, o, r')) && Inv(Destroy(Update(w, o, r'), r'.id))
  {
    StoppedWorld(w, o, r');
    var w2 := Destroy(Update(w, o, r'), r'.id);
    hide Life, WellFormed, Unmap, Consistent, Update, Destroy, Sends;
    EmptiedRegistered(w, o, r', w2);
    EmptiedConsistent(w, o, r', w2);
  }

  lemma {:induction false} AddAllKeeps(r: RoomView, items: seq<Element>)
    requires WellFormed(r)
    ensures AddAll(r, items) == Run(r, Enrolments(items))
    decreases |items|
  {
    if items == [] || items[0].BadElement? {
    } else {
      var e := Enroll(items[0].uid, items[0].nickname, items[0].characterId);
      ApplyKeepsWellFormed(r, e);
      AddAllKeeps(Apply(r, e), items[1..]);
      RunOne(r, e);
      RunConcat(r, [e], Enrolments(items[1..]));
    }
  }

  ghost function Enrolments(items: seq<Element>): seq<RoomEvent> {
    if items == [] || items[0].BadElement? then []
    else [Enroll(items[0].uid, items[0].nickname, items[0].characterId)] + Enrolments(items[1..])
  }

  lemma RunOne(r: RoomView, e: RoomEvent)
    requires WellFormed(r)
    ensures Run(r, [e]) == Apply(r, e)
  {
    assert [e][..0] == [];
    assert Run(r, []) == r;
  }

  /** Adding players changes nothing but the two player tables. */
  lemma {:induction false} AddAllFrame(r: RoomView, items: seq<Element>)
    requires WellFormed(r)
    ensures var r' := AddAll(r, items);
      && WellFormed(r') && r.uids <= r'.uids
      && r'.(uids := r.uids, players := r.players) == r
      && forall u | u in r.players :: u in r'.players && r'.players[u] == r.players[u]
    decreases |items|
  {
    if items != [] && items[0].Element? {
      var e := Enroll(items[0].uid, items[0].nickname, items[0].characterId);
      ApplyKeepsWellFormed(r, e);
      AddAllFrame(Apply(r, e), items[1..]);
    }
  }

  lemma NewRoomLife(id: int32)
    ensures WellFormed(NewRoom(id)) && Life(NewRoom(id), true)
  {
  }

  lemma NewRoomRegistered(w: World, id: int32)
    requires Inv(w) && id !in w.rooms
    ensures Registered(GetOrCreate(w, id))
  {
    NewRoomLife(id);
    assert NewRoom(id).id == id;
    hide NewRoom, WellFormed, Life;
  }

  lemma NewRoomConsistent(w: World, id: int32)
    requires Inv(w) && id !in w.rooms && Registered(GetOrCreate(w, id))
    ensures Consistent(GetOrCreate(w, id))
  {
    hide NewRoom, WellFormed, Life, NoDuplicates;
  }

  lemma NewRoomKeepsInv(w: World, id: int32)
    requires Inv(w) && id !in w.rooms
    ensures Inv(GetOrCreate(w, id))
  {
    NewRoomLife(id);
    NewRoomRegistered(w, id);
    NewRoomConsistent(w, id);
    assert NewRoom(id).id == id;
    hide NewRoom, WellFormed, Life, Consistent;
    var w1 := GetOrCreate(w, id);
    forall o | 0 <= o < |w.objs|
      ensures w1.objs[o] == w.objs[o] && (Live(w1, o) <==> Live(w, o))
    {
    }
    assert Live(w1, |w.objs|);
  }

  lemma FillKeepsInv(w: World, o: nat, items: seq<Element>)
    requires Inv(w) && o < |w.objs| && Live(w, o)
    ensures Inv(w.(objs := w.objs[o := AddAll(w.objs[o], items)]))
  {
    var r := AddAll(w.objs[o], items);
    AddAllFrame(w.objs[o], items);
    assert Life(r, true);
    hide WellFormed, Life, AddAll, Inv;
    UpdateKeepsInv(w, o, r);
    assert Update(w, o, r) == w.(objs := w.objs[o := r]) by {
      assert w.wire + [] == w.wire;
    }
  }

  lemma CountKeepsInv(w: World)
    requires Inv(w)
    ensures Inv(w.(nextRoomId := RoomIds.WholeCall(w.nextRoomId)))
  {
    hide WellFormed, Life;
  }

  lemma CreateKeepsInv(w: World, l: PlayerList)
    requires Inv(w)
    ensures Inv(CreateRoom(w, l).0)
  {
    hide WellFormed, Life, AddAll;
    var id := w.nextRoomId;
    var w0 := w.(nextRoomId := RoomIds.WholeCall(id));
    CountKeepsInv(w);
    if id !in w0.rooms {
      NewRoomKeepsInv(w0, id);
    }
    var w1 := GetOrCreate(w0, id);
    FillKeepsInv(w1, w1.rooms[id], if l.BadText? then [] else l.items);
  }

  lemma GameEventKeepsLife(r: RoomView, e: RoomEvent)
    requires WellFormed(r) && Life(r, true)
    requires match e case Ready(_) => true case Input(_, _) => true case Ticked => true
      case Begin => r.phase == Idle && AllReady(r) case _ => false
    ensures Life(Apply(r, e), true)
  {
    if e.Ticked? && r.phase == Gaming {
      IncrementWraps(|r.casts| - 1, r.frame.frameId, |r.casts|, Tick(r).frame.frameId);
    }
  }

  lemma ApplyKeepsInv(w: World, o: nat, e: RoomEvent)
    requires Inv(w) && o < |w.objs| && Live(w, o)
    requires match e case Ready(_) => true case Input(_, _) => true case Ticked => true
      case Begin => w.objs[o].phase == Idle && AllReady(w.objs[o]) case _ => false
    ensures Inv(Update(w, o, Apply(w.objs[o], e)))
  {
    GameEventKeepsLife(w.objs[o], e);
    ApplyKeepsWellFormed(w.objs[o], e);
    UpdateKeepsInv(w, o, Apply(w.objs[o], e));
  }

  lemma AnswerKeepsInv(w: World, s: nat, reply: Reply)
    requires Inv(w)
    ensures Inv(Answer(w, s, reply))
  {
  }

  lemma HandleKeepsInv(w: World, s: nat, uid: uint32, cmd: Command)
    requires Inv(w)
    ensures Inv(Handle(w, s, uid, cmd))
  {
    if uid in w.uidToRoom {
      MappedRoomHasPlayers(w, uid);
    }
    hide Life, WellFormed, Inv;
    match cmd
    case EnterRoom(id) => EnterKeepsInv(w, s, uid, id);
    case PlayerReady(id) =>
      var o := GetRoom(w, id);
      if o.Some? && uid in w.objs[o.value].players {
        ApplyKeepsInv(w, o.value, Ready(uid));
        AnswerKeepsInv(Update(w, o.value, MarkReady(w.objs[o.value], uid)), s, PlayerReadyRsp(0));
      } else {
        AnswerKeepsInv(w, s, PlayerReadyRsp(ROOM_NOT_EXIST));
      }
    case FrameInput(payload) =>
      var o := GetRoomByUid(w, uid);
      if o.Some? {
        ApplyKeepsInv(w, o.value, Input(uid, payload));
      }
    case GameOverReq(winner) =>
      var o := GetRoomByUid(w, uid);
      if o.Some? {
        var r := w.objs[o.value];
        MappedRoomHasPlayers(w, uid);
        StopKeepsInv(w, o.value, winner);
        AnswerKeepsInv(Destroy(Update(w, o.value, StopGame(r, winner)), r.id), s, GameOverRsp(0));
      } else {
        AnswerKeepsInv(w, s, GameOverRsp(ROOM_NOT_EXIST));
      }
    case Ignored =>
  }

  /** A mapped player's room exists, is in the table and lists the player. */
  lemma MappedRoomHasPlayers(w: World, uid: uint32)
    requires Inv(w) && uid in w.uidToRoom
    ensures var o := GetRoomByUid(w, uid);
      o.Some? && o.value < |w.objs| && Live(w, o.value) && uid in w.objs[o.value].players && uid in w.objs[o.value].uids
  {
  }

  lemma EnterKeepsInv(w: World, s: nat, uid: uint32, id: int32)
    requires Inv(w)
    ensures Inv(Handle(w, s, uid, EnterRoom(id)))
  {
    hide Life, WellFormed, SnapshotText;
  }

  lemma LeaveKeepsInv(w: World, s: nat)
    requires Inv(w) && s < |w.streams|
    ensures var uid := w.streams[s].uid;
      Inv(w.(uidToRoom := Unmap(w.uidToRoom, [uid]), sessions := w.sessions - {uid},
             streams := w.streams[s := w.streams[s].(open := false)]))
  {
    hide Opening, AllReady, WellFormed;
  }

  lemma CloseKeepsInv(w: World, s: nat)
    requires Inv(w) && s < |w.streams|
    ensures Inv(Close(w, s))
  {
    var uid := w.streams[s].uid;
    var o := GetRoomByUid(w, uid);
    if o.Some? && w.objs[o.value].phase == Gaming {
      var r := w.objs[o.value];
      StopKeepsInv(w, o.value, OtherMember(r.uids, uid));
      LeaveKeepsInv(Destroy(Update(w, o.value, StopGame(r, OtherMember(r.uids, uid))), r.id), s);
    } else {
      LeaveKeepsInv(w, s);
    }
  }

  lemma TurnKeepsInv(w: World)
    requires Inv(w) && w.pending != []
    ensures Inv(RoomTurn(w))
  {
    var o := w.pending[0];
    var w1 := w.(pending := w.pending[1..]);
    assert Inv(w1) by {
      hide Opening, AllReady, WellFormed;
    }
    if w.objs[o].phase == Gaming {
      ApplyKeepsInv(w1, o, Ticked);
    } else if AllReady(w.objs[o]) {
      ApplyKeepsInv(w1, o, Begin);
    }
  }

  lemma OpenKeepsInv(w: World, uid: uint32, connId: uint32)
    requires Inv(w)
    ensures Inv(Open(w, uid, connId))
  {
    hide Life, WellFormed;
  }

  lemma SnapshotKeepsInv(w: World, order: seq<nat>)
    requires Inv(w) && NoDuplicates(order) && forall o :: o in order <==> o in w.rooms.Values
    ensures Inv(w.(pending := order))
  {
    forall i | 0 <= i < |order|
      ensures order[i] < |w.objs|
    {
      assert order[i] in order;
      assert order[i] in w.rooms.Values;
    }
    hide Life, WellFormed;
  }

  /** Every step keeps the invariant. */
  lemma StepKeepsInv(w: World, e: Event)
    requires Inv(w) && Enabled(w, e)
    ensures Inv(Step(w, e))
  {
    hide Inv, Registered, NoDuplicates;
    match e
    case CreateRoomCall(l) => CreateKeepsInv(w, l);
    case StreamOpened(uid, connId) => OpenKeepsInv(w, uid, connId);
    case Request(s, uid, cmd) => HandleKeepsInv(w, s, uid, cmd);
    case StreamClosed(s) => CloseKeepsInv(w, s);
    case Snapshot(order) => SnapshotKeepsInv(w, order);
    case Turn => TurnKeepsInv(w);
  }

  // ---- One iteration of the loop ----

  /** The turns of all the rooms the loop still has to visit. */
  ghost function AllTurns(w: World): (w': World)
    requires Inv(w)
    ensures Inv(w') && w'.pending == []
    decreases |w.pending|
  {
    if w.pending == [] then w else (TurnKeepsInv(w); AllTurns(RoomTurn(w)))
  }

  /** What one turn does to its room. */
  function TurnOf(r: RoomView): RoomView {
    if r.phase == Gaming then Tick(r) else if AllReady(r) then StartGame(r) else r
  }

  lemma OneTurn(w: World)
    requires Inv(w) && w.pending != []
    ensures w.pending[0] < |w.objs|
    ensures RoomTurn(w).objs == w.objs[w.pending[0] := TurnOf(w.objs[w.pending[0]])]
    ensures RoomTurn(w).pending == w.pending[1..] && RoomTurn(w).rooms == w.rooms
  {
    hide Life, Consistent, WellFormed, Tick, StartGame, AllReady, Sends;
  }

  /** A loop iteration gives every room of its snapshot exactly one turn: a game in
      progress advances by one frame, a room that is ready starts, and nothing else in
      any room changes. */
  lemma {:induction false} EachRoomOnce(w: World)
    requires Inv(w)
    ensures AllTurns(w).rooms == w.rooms && |AllTurns(w).objs| == |w.objs|
    ensures forall o | 0 <= o < |w.objs| ::
      AllTurns(w).objs[o] == if o in w.pending then TurnOf(w.objs[o]) else w.objs[o]
    decreases |w.pending|
  {
    if w.pending != [] {
      TurnKeepsInv(w);
      OneTurn(w);
      var o, w1 := w.pending[0], RoomTurn(w);
      assert NoDuplicates(w.pending);
      hide Inv, RoomTurn, TurnOf;
      assert o !in w1.pending;
      EachRoomOnce(w1);
      assert AllTurns(w) == AllTurns(w1);
      hide AllTurns, NoDuplicates;
      assert forall p :: p in w.pending <==> p == o || p in w.pending[1..];
    }
  }
}
