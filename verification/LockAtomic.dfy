/** The game server at lock granularity: each mutex section, and each unlocked read or
    write of a shared field, is one step; handlers and the loop have program counters,
    and any number of them run interleaved. */
module LockAtomic {
  import opened Types
  import R = RoomModel
  import G = GameModel
  import RoomIds

  /** Where a `StreamBattle` call is. `o` numbers the room object it refers to;
      `leaving` tells the disconnect clean-up from a game-over request. */
  datatype Pc =
    | Registering
    | Reading
    | Replying(reply: G.Reply)
    | EnterLookup(u: uint32, id: int32)
    | EnterCheck(u: uint32, id: int32, o: nat)
    | EnterSnapshot(u: uint32, id: int32, o: nat)
    | EnterGetPlayer(u: uint32, id: int32, o: nat, text: string)
    | EnterMap(u: uint32, id: int32, text: string, seat: int)
    | ReadyLookup(u: uint32, id: int32)
    | ReadyCheck(u: uint32, o: nat)
    | ReadyGetPlayer(u: uint32, o: nat)
    | ReadySet(u: uint32, o: nat)
    | InputLookup(u: uint32, raw: seq<byte>)
    | InputPush(u: uint32, raw: seq<byte>, o: nat)
    | OverLookup(u: uint32, winner: uint32)
    | Stopping(o: nat, winner: uint32, leaving: bool)
    | DestroyLookup(id: int32, leaving: bool)
    | DestroyMembers(id: int32, o: nat, leaving: bool)
    | DestroyUnmap(id: int32, uids: seq<uint32>, leaving: bool)
    | DestroyRemove(id: int32, leaving: bool)
    | LeaveLookup
    | LeaveCheck(o: nat)
    | LeaveMembers(o: nat)
    | LeaveUnmap
    | LeaveUnregister
    | Finished

  datatype Call = Call(uid: uint32, connId: uint32, pc: Pc)

  /** Where a `CreateRoom` call is. */
  datatype CreatePc =
    | Drawing(players: G.PlayerList)
    | Resetting(id: int32, players: G.PlayerList)
    | Making(id: int32, players: G.PlayerList)
    | Filling(o: nat, items: seq<G.Element>)
    | Created

  /** Where the loop is in its iteration; `rest` is the part of the snapshot ahead. */
  datatype LoopPc =
    | Sleeping
    | NextRoom(rest: seq<nat>)
    | WillTick(o: nat, rest: seq<nat>)
    | NotGaming(o: nat, rest: seq<nat>)
    | WillCheckFull(o: nat, rest: seq<nat>)
    | WillCheckReady(o: nat, rest: seq<nat>)
    | WillStart(o: nat, rest: seq<nat>)

  /** `loopLog` lists the rooms for which the loop has broadcast a start or a frame. */
  datatype Sys = Sys(
    rooms: map<int32, nat>, objs: seq<R.RoomView>, uidToRoom: map<uint32, int32>, sessions: map<uint32, nat>,
    nextRoomId: int32, calls: seq<Call>, creates: seq<CreatePc>, loop: LoopPc, wire: seq<G.Delivery>, loopLog: seq<nat>)

  function Init(): Sys {
    Sys(map[], [], map[], map[], 1000, [], [], Sleeping, [], [])
  }

  function GetRoom(s: Sys, id: int32): Option<nat> {
    if id in s.rooms then Some(s.rooms[id]) else None
  }

  function GetRoomByUid(s: Sys, uid: uint32): Option<nat> {
    if uid in s.uidToRoom then GetRoom(s, s.uidToRoom[uid]) else None
  }

  /** A room's locked section, with its broadcast. */
  function Section(s: Sys, o: nat, r: R.RoomView): Sys
    requires o < |s.objs|
  {
    s.(objs := s.objs[o := r], wire := s.wire + G.Sends(s.sessions, o, s.objs[o], r))
  }

  function Goto(s: Sys, c: nat, pc: Pc): Sys
    requires c < |s.calls|
  {
    s.(calls := s.calls[c := s.calls[c].(pc := pc)])
  }

  /** The object a program counter points to, if any. */
  function Pointer(pc: Pc): Option<nat> {
    match pc
    case EnterCheck(_, _, o) => Some(o)
    case EnterSnapshot(_, _, o) => Some(o)
    case EnterGetPlayer(_, _, o, _) => Some(o)
    case ReadyCheck(_, o) => Some(o)
    case ReadyGetPlayer(_, o) => Some(o)
    case ReadySet(_, o) => Some(o)
    case InputPush(_, _, o) => Some(o)
    case Stopping(o, _, _) => Some(o)
    case DestroyMembers(_, o, _) => Some(o)
    case LeaveCheck(o) => Some(o)
    case LeaveMembers(o) => Some(o)
    case _ => None
  }

  /** The player a handler is about to dereference in its room, if any. */
  function Dereferenced(pc: Pc): Option<uint32> {
    match pc
    case EnterSnapshot(u, _, _) => Some(u)
    case EnterGetPlayer(u, _, _, _) => Some(u)
    case ReadyGetPlayer(u, _) => Some(u)
    case ReadySet(u, _) => Some(u)
    case _ => None
  }

  /** Pointers are to objects that exist, and a player to be dereferenced is there. */
  ghost predicate PcSound(objs: seq<R.RoomView>, pc: Pc) {
    && (Pointer(pc).Some? ==> Pointer(pc).value < |objs|)
    && (Dereferenced(pc).Some? ==>
         Pointer(pc).Some? && Pointer(pc).value < |objs| && Dereferenced(pc).value in objs[Pointer(pc).value].players)
  }

  /** The object the loop is busy with and those still ahead in its snapshot. */
  function Held(l: LoopPc): seq<nat> {
    match l
    case Sleeping => []
    case NextRoom(rest) => rest
    case WillTick(o, rest) => [o] + rest
    case NotGaming(o, rest) => [o] + rest
    case WillCheckFull(o, rest) => [o] + rest
    case WillCheckReady(o, rest) => [o] + rest
    case WillStart(o, rest) => [o] + rest
  }

  ghost predicate Sound(s: Sys) {
    && (forall id | id in s.rooms :: s.rooms[id] < |s.objs| && s.objs[s.rooms[id]].id == id)
    && (forall o | 0 <= o < |s.objs| :: R.WellFormed(s.objs[o]))
    && (forall c | 0 <= c < |s.calls| :: PcSound(s.objs, s.calls[c].pc))
    && (forall k | 0 <= k < |s.creates| && s.creates[k].Filling? :: s.creates[k].o < |s.objs|)
    && (forall i | 0 <= i < |Held(s.loop)| :: Held(s.loop)[i] < |s.objs|)
    && NoDuplicates(Held(s.loop))
  }

  /** Every registered stream belongs to a call of that player which has registered and
      has not yet completed its `UnregisterSession`. */
  ghost predicate SessionsServed(s: Sys) {
    forall u | u in s.sessions ::
      && s.sessions[u] < |s.calls| && s.calls[s.sessions[u]].uid == u
      && !s.calls[s.sessions[u]].pc.Registering? && !s.calls[s.sessions[u]].pc.Finished?
  }

  // ---- Handlers ----

  function AfterDestroy(leaving: bool): Pc {
    if leaving then LeaveUnmap else Replying(G.GameOverRsp(0))
  }

  const NO_ROOM: G.Reply := G.EnterRoomRsp(G.ROOM_NOT_EXIST, 0, "", 0)

  /** What the next section of call `c` does to the shared state. */
  function Effect(s: Sys, c: nat): Sys
    requires Sound(s) && c < |s.calls|
  {
    var uid := s.calls[c].uid;
    match s.calls[c].pc
    case Registering => s.(sessions := s.sessions[uid := c])
    case Replying(reply) => s.(wire := s.wire + [G.Replied(c, reply)])
    case EnterMap(u, id, _, _) => s.(uidToRoom := s.uidToRoom[u := id])
    case ReadySet(u, o) => Section(s, o, R.MarkReady(s.objs[o], u))
    case InputPush(u, raw, o) => Section(s, o, R.PushInput(s.objs[o], u, raw))
    case Stopping(o, winner, _) => Section(s, o, R.StopGame(s.objs[o], winner))
    case DestroyUnmap(_, uids, _) => if uids == [] then s else s.(uidToRoom := s.uidToRoom - {uids[0]})
    case DestroyRemove(id, _) => s.(rooms := s.rooms - {id})
    case LeaveUnmap => s.(uidToRoom := s.uidToRoom - {uid})
    case LeaveUnregister => s.(sessions := s.sessions - {uid})
    case _ => s
  }

  /** Where call `c` is after its next section; one that waits for its client stays. */
  function NextPc(s: Sys, c: nat): Pc
    requires Sound(s) && c < |s.calls|
  {
    match s.calls[c].pc
    case Registering => Reading
    case Reading => Reading
    case Replying(_) => Reading
    // EnterRoomReq
    case EnterLookup(u, id) =>
      var o := GetRoom(s, id);
      if o.Some? then EnterCheck(u, id, o.value) else Replying(NO_ROOM)
    case EnterCheck(u, id, o) => if u in s.objs[o].players then EnterSnapshot(u, id, o) else Replying(NO_ROOM)
    case EnterSnapshot(u, id, o) => EnterGetPlayer(u, id, o, R.SnapshotText(s.objs[o]))
    case EnterGetPlayer(u, id, o, text) => EnterMap(u, id, text, s.objs[o].players[u].gameId)
    case EnterMap(u, id, text, seat) => Replying(G.EnterRoomRsp(0, id, text, seat))
    // PlayerReadyReq
    case ReadyLookup(u, id) =>
      var o := GetRoom(s, id);
      if o.Some? then ReadyCheck(u, o.value) else Replying(G.PlayerReadyRsp(G.ROOM_NOT_EXIST))
    case ReadyCheck(u, o) =>
      if u in s.objs[o].players then ReadyGetPlayer(u, o) else Replying(G.PlayerReadyRsp(G.ROOM_NOT_EXIST))
    case ReadyGetPlayer(u, o) => ReadySet(u, o)
    case ReadySet(_, _) => Replying(G.PlayerReadyRsp(0))
    // PlayerFrameInput
    case InputLookup(u, raw) =>
      var o := GetRoomByUid(s, u);
      if o.Some? then InputPush(u, raw, o.value) else Reading
    case InputPush(_, _, _) => Reading
    // GameOverReq, and the tail it shares with the disconnect clean-up
    case OverLookup(u, winner) =>
      var o := GetRoomByUid(s, u);
      if o.Some? then Stopping(o.value, winner, false) else Replying(G.GameOverRsp(G.ROOM_NOT_EXIST))
    case Stopping(o, _, leaving) => DestroyLookup(s.objs[o].id, leaving)
    case DestroyLookup(id, leaving) =>
      var o := GetRoom(s, id);
      if o.Some? then DestroyMembers(id, o.value, leaving) else AfterDestroy(leaving)
    case DestroyMembers(id, o, leaving) => DestroyUnmap(id, s.objs[o].uids, leaving)
    case DestroyUnmap(id, uids, leaving) =>
      if uids == [] then DestroyRemove(id, leaving) else DestroyUnmap(id, uids[1..], leaving)
    case DestroyRemove(_, leaving) => AfterDestroy(leaving)
    // The clean-up of a stream that has ended
    case LeaveLookup =>
      var o := GetRoomByUid(s, s.calls[c].uid);
      if o.Some? then LeaveCheck(o.value) else LeaveUnmap
    case LeaveCheck(o) => if s.objs[o].phase == R.Gaming then LeaveMembers(o) else LeaveUnmap
    case LeaveMembers(o) => Stopping(o, G.OtherMember(s.objs[o].uids, s.calls[c].uid), true)
    case LeaveUnmap => LeaveUnregister
    case LeaveUnregister => Finished
    case Finished => Finished
  }

  function StepCall(s: Sys, c: nat): Sys
    requires Sound(s) && c < |s.calls|
  {
    Effect(s, c).(calls := s.calls[c := s.calls[c].(pc := NextPc(s, c))])
  }

  /** What a request makes its handler do first. */
  function Dispatch(u: uint32, cmd: G.Command): Pc {
    match cmd
    case EnterRoom(id) => EnterLookup(u, id)
    case PlayerReady(id) => ReadyLookup(u, id)
    case FrameInput(raw) => if |raw| == 6 then InputLookup(u, raw) else Reading
    case GameOverReq(winner) => OverLookup(u, winner)
    case Ignored => Reading
  }

  // ---- CreateRoom ----

  function StepCreate(s: Sys, k: nat): Sys
    requires Sound(s) && k < |s.creates|
  {
    match s.creates[k]
    case Drawing(players) =>
      var id := s.nextRoomId;
      s.(nextRoomId := RoomIds.FetchAdd(id),
         creates := s.creates[k := if id > 1_000_000_000 then Resetting(id, players) else Making(id, players)])
    case Resetting(id, players) => s.(nextRoomId := 1000, creates := s.creates[k := Making(id, players)])
    case Making(id, players) =>
      var items := if players.Elements? then players.items else [];
      if id in s.rooms then s.(creates := s.creates[k := Filling(s.rooms[id], items)])
      else s.(rooms := s.rooms[id := |s.objs|], objs := s.objs + [R.NewRoom(id)],
              creates := s.creates[k := Filling(|s.objs|, items)])
    case Filling(o, items) =>
      if items == [] || items[0].BadElement? then s.(creates := s.creates[k := Created])
      else
        var e := items[0];
        s.(objs := s.objs[o := R.AddPlayer(s.objs[o], e.uid, e.nickname, e.characterId)],
           creates := s.creates[k := Filling(o, items[1..])])
    case Created => s
  }

  // ---- RunLoop ----

  function StepLoop(s: Sys): Sys
    requires Sound(s)
  {
    assert Held(s.loop) != [] ==> Held(s.loop)[0] < |s.objs|;
    match s.loop
    case Sleeping => s
    case NextRoom(rest) =>
      if rest == [] then s.(loop := Sleeping)
      else if s.objs[rest[0]].phase == R.Gaming then s.(loop := WillTick(rest[0], rest[1..]))
      else s.(loop := NotGaming(rest[0], rest[1..]))
    case WillTick(o, rest) =>
      Section(s, o, R.Tick(s.objs[o])).(loop := NextRoom(rest),
        loopLog := if s.objs[o].phase == R.Gaming then s.loopLog + [o] else s.loopLog)
    case NotGaming(o, rest) =>
      s.(loop := if s.objs[o].phase == R.Idle then WillCheckFull(o, rest) else NextRoom(rest))
    case WillCheckFull(o, rest) =>
      s.(loop := if |s.objs[o].uids| >= 2 then WillCheckReady(o, rest) else NextRoom(rest))
    case WillCheckReady(o, rest) =>
      s.(loop := if R.AllReady(s.objs[o]) then WillStart(o, rest) else NextRoom(rest))
    case WillStart(o, rest) =>
      Section(s, o, R.StartGame(s.objs[o])).(loop := NextRoom(rest), loopLog := s.loopLog + [o])
  }

  // ---- Interleavings ----

  datatype Event =
    | Accept(uid: uint32, connId: uint32)
    | Receive(c: nat, reqUid: uint32, cmd: G.Command)
    | HangUp(c: nat)
    | CallStep(c: nat)
    | CreateCalled(players: G.PlayerList)
    | CreateStep(k: nat)
    | TakeSnapshot(order: seq<nat>)
    | LoopStep

  ghost predicate Enabled(s: Sys, e: Event) {
    match e
    case Receive(c, _, _) => c < |s.calls| && s.calls[c].pc.Reading?
    case HangUp(c) => c < |s.calls| && s.calls[c].pc.Reading?
    case CallStep(c) => c < |s.calls|
    case CreateStep(k) => k < |s.creates|
    case TakeSnapshot(order) =>
      s.loop.Sleeping? && NoDuplicates(order) && (forall o :: o in order <==> o in s.rooms.Values)
    case _ => true
  }

  ghost function Step(s: Sys, e: Event): Sys
    requires Sound(s) && Enabled(s, e)
  {
    match e
    case Accept(uid, connId) => s.(calls := s.calls + [Call(uid, connId, Registering)])
    case Receive(c, u, cmd) => Goto(s, c, Dispatch(u, cmd))
    case HangUp(c) => Goto(s, c, LeaveLookup)
    case CallStep(c) => StepCall(s, c)
    case CreateCalled(players) => s.(creates := s.creates + [Drawing(players)])
    case CreateStep(k) => StepCreate(s, k)
    case TakeSnapshot(order) => s.(loop := NextRoom(order))
    case LoopStep => StepLoop(s)
  }

  // ---- Soundness ----

  lemma GotoKeepsSound(s: Sys, c: nat, pc: Pc)
    requires Sound(s) && c < |s.calls| && PcSound(s.objs, pc)
    ensures Sound(Goto(s, c, pc))
  {
    hide R.WellFormed, PcSound;
  }

  lemma PcSoundLater(objs: seq<R.RoomView>, objs': seq<R.RoomView>, pc: Pc)
    requires PcSound(objs, pc) && |objs| <= |objs'|
    requires forall o, u | 0 <= o < |objs| && u in objs[o].players :: u in objs'[o].players
    ensures PcSound(objs', pc)
  {
  }

  /** Room objects may grow in number and in players. */
  lemma ObjsGrow(s: Sys, objs: seq<R.RoomView>)
    requires Sound(s) && |s.objs| <= |objs|
    requires forall o | 0 <= o < |objs| :: R.WellFormed(objs[o])
    requires forall o | 0 <= o < |s.objs| :: objs[o].id == s.objs[o].id
    requires forall o, u | 0 <= o < |s.objs| && u in s.objs[o].players :: u in objs[o].players
    ensures Sound(s.(objs := objs))
  {
    forall c | 0 <= c < |s.calls|
      ensures PcSound(objs, s.calls[c].pc)
    {
      PcSoundLater(s.objs, objs, s.calls[c].pc);
    }
    hide R.WellFormed, PcSound, Held;
  }

  lemma ObjChanges(s: Sys, o: nat, e: R.RoomEvent)
    requires Sound(s) && o < |s.objs|
    ensures Sound(s.(objs := s.objs[o := R.Apply(s.objs[o], e)]))
  {
    R.ApplyKeepsWellFormed(s.objs[o], e);
    hide R.WellFormed, R.Apply;
    ObjsGrow(s, s.objs[o := R.Apply(s.objs[o], e)]);
  }

  lemma SectionKeepsSound(s: Sys, o: nat, e: R.RoomEvent)
    requires Sound(s) && o < |s.objs|
    ensures Sound(Section(s, o, R.Apply(s.objs[o], e)))
    ensures forall u | u in s.objs[o].players :: u in R.Apply(s.objs[o], e).players
  {
    R.ApplyKeepsWellFormed(s.objs[o], e);
    ObjChanges(s, o, e);
    hide R.WellFormed, R.Apply, PcSound, Held;
  }

  lemma TablesKeepSound(s: Sys, s': Sys)
    requires Sound(s)
    requires s'.objs == s.objs && s'.calls == s.calls && s'.creates == s.creates && s'.loop == s.loop
    requires forall id | id in s'.rooms :: id in s.rooms && s'.rooms[id] == s.rooms[id]
    ensures Sound(s')
  {
    hide R.WellFormed, PcSound, Held;
  }

  /** The room event a call's section is, if it is a room's section. */
  ghost function RoomEventOf(pc: Pc): Option<R.RoomEvent> {
    match pc
    case ReadySet(u, _) => Some(R.Ready(u))
    case InputPush(u, raw, _) => Some(R.Input(u, raw))
    case Stopping(_, winner, _) => Some(R.Finish(winner))
    case _ => None
  }

  lemma EffectIsSection(s: Sys, c: nat)
    requires Sound(s) && c < |s.calls| && RoomEventOf(s.calls[c].pc).Some?
    ensures var pc := s.calls[c].pc;
      && Pointer(pc).Some? && Pointer(pc).value < |s.objs|
      && Effect(s, c) == Section(s, Pointer(pc).value, R.Apply(s.objs[Pointer(pc).value], RoomEventOf(pc).value))
  {
    hide R.WellFormed, Section, Held, R.StopGame, R.PushInput, R.MarkReady;
    SoundPc(s, c);
    match s.calls[c].pc
    case ReadySet(_, _) =>
    case InputPush(_, _, _) =>
    case Stopping(_, _, _) =>
    case _ =>
  }

  lemma SoundPc(s: Sys, c: nat)
    requires Sound(s) && c < |s.calls|
    ensures PcSound(s.objs, s.calls[c].pc)
  {
  }

  lemma EffectShrinksRooms(s: Sys, c: nat)
    requires Sound(s) && c < |s.calls|
    ensures Effect(s, c).rooms == match s.calls[c].pc case DestroyRemove(id, _) => s.rooms - {id} case _ => s.rooms
  {
    hide R.WellFormed, PcSound, Held, R.StopGame, R.PushInput, R.MarkReady, G.Sends;
  }

  /** Sections outside the rooms leave the objects alone and never add to the table. */
  lemma EffectOnTables(s: Sys, c: nat)
    requires Sound(s) && c < |s.calls| && RoomEventOf(s.calls[c].pc) == None
    ensures var s' := Effect(s, c);
      && s'.objs == s.objs && s'.calls == s.calls && s'.creates == s.creates
      && s'.loop == s.loop && s'.loopLog == s.loopLog
      && forall id | id in s'.rooms :: id in s.rooms && s'.rooms[id] == s.rooms[id]
  {
    EffectShrinksRooms(s, c);
    hide R.WellFormed, PcSound, Held, Section, R.StopGame, R.PushInput, R.MarkReady;
  }

  lemma EffectKeepsSound(s: Sys, c: nat)
    requires Sound(s) && c < |s.calls|
    ensures Sound(Effect(s, c)) && Effect(s, c).calls == s.calls
    ensures |Effect(s, c).objs| == |s.objs|
    ensures forall o, u | 0 <= o < |s.objs| && u in s.objs[o].players :: u in Effect(s, c).objs[o].players
  {
    var pc := s.calls[c].pc;
    if RoomEventOf(pc).Some? {
      EffectIsSection(s, c);
      SectionKeepsSound(s, Pointer(pc).value, RoomEventOf(pc).value);
      hide Effect, Sound, R.Apply, R.WellFormed;
    } else {
      EffectOnTables(s, c);
      hide Effect, Sound;
      TablesKeepSound(s, Effect(s, c));
    }
  }

  lemma NextPcSound(s: Sys, c: nat)
    requires Sound(s) && c < |s.calls|
    ensures PcSound(s.objs, NextPc(s, c))
  {
    assert PcSound(s.objs, s.calls[c].pc);
    hide R.WellFormed, Held, R.SnapshotText, G.OtherMember;
  }

  lemma CallKeepsSound(s: Sys, c: nat)
    requires Sound(s) && c < |s.calls|
    ensures Sound(StepCall(s, c))
  {
    EffectKeepsSound(s, c);
    NextPcSound(s, c);
    hide Sound, PcSound, NextPc, Effect;
    PcSoundLater(s.objs, Effect(s, c).objs, NextPc(s, c));
    GotoKeepsSound(Effect(s, c), c, NextPc(s, c));
  }

  lemma MakingKeepsSound(s: Sys, k: nat, id: int32, items: seq<G.Element>)
    requires Sound(s) && k < |s.creates| && id !in s.rooms
    ensures Sound(s.(rooms := s.rooms[id := |s.objs|], objs := s.objs + [R.NewRoom(id)],
                     creates := s.creates[k := Filling(|s.objs|, items)]))
  {
    var objs := s.objs + [R.NewRoom(id)];
    ObjsGrow(s, objs);
    assert objs[|s.objs|].id == id;
    hide R.WellFormed, PcSound, Held, R.NewRoom;
  }

  lemma CreateKeepsSound(s: Sys, k: nat)
    requires Sound(s) && k < |s.creates|
    ensures Sound(StepCreate(s, k))
  {
    match s.creates[k]
    case Filling(o, items) =>
      if items != [] && items[0].Element? {
        var e := R.Enroll(items[0].uid, items[0].nickname, items[0].characterId);
        ObjChanges(s, o, e);
        var s1 := s.(objs := s.objs[o := R.Apply(s.objs[o], e)]);
        hide R.WellFormed, PcSound, Held, R.AddPlayer;
        assert StepCreate(s, k) == s1.(creates := s.creates[k := Filling(o, items[1..])]);
      }
    case Making(id, players) =>
      if id !in s.rooms {
        MakingKeepsSound(s, k, id, if players.Elements? then players.items else []);
      }
      hide R.WellFormed, PcSound, Held, R.NewRoom;
    case _ =>
      hide R.WellFormed, PcSound, Held;
  }

  lemma LoopBroadcastKeepsSound(s: Sys, o: nat, rest: seq<nat>, e: R.RoomEvent, log: seq<nat>)
    requires Sound(s) && o < |s.objs| && Held(s.loop) == [o] + rest
    ensures Sound(Section(s, o, R.Apply(s.objs[o], e)).(loop := NextRoom(rest), loopLog := log))
  {
    SectionKeepsSound(s, o, e);
    var s1 := Section(s, o, R.Apply(s.objs[o], e));
    assert s1.loop == s.loop && Held(s.loop)[1..] == rest;
    hide Sound, R.Apply, Section;
    LoopMoves(s1, NextRoom(rest), log);
  }

  lemma LoopKeepsSound(s: Sys)
    requires Sound(s)
    ensures Sound(StepLoop(s))
  {
    hide Sound, Section, R.Tick, R.StartGame, R.AllReady, R.WellFormed;
    FirstHeld(s);
    match s.loop
    case WillTick(o, rest) =>
      LoopBroadcastKeepsSound(s, o, rest, R.Ticked, StepLoop(s).loopLog);
    case WillStart(o, rest) =>
      LoopBroadcastKeepsSound(s, o, rest, R.Begin, StepLoop(s).loopLog);
    case _ =>
      LoopVisitMoves(s);
      hide Held, StepLoop;
      LoopMoves(s, StepLoop(s).loop, s.loopLog);
  }

  /** A step of the loop that broadcasts nothing only moves the loop. */
  lemma LoopVisitMoves(s: Sys)
    requires Sound(s) && !s.loop.WillTick? && !s.loop.WillStart?
    ensures var l := StepLoop(s).loop;
      StepLoop(s) == s.(loop := l) && (Held(l) == Held(s.loop) || (Held(s.loop) != [] && Held(l) == Held(s.loop)[1..]))
  {
    hide Sound, R.WellFormed, PcSound, R.AllReady, R.Tick, R.StartGame, Section;
    FirstHeld(s);
    match s.loop
    case Sleeping =>
    case NextRoom(rest) =>
      assert rest != [] ==> [rest[0]] + rest[1..] == rest;
    case NotGaming(o, rest) =>
      assert ([o] + rest)[1..] == rest;
    case WillCheckFull(o, rest) =>
      assert ([o] + rest)[1..] == rest;
    case WillCheckReady(o, rest) =>
      assert ([o] + rest)[1..] == rest;
  }

  lemma FirstHeld(s: Sys)
    requires Sound(s)
    ensures Held(s.loop) != [] ==> Held(s.loop)[0] < |s.objs|
  {
  }

  /** The loop only ever drops objects from the front of what it holds. */
  lemma LoopMoves(s: Sys, l: LoopPc, log: seq<nat>)
    requires Sound(s) && (Held(l) == Held(s.loop) || (Held(s.loop) != [] && Held(l) == Held(s.loop)[1..]))
    ensures Sound(s.(loop := l, loopLog := log))
  {
    hide R.WellFormed, PcSound, Held;
  }

  lemma StepKeepsSound(s: Sys, e: Event)
    requires Sound(s) && Enabled(s, e)
    ensures Sound(Step(s, e))
  {
    match e
    case Receive(c, u, cmd) => GotoKeepsSound(s, c, Dispatch(u, cmd));
    case HangUp(c) => GotoKeepsSound(s, c, LeaveLookup);
    case CallStep(c) => CallKeepsSound(s, c);
    case CreateStep(k) => CreateKeepsSound(s, k);
    case TakeSnapshot(order) =>
      hide R.WellFormed, PcSound;
      forall i | 0 <= i < |order|
        ensures order[i] < |s.objs|
      {
        assert order[i] in order;
      }
    case LoopStep => LoopKeepsSound(s);
    case _ =>
      hide R.WellFormed, Held;
  }

  ghost predicate CanRun(s: Sys, es: seq<Event>)
    requires Sound(s)
    decreases |es|
  {
    es == [] || (Enabled(s, es[0]) && (StepKeepsSound(s, es[0]); CanRun(Step(s, es[0]), es[1..])))
  }

  ghost function Run(s: Sys, es: seq<Event>): (s': Sys)
    requires Sound(s) && CanRun(s, es)
    ensures Sound(s')
    decreases |es|
  {
    if es == [] then s else (StepKeepsSound(s, es[0]); Run(Step(s, es[0]), es[1..]))
  }

  // ---- Sessions ----

  /** A call never goes back to registering, and finishes only by unregistering. */
  lemma NextPcServes(s: Sys, c: nat)
    requires Sound(s) && c < |s.calls|
    ensures !NextPc(s, c).Registering?
    ensures NextPc(s, c).Finished? ==> s.calls[c].pc.LeaveUnregister? || s.calls[c].pc.Finished?
  {
    hide R.WellFormed, PcSound, Held, R.SnapshotText, G.OtherMember;
  }

  lemma EffectOnSessions(s: Sys, c: nat)
    requires Sound(s) && c < |s.calls|
    ensures Effect(s, c).sessions ==
      match s.calls[c].pc
      case Registering => s.sessions[s.calls[c].uid := c]
      case LeaveUnregister => s.sessions - {s.calls[c].uid}
      case _ => s.sessions
  {
    hide R.WellFormed, PcSound, Held, R.StopGame, R.PushInput, R.MarkReady, G.Sends;
  }

  lemma CallKeepsSessionsServed(s: Sys, c: nat)
    requires Sound(s) && SessionsServed(s) && c < |s.calls|
    ensures SessionsServed(StepCall(s, c))
  {
    NextPcServes(s, c);
    EffectOnSessions(s, c);
    hide NextPc, Effect, Sound;
  }

  lemma StepKeepsSessionsServed(s: Sys, e: Event)
    requires Sound(s) && SessionsServed(s) && Enabled(s, e)
    ensures SessionsServed(Step(s, e))
  {
    match e
    case CallStep(c) =>
      CallKeepsSessionsServed(s, c);
      hide StepCall, Sound, SessionsServed;
    case LoopStep =>
      LoopKeepsTable(s);
      hide StepLoop, Sound;
    case CreateStep(k) =>
      CreateKeepsCalls(s, k);
      hide StepCreate, Sound;
    case _ =>
      hide Sound;
  }

  lemma CreateKeepsCalls(s: Sys, k: nat)
    requires Sound(s) && k < |s.creates|
    ensures StepCreate(s, k).sessions == s.sessions && StepCreate(s, k).calls == s.calls
  {
    hide R.WellFormed, PcSound, Held, R.AddPlayer;
  }

  /** Everything in `wire` beyond `s.wire` went to a call that has not finished. */
  ghost predicate WritesToUnfinished(s: Sys, wire: seq<G.Delivery>) {
    s.wire <= wire &&
    forall i | |s.wire| <= i < |wire| :: wire[i].stream < |s.calls| && !s.calls[wire[i].stream].pc.Finished?
  }

  // ---- The loop after a room's removal ----

  /** Room object `o` exists and is not in the table. */
  ghost predicate Removed(s: Sys, o: nat) {
    o < |s.objs| && o !in s.rooms.Values
  }

  /** How many starts and frames the loop has broadcast for `o`. */
  ghost function Issued(log: seq<nat>, o: nat): nat {
    if log == [] then 0 else Issued(log[..|log| - 1], o) + if log[|log| - 1] == o then 1 else 0
  }

  /** What the loop may still broadcast for `o` once it is out of the table. */
  ghost function Budget(s: Sys, o: nat): nat {
    Issued(s.loopLog, o) + if o in Held(s.loop) then 1 else 0
  }

  lemma IssuedAppend(log: seq<nat>, x: nat, o: nat)
    ensures Issued(log + [x], o) == Issued(log, o) + if x == o then 1 else 0
  {
    assert (log + [x])[..|log|] == log;
  }

  lemma LoopSpendsBudget(s: Sys, o: nat)
    requires Sound(s)
    ensures Budget(StepLoop(s), o) <= Budget(s, o)
  {
    hide R.WellFormed, PcSound, Issued, R.Tick, R.StartGame, R.AllReady;
    match s.loop
    case WillTick(p, rest) =>
      assert Held(s.loop)[0] == p && Held(s.loop)[1..] == rest && p !in rest;
      IssuedAppend(s.loopLog, p, o);
    case WillStart(p, rest) =>
      assert Held(s.loop)[0] == p && Held(s.loop)[1..] == rest && p !in rest;
      IssuedAppend(s.loopLog, p, o);
    case NextRoom(rest) =>
      assert rest != [] ==> [rest[0]] + rest[1..] == rest;
    case _ =>
  }

  lemma TableShrinks(s: Sys, c: nat)
    requires Sound(s) && c < |s.calls|
    ensures |Effect(s, c).objs| == |s.objs| && Effect(s, c).loop == s.loop && Effect(s, c).loopLog == s.loopLog
    ensures forall id | id in Effect(s, c).rooms :: id in s.rooms && Effect(s, c).rooms[id] == s.rooms[id]
  {
    if RoomEventOf(s.calls[c].pc).Some? {
      EffectIsSection(s, c);
      hide Effect, R.Apply, R.WellFormed, G.Sends;
    } else {
      EffectOnTables(s, c);
    }
  }

  lemma LoopKeepsTable(s: Sys)
    requires Sound(s)
    ensures StepLoop(s).rooms == s.rooms && |StepLoop(s).objs| == |s.objs|
    ensures StepLoop(s).sessions == s.sessions && StepLoop(s).calls == s.calls
    ensures StepLoop(s).creates == s.creates && StepLoop(s).nextRoomId == s.nextRoomId
  {
    hide R.WellFormed, PcSound, R.AllReady, R.Tick, R.StartGame, G.Sends;
    assert Held(s.loop) != [] ==> Held(s.loop)[0] < |s.objs|;
  }

  lemma RemovedStays(s: Sys, e: Event, o: nat)
    requires Sound(s) && Enabled(s, e) && Removed(s, o)
    ensures Removed(Step(s, e), o) && Budget(Step(s, e), o) <= Budget(s, o)
  {
    match e
    case CallStep(c) =>
      TableShrinks(s, c);
      hide Effect, NextPc, Sound, Issued;
    case LoopStep =>
      LoopSpendsBudget(s, o);
      LoopKeepsTable(s);
      hide Budget, Sound, StepLoop;
    case TakeSnapshot(order) =>
      assert o !in order;
    case _ =>
      hide R.WellFormed, PcSound, R.AddPlayer, Issued;
  }

  // ---- Writes ----

  lemma SectionWrites(s: Sys, o: nat, r: R.RoomView)
    requires Sound(s) && SessionsServed(s) && o < |s.objs|
    ensures WritesToUnfinished(s, Section(s, o, r).wire)
  {
    if |r.casts| > |s.objs[o].casts| {
      SendsUseSessions(s.sessions, r.uids, o, r.casts[|r.casts| - 1]);
      hide Sound, G.Fanout;
      var wire, sent := Section(s, o, r).wire, G.Fanout(s.sessions, r.uids, o, r.casts[|r.casts| - 1]);
      assert wire == s.wire + sent;
      forall i | |s.wire| <= i < |wire|
        ensures wire[i].stream < |s.calls| && !s.calls[wire[i].stream].pc.Finished?
      {
        assert wire[i] in sent;
      }
    }
  }

  lemma {:induction false} SendsUseSessions(sessions: map<uint32, nat>, uids: seq<uint32>, o: nat, cast: R.Cast)
    ensures forall d | d in G.Fanout(sessions, uids, o, cast) :: exists u :: u in sessions && d.stream == sessions[u]
  {
    if uids != [] {
      SendsUseSessions(sessions, uids[1..], o, cast);
    }
  }

  lemma EffectWrites(s: Sys, c: nat)
    requires Sound(s) && SessionsServed(s) && c < |s.calls|
    ensures WritesToUnfinished(s, Effect(s, c).wire)
  {
    var pc := s.calls[c].pc;
    if RoomEventOf(pc).Some? {
      EffectIsSection(s, c);
      SectionWrites(s, Pointer(pc).value, R.Apply(s.objs[Pointer(pc).value], RoomEventOf(pc).value));
      hide Effect, Sound, Section;
    } else {
      hide R.WellFormed, PcSound, Held, Section, R.StopGame, R.PushInput, R.MarkReady;
    }
  }

  lemma StepWrites(s: Sys, e: Event)
    requires Sound(s) && SessionsServed(s) && Enabled(s, e)
    ensures WritesToUnfinished(s, Step(s, e).wire)
  {
    match e
    case CallStep(c) => EffectWrites(s, c);
    case LoopStep =>
      if s.loop.WillTick? {
        assert Held(s.loop)[0] == s.loop.o;
        SectionWrites(s, s.loop.o, R.Tick(s.objs[s.loop.o]));
      }
      if s.loop.WillStart? {
        assert Held(s.loop)[0] == s.loop.o;
        SectionWrites(s, s.loop.o, R.StartGame(s.objs[s.loop.o]));
      }
      hide Section, R.WellFormed, PcSound, R.AllReady, R.Tick, R.StartGame;
    case _ =>
      hide R.WellFormed, PcSound, Held, R.AddPlayer;
  }

  lemma FinishedStays(s: Sys, e: Event, c: nat)
    requires Sound(s) && Enabled(s, e) && c < |s.calls| && s.calls[c].pc.Finished?
    ensures c < |Step(s, e).calls| && Step(s, e).calls[c].pc.Finished?
  {
    match e
    case CallStep(d) =>
      hide Effect, Sound;
    case LoopStep =>
      LoopKeepsTable(s);
      hide StepLoop, Sound;
    case _ =>
      hide R.WellFormed, PcSound, Held, R.AddPlayer;
  }

  /** In every interleaving of any number of calls, several for one player included,
      every registered stream belongs to a call that has not finished. */
  lemma {:induction false} NoRegisteredStreamOutlivesItsCall(s: Sys, es: seq<Event>)
    requires Sound(s) && SessionsServed(s) && CanRun(s, es)
    ensures SessionsServed(Run(s, es))
    decreases |es|
  {
    if es != [] {
      StepKeepsSound(s, es[0]);
      StepKeepsSessionsServed(s, es[0]);
      hide Sound, SessionsServed, Step, Enabled;
      NoRegisteredStreamOutlivesItsCall(Step(s, es[0]), es[1..]);
    }
  }

  /** So nothing is ever written to the stream of a call that has finished. */
  lemma {:induction false} FinishedCallIsSilent(s: Sys, es: seq<Event>, c: nat)
    requires Sound(s) && SessionsServed(s) && CanRun(s, es) && c < |s.calls| && s.calls[c].pc.Finished?
    ensures s.wire <= Run(s, es).wire
    ensures forall i | |s.wire| <= i < |Run(s, es).wire| :: Run(s, es).wire[i].stream != c
    decreases |es|
  {
    if es != [] {
      StepKeepsSound(s, es[0]);
      StepKeepsSessionsServed(s, es[0]);
      StepWrites(s, es[0]);
      FinishedStays(s, es[0], c);
      hide Sound, SessionsServed, Step, Enabled;
      FinishedCallIsSilent(Step(s, es[0]), es[1..], c);
    }
  }

  lemma InitSound()
    ensures Sound(Init()) && SessionsServed(Init())
  {
  }

  // ---- The id counter ----

  /** The `CreateRoom` calls that have drawn an id and still owe the reset. */
  ghost function Owed(creates: seq<CreatePc>): nat {
    if creates == [] then 0 else (if creates[0].Resetting? then 1 else 0) + Owed(creates[1..])
  }

  lemma {:induction false} OwedUpdate(creates: seq<CreatePc>, k: nat, pc: CreatePc)
    requires k < |creates|
    ensures Owed(creates[k := pc])
         == Owed(creates) - (if creates[k].Resetting? then 1 else 0) + if pc.Resetting? then 1 else 0
  {
    if k > 0 {
      assert creates[k := pc][1..] == creates[1..][k - 1 := pc];
      OwedUpdate(creates[1..], k - 1, pc);
    } else {
      assert creates[k := pc][1..] == creates[1..];
    }
  }

  lemma {:induction false} OwedAppend(creates: seq<CreatePc>, pc: CreatePc)
    requires !pc.Resetting?
    ensures Owed(creates + [pc]) == Owed(creates)
  {
    if creates != [] {
      assert (creates + [pc])[1..] == creates[1..] + [pc];
      OwedAppend(creates[1..], pc);
    } else {
      assert [pc][1..] == [] && creates + [pc] == [pc];
    }
  }

  ghost predicate CounterBounded(s: Sys) {
    RoomIds.Bounded(RoomIds.Counter(s.nextRoomId, Owed(s.creates), []))
  }

  lemma CreateKeepsCounter(s: Sys, k: nat)
    requires Sound(s) && CounterBounded(s) && k < |s.creates|
    requires Owed(StepCreate(s, k).creates) <= RoomIds.MAX_PENDING
    ensures CounterBounded(StepCreate(s, k))
  {
    hide Owed, R.AddPlayer, R.NewRoom, R.WellFormed, PcSound;
    var s' := StepCreate(s, k);
    OwedUpdate(s.creates, k, s'.creates[k]);
    assert s'.creates == s.creates[k := s'.creates[k]];
    hide Sound;
  }

  lemma StepKeepsCounter(s: Sys, e: Event)
    requires Sound(s) && CounterBounded(s) && Enabled(s, e)
    requires Owed(Step(s, e).creates) <= RoomIds.MAX_PENDING
    ensures CounterBounded(Step(s, e))
  {
    match e
    case CreateStep(k) => CreateKeepsCounter(s, k);
    case CreateCalled(players) => OwedAppend(s.creates, Drawing(players));
    case CallStep(c) =>
      EffectKeepsCounter(s, c);
      hide Effect, NextPc, Sound, Owed;
    case LoopStep =>
      LoopKeepsTable(s);
      hide StepLoop, Sound, Owed;
    case _ =>
      hide Sound, Owed;
  }

  lemma EffectKeepsCounter(s: Sys, c: nat)
    requires Sound(s) && c < |s.calls|
    ensures Effect(s, c).nextRoomId == s.nextRoomId && Effect(s, c).creates == s.creates
  {
    hide R.WellFormed, Held, R.StopGame, R.PushInput, R.MarkReady, G.Sends;
  }

  /** No state of the run owes more resets than the counter has room for. */
  ghost predicate FewOwed(s: Sys, es: seq<Event>)
    requires Sound(s) && CanRun(s, es)
    decreases |es|
  {
    Owed(s.creates) <= RoomIds.MAX_PENDING &&
    (es == [] || (StepKeepsSound(s, es[0]); FewOwed(Step(s, es[0]), es[1..])))
  }

  /** The counter of the interleaved server never overflows: it stays between 1000 and
      1000000001 plus the resets owed, as long as those number at most 1147483646. */
  lemma {:induction false} RealCounterBounded(s: Sys, es: seq<Event>)
    requires Sound(s) && CounterBounded(s) && CanRun(s, es) && FewOwed(s, es)
    ensures CounterBounded(Run(s, es))
    decreases |es|
  {
    if es != [] {
      StepKeepsSound(s, es[0]);
      StepKeepsCounter(s, es[0]);
      hide Sound, CounterBounded, Step, Enabled;
      RealCounterBounded(Step(s, es[0]), es[1..]);
    }
  }

  // ---- What holds only request by request ----

  lemma RunTwo(s: Sys, e1: Event, e2: Event)
    requires Sound(s) && Enabled(s, e1) && (StepKeepsSound(s, e1); Enabled(Step(s, e1), e2))
    ensures Sound(Step(s, e1)) && CanRun(s, [e1, e2]) && Run(s, [e1, e2]) == Step(Step(s, e1), e2)
  {
    StepKeepsSound(s, e1);
    var s1 := Step(s, e1);
    StepKeepsSound(s1, e2);
    hide Sound, Step, Enabled;
    assert [e1, e2][1..] == [e2] && [e2][1..] == [];
    assert CanRun(Step(s1, e2), []);
    assert CanRun(s1, [e2]) && Run(s1, [e2]) == Step(s1, e2);
  }

  lemma StopEffect(s: Sys, c: nat)
    requires Sound(s) && c < |s.calls| && s.calls[c].pc.Stopping?
    ensures var pc := s.calls[c].pc;
      && pc.o < |s.objs| && Effect(s, c).objs == s.objs[pc.o := R.StopGame(s.objs[pc.o], pc.winner)]
      && Effect(s, c).loop == s.loop && Effect(s, c).rooms == s.rooms
  {
    assert PcSound(s.objs, s.calls[c].pc);
  }

  lemma StartEffect(s: Sys, o: nat, rest: seq<nat>)
    requires Sound(s) && s.loop == WillStart(o, rest)
    ensures o < |s.objs| && StepLoop(s).objs == s.objs[o := R.StartGame(s.objs[o])]
  {
    assert Held(s.loop)[0] == o;
    hide R.WellFormed, PcSound, R.StartGame, G.Sends;
  }

  lemma StopThenStart(r: R.RoomView, winner: uint32)
    ensures var r' := R.StartGame(R.StopGame(r, winner));
      r'.phase == R.Gaming && r'.casts == r.casts + [R.GameOver(r.id, winner), R.GameStart(r.id)]
  {
  }

  /** Between the loop's ready check and its start, a stop can come in: the room then
      announces its verdict first and its start second, and is left gaming. */
  lemma StaleStart(s: Sys, c: nat, o: nat, winner: uint32, rest: seq<nat>)
    requires Sound(s) && c < |s.calls| && o < |s.objs|
    requires s.loop == WillStart(o, rest) && s.calls[c].pc == Stopping(o, winner, false)
    ensures CanRun(s, [CallStep(c), LoopStep])
    ensures var s' := Run(s, [CallStep(c), LoopStep]);
      && |s'.objs| == |s.objs| && s'.objs[o].phase == R.Gaming
      && s'.objs[o].casts == s.objs[o].casts + [R.GameOver(s.objs[o].id, winner), R.GameStart(s.objs[o].id)]
  {
    hide Sound, Effect, NextPc, Run, CanRun, PcSound, R.WellFormed, R.StopGame, R.StartGame, StepLoop;
    StopEffect(s, c);
    var s1 := Step(s, CallStep(c));
    StepKeepsSound(s, CallStep(c));
    assert s1.loop == s.loop && s1.objs == s.objs[o := R.StopGame(s.objs[o], winner)];
    hide StepCall;
    StartEffect(s1, o, rest);
    RunTwo(s, CallStep(c), LoopStep);
    StopThenStart(s.objs[o], winner);
  }

  /** Between a room's lookup and its mapping, the room can go: the player is then
      mapped to an id that names no room. */
  lemma LateMapping(s: Sys, c: nat, d: nat, u: uint32, id: int32, text: string, seat: int)
    requires Sound(s) && c < |s.calls| && d < |s.calls| && c != d
    requires s.calls[c].pc == EnterMap(u, id, text, seat) && s.calls[d].pc == DestroyRemove(id, false)
    ensures CanRun(s, [CallStep(d), CallStep(c)])
    ensures var s' := Run(s, [CallStep(d), CallStep(c)]);
      u in s'.uidToRoom && s'.uidToRoom[u] == id && id !in s'.rooms
  {
    hide Sound, Run, CanRun, PcSound, R.WellFormed, NextPc, Effect;
    RemoveEffect(s, d);
    var s1 := Step(s, CallStep(d));
    StepKeepsSound(s, CallStep(d));
    assert s1.calls[c] == s.calls[c] && id !in s1.rooms;
    RunTwo(s, CallStep(d), CallStep(c));
    MapEffect(s1, c);
  }

  lemma RemoveEffect(s: Sys, d: nat)
    requires Sound(s) && d < |s.calls| && s.calls[d].pc.DestroyRemove?
    ensures Effect(s, d) == s.(rooms := s.rooms - {s.calls[d].pc.id})
  {
    hide R.WellFormed, PcSound, Held;
  }

  lemma MapEffect(s: Sys, c: nat)
    requires Sound(s) && c < |s.calls| && s.calls[c].pc.EnterMap?
    ensures Effect(s, c) == s.(uidToRoom := s.uidToRoom[s.calls[c].pc.u := s.calls[c].pc.id])
  {
    hide R.WellFormed, PcSound, Held;
  }
}
