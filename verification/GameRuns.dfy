/** What every run of the game server keeps, at request granularity. */
module GameRuns {
  import opened Types
  import R = RoomModel
  import opened GameModel

  /** Every event of `es` is possible when its turn comes. */
  ghost predicate CanRun(w: World, es: seq<Event>)
    requires Inv(w)
    decreases |es|
  {
    es == [] ||
    (Enabled(w, es[0]) && (StepKeepsInv(w, es[0]); CanRun(Step(w, es[0]), es[1..])))
  }

  ghost function Run(w: World, es: seq<Event>): (w': World)
    requires Inv(w) && CanRun(w, es)
    ensures Inv(w')
    decreases |es|
  {
    if es == [] then w else (StepKeepsInv(w, es[0]); Run(Step(w, es[0]), es[1..]))
  }

  // ---- The room objects of a run are rooms of RoomModel ----

  /** What one step of the server means to room object `o`. */
  ghost function Project(w: World, e: Event, o: nat): seq<R.RoomEvent>
    requires Inv(w) && Enabled(w, e) && o < |w.objs|
  {
    match e
    case CreateRoomCall(l) =>
      if GetRoom(w, w.nextRoomId) == Some(o) && l.Elements? then Enrolments(l.items) else []
    case Request(_, uid, PlayerReady(id)) =>
      if GetRoom(w, id) == Some(o) && uid in w.objs[o].players then [R.Ready(uid)] else []
    case Request(_, uid, FrameInput(payload)) =>
      if GetRoomByUid(w, uid) == Some(o) && |payload| == 6 then [R.Input(uid, payload)] else []
    case Request(_, uid, GameOverReq(winner)) =>
      if GetRoomByUid(w, uid) == Some(o) then [R.Finish(winner)] else []
    case StreamClosed(s) =>
      var uid := w.streams[s].uid;
      if GetRoomByUid(w, uid) == Some(o) && w.objs[o].phase == R.Gaming
      then [R.Finish(OtherMember(w.objs[o].uids, uid))] else []
    case Turn =>
      if w.pending[0] != o then []
      else if w.objs[o].phase == R.Gaming then [R.Ticked]
      else if R.AllReady(w.objs[o]) then [R.Begin]
      else []
    case _ => []
  }

  lemma CreateProjects(w: World, l: PlayerList, o: nat)
    requires Inv(w) && o < |w.objs|
    ensures |w.objs| <= |CreateRoom(w, l).0.objs|
    ensures CreateRoom(w, l).0.objs[o] == R.Run(w.objs[o], Project(w, CreateRoomCall(l), o))
  {
    assert R.Run(w.objs[o], []) == w.objs[o];
    AddAllKeeps(w.objs[o], if l.BadText? then [] else l.items);
    hide Life, R.WellFormed, R.Run, Consistent;
  }

  lemma StopObjs(w: World, o: nat, winner: uint32)
    requires Registered(w) && o < |w.objs|
    ensures var w1 := Update(w, o, R.StopGame(w.objs[o], winner));
      w1.rooms == w.rooms && |w1.objs| == |w.objs|
      && Destroy(w1, w.objs[o].id).objs == w.objs[o := R.StopGame(w.objs[o], winner)]
  {
    hide R.WellFormed, Fanout, R.StopGame, Unmap;
  }

  lemma EnterProjects(w: World, s: nat, uid: uint32, id: int32, o: nat)
    requires Inv(w) && o < |w.objs| && s < |w.streams| && w.streams[s].open
    ensures |w.objs| == |Handle(w, s, uid, EnterRoom(id)).objs|
    ensures Handle(w, s, uid, EnterRoom(id)).objs[o] == R.Run(w.objs[o], Project(w, Request(s, uid, EnterRoom(id)), o))
  {
    assert R.Run(w.objs[o], []) == w.objs[o];
    hide R.Run, Life, R.WellFormed, Consistent, R.SnapshotText;
  }

  lemma ReadyProjects(w: World, s: nat, uid: uint32, id: int32, o: nat)
    requires Inv(w) && o < |w.objs| && s < |w.streams| && w.streams[s].open
    ensures |w.objs| == |Handle(w, s, uid, PlayerReady(id)).objs|
    ensures Handle(w, s, uid, PlayerReady(id)).objs[o]
         == R.Run(w.objs[o], Project(w, Request(s, uid, PlayerReady(id)), o))
  {
    assert R.Run(w.objs[o], []) == w.objs[o];
    RunOne(w.objs[o], R.Ready(uid));
    hide R.Run, Life, R.WellFormed, Consistent, R.MarkReady, Fanout;
  }

  lemma InputObjs(w: World, s: nat, uid: uint32, payload: seq<byte>)
    requires Inv(w)
    ensures var p, objs := GetRoomByUid(w, uid), Handle(w, s, uid, FrameInput(payload)).objs;
      objs == if p.Some? && p.value < |w.objs| && |payload| == 6
              then w.objs[p.value := R.PushInput(w.objs[p.value], uid, payload)] else w.objs
  {
    if uid in w.uidToRoom {
      MappedRoomHasPlayers(w, uid);
    }
    hide Life, R.WellFormed, Consistent, R.PushInput, Sends;
  }

  lemma InputProjects(w: World, s: nat, uid: uint32, payload: seq<byte>, o: nat)
    requires Inv(w) && o < |w.objs| && s < |w.streams| && w.streams[s].open
    ensures |w.objs| == |Handle(w, s, uid, FrameInput(payload)).objs|
    ensures Handle(w, s, uid, FrameInput(payload)).objs[o]
         == R.Run(w.objs[o], Project(w, Request(s, uid, FrameInput(payload)), o))
  {
    SoundRoom(w, o);
    InputObjs(w, s, uid, payload);
    hide Inv, R.Run, R.WellFormed, R.PushInput, Handle;
    EmptyRun(w.objs[o]);
    RunOne(w.objs[o], R.Input(uid, payload));
  }

  /** Stopping the room found for `uid` is that room's Finish event and nobody else's. */
  lemma StopProjects(w: World, uid: uint32, winner: uint32, o: nat)
    requires Inv(w) && o < |w.objs| && uid in w.uidToRoom
    ensures GetRoomByUid(w, uid).Some?
    ensures var p := GetRoomByUid(w, uid).value;
      p < |w.objs| && var objs := Destroy(Update(w, p, R.StopGame(w.objs[p], winner)), w.objs[p].id).objs;
      |objs| == |w.objs| && objs[o] == R.Run(w.objs[o], if p == o then [R.Finish(winner)] else [])
  {
    MappedRoomHasPlayers(w, uid);
    StopObjs(w, GetRoomByUid(w, uid).value, winner);
    RunOne(w.objs[o], R.Finish(winner));
    assert R.Run(w.objs[o], []) == w.objs[o];
    hide R.Run, Inv, R.StopGame, Destroy, Update;
  }

  lemma OverProjects(w: World, s: nat, uid: uint32, winner: uint32, o: nat)
    requires Inv(w) && o < |w.objs| && s < |w.streams| && w.streams[s].open
    ensures |w.objs| == |Handle(w, s, uid, GameOverReq(winner)).objs|
    ensures Handle(w, s, uid, GameOverReq(winner)).objs[o]
         == R.Run(w.objs[o], Project(w, Request(s, uid, GameOverReq(winner)), o))
  {
    if uid in w.uidToRoom {
      StopProjects(w, uid, winner, o);
    } else {
      assert R.Run(w.objs[o], []) == w.objs[o];
    }
    hide R.Run, Inv, R.StopGame, Destroy, Update;
  }

  lemma HandleProjects(w: World, s: nat, uid: uint32, cmd: Command, o: nat)
    requires Inv(w) && o < |w.objs| && s < |w.streams| && w.streams[s].open
    ensures |w.objs| == |Handle(w, s, uid, cmd).objs|
    ensures Handle(w, s, uid, cmd).objs[o] == R.Run(w.objs[o], Project(w, Request(s, uid, cmd), o))
  {
    match cmd
    case EnterRoom(id) => EnterProjects(w, s, uid, id, o);
    case PlayerReady(id) => ReadyProjects(w, s, uid, id, o);
    case FrameInput(payload) => InputProjects(w, s, uid, payload, o);
    case GameOverReq(winner) => OverProjects(w, s, uid, winner, o);
    case Ignored =>
      assert R.Run(w.objs[o], []) == w.objs[o];
  }

  lemma CloseProjects(w: World, s: nat, o: nat)
    requires Inv(w) && o < |w.objs| && s < |w.streams| && w.streams[s].open
    ensures |w.objs| == |Close(w, s).objs|
    ensures Close(w, s).objs[o] == R.Run(w.objs[o], Project(w, StreamClosed(s), o))
  {
    var uid := w.streams[s].uid;
    assert R.Run(w.objs[o], []) == w.objs[o];
    if uid in w.uidToRoom {
      MappedRoomHasPlayers(w, uid);
      StopProjects(w, uid, OtherMember(w.objs[GetRoomByUid(w, uid).value].uids, uid), o);
    }
    hide R.Run, Inv, R.StopGame, Destroy, Update, OtherMember;
  }

  lemma TurnObjs(w: World)
    requires Inv(w) && w.pending != []
    ensures var p := w.pending[0];
      RoomTurn(w).objs == w.objs[p :=
        if w.objs[p].phase == R.Gaming then R.Tick(w.objs[p])
        else if R.AllReady(w.objs[p]) then R.StartGame(w.objs[p]) else w.objs[p]]
  {
    hide Life, R.WellFormed, Consistent, R.Tick, R.StartGame, R.AllReady, Sends;
  }

  lemma TurnProjects(w: World, o: nat)
    requires Inv(w) && o < |w.objs| && w.pending != []
    ensures |w.objs| == |RoomTurn(w).objs|
    ensures RoomTurn(w).objs[o] == R.Run(w.objs[o], Project(w, Turn, o))
  {
    var r := w.objs[o];
    TurnObjs(w);
    hide Inv, R.WellFormed, R.Run, R.Tick, R.StartGame, R.AllReady, RoomTurn;
    assert R.WellFormed(r) by {
      SoundRoom(w, o);
    }
    EmptyRun(r);
    RunOne(r, R.Ticked);
    RunOne(r, R.Begin);
  }

  lemma SoundRoom(w: World, o: nat)
    requires Inv(w) && o < |w.objs|
    ensures R.WellFormed(w.objs[o])
  {
  }

  lemma EmptyRun(r: R.RoomView)
    requires R.WellFormed(r)
    ensures R.Run(r, []) == r
  {
  }

  /** A step does to each existing room object exactly what its projection says. */
  lemma StepProjects(w: World, e: Event, o: nat)
    requires Inv(w) && Enabled(w, e) && o < |w.objs|
    ensures |w.objs| <= |Step(w, e).objs|
    ensures Step(w, e).objs[o] == R.Run(w.objs[o], Project(w, e, o))
  {
    match e
    case CreateRoomCall(l) => CreateProjects(w, l, o);
    case Request(s, uid, cmd) => HandleProjects(w, s, uid, cmd, o);
    case StreamClosed(s) => CloseProjects(w, s, o);
    case Turn => TurnProjects(w, o);
    case _ =>
      assert R.Run(w.objs[o], []) == w.objs[o];
  }

  ghost function ProjectRun(w: World, es: seq<Event>, o: nat): seq<R.RoomEvent>
    requires Inv(w) && CanRun(w, es) && o < |w.objs|
    decreases |es|
  {
    if es == [] then []
    else
      StepKeepsInv(w, es[0]);
      StepProjects(w, es[0], o);
      Project(w, es[0], o) + ProjectRun(Step(w, es[0]), es[1..], o)
  }

  /** Every run of the whole server is, seen from one room object, a run of that room;
      so the frame log of `R.FrameLogIsTraceFunction` is the log of the real run. */
  lemma {:induction false} RunProjects(w: World, es: seq<Event>, o: nat)
    requires Inv(w) && CanRun(w, es) && o < |w.objs|
    ensures |w.objs| <= |Run(w, es).objs|
    ensures Run(w, es).objs[o] == R.Run(w.objs[o], ProjectRun(w, es, o))
    decreases |es|
  {
    if es != [] {
      StepKeepsInv(w, es[0]);
      StepProjects(w, es[0], o);
      var w1 := Step(w, es[0]);
      RunProjects(w1, es[1..], o);
      R.RunConcat(w.objs[o], Project(w, es[0], o), ProjectRun(w1, es[1..], o));
    }
  }

  /** The frames a started room really sends, whatever else the server does meanwhile,
      are those of its own event trace. */
  lemma RealFrameLog(w: World, es: seq<Event>, o: nat, t: nat)
    requires Inv(w) && CanRun(w, es) && o < |w.objs| && R.AtStart(w.objs[o])
    requires R.WithinGame(ProjectRun(w, es, o))
    requires t < |ProjectRun(w, es, o)| && ProjectRun(w, es, o)[t].Ticked?
    ensures o < |Run(w, es).objs|
    ensures R.FrameLogged(w.objs[o], ProjectRun(w, es, o), t, Run(w, es).objs[o].casts)
    ensures R.CarriesClients(w.objs[o], ProjectRun(w, es, o), t, Run(w, es).objs[o].casts)
  {
    RunProjects(w, es, o);
    hide Run, R.Run, ProjectRun, CanRun, Inv, R.FrameLogged, R.CarriesClients;
    R.FrameLogIsTraceFunction(w.objs[o], ProjectRun(w, es, o), t);
  }

  // ---- Whole life of a room ----

  /** In every reachable state a room object's broadcasts are a game's opening, possibly
      empty, and then at most one verdict. Only a room out of the table has its verdict,
      and it is idle, numbered as in its broadcasts and not ready. */
  lemma WholeLife(es: seq<Event>, o: nat)
    requires Inv(Init()) && CanRun(Init(), es) && o < |Run(Init(), es).objs|
    ensures var w := Run(Init(), es);
      var r := w.objs[o];
      && (Live(w, o) ==> Opening(r.casts, r.id))
      && (!Live(w, o) ==>
           && r.casts != [] && Opening(r.casts[..|r.casts| - 1], r.id)
           && r.casts[|r.casts| - 1].GameOver? && r.casts[|r.casts| - 1].overId == r.id
           && r.phase == R.Idle && !R.AllReady(r))
  {
  }

  /** No event is aimed at a room that is out of the table. */
  lemma DeadProjection(w: World, e: Event, o: nat)
    requires Inv(w) && Enabled(w, e) && o < |w.objs| && !Live(w, o)
    ensures Project(w, e, o) == []
  {
    assert w.objs[o].phase == R.Idle && !R.AllReady(w.objs[o]);
    hide Life, R.WellFormed, R.AllReady;
  }

  lemma StepKeepsOut(w: World, e: Event, o: nat)
    requires Inv(w) && Enabled(w, e) && o < |w.objs| && !Live(w, o)
    requires |w.objs| <= |Step(w, e).objs| && Step(w, e).objs[o] == w.objs[o]
    ensures !Live(Step(w, e), o)
  {
    hide Life, R.WellFormed, Consistent, R.AllReady, R.StopGame, R.PushInput, R.MarkReady, R.Tick, R.StartGame,
      R.SnapshotText, AddAll, Fanout, OtherMember, Unmap;
    StepRooms(w, e);
  }

  /** A step only drops rooms from the table or enters a new object in it. */
  lemma StepRooms(w: World, e: Event)
    requires Inv(w) && Enabled(w, e)
    ensures forall id | id in Step(w, e).rooms ::
      Step(w, e).rooms[id] == |w.objs| || (id in w.rooms && Step(w, e).rooms[id] == w.rooms[id])
  {
    hide Life, R.WellFormed, Consistent, R.AllReady, R.StopGame, R.PushInput, R.MarkReady, R.Tick, R.StartGame,
      R.SnapshotText, AddAll, Fanout, OtherMember, Unmap;
  }

  lemma StepKeepsDead(w: World, e: Event, o: nat)
    requires Inv(w) && Enabled(w, e) && o < |w.objs| && !Live(w, o)
    ensures o < |Step(w, e).objs| && !Live(Step(w, e), o) && Step(w, e).objs[o] == w.objs[o]
  {
    StepProjects(w, e, o);
    DeadProjection(w, e, o);
    StepKeepsOut(w, e, o);
  }

  /** A room that has left the table is never touched again: no later event, not even
      a turn of a loop that still holds it, changes any of its fields or makes it
      broadcast, and it never comes back. */
  lemma {:induction false} DestroyedRoomIsSilent(w: World, es: seq<Event>, o: nat)
    requires Inv(w) && CanRun(w, es) && o < |w.objs| && !Live(w, o)
    ensures o < |Run(w, es).objs| && !Live(Run(w, es), o) && Run(w, es).objs[o] == w.objs[o]
    decreases |es|
  {
    if es != [] {
      StepKeepsInv(w, es[0]);
      StepKeepsDead(w, es[0], o);
      DestroyedRoomIsSilent(Step(w, es[0]), es[1..], o);
    }
  }

  /** A stop clears every ready flag. */
  lemma StopClearsReady(r: R.RoomView, winner: uint32)
    ensures R.StopGame(r, winner).phase == R.Idle
    ensures forall u | u in R.StopGame(r, winner).players :: !R.StopGame(r, winner).players[u].ready
    ensures R.StopGame(r, winner).players.Keys == r.players.Keys
  {
  }

  // ---- Inputs ----

  /** From a stream, an input never meets an unknown player or a short payload: the
      sender is in the room found for it, and four bytes of frame number are there. */
  lemma InputBranchesUnreachable(w: World, uid: uint32, payload: seq<byte>)
    requires Inv(w) && |payload| == 6 && GetRoomByUid(w, uid).Some?
    ensures var o := GetRoomByUid(w, uid).value;
      && o < |w.objs| && uid in w.objs[o].players && |payload| >= 4
      && (R.PushInput(w.objs[o], uid, payload) == w.objs[o] <==>
           || w.objs[o].phase != R.Gaming
           || BigEndian32(payload) < w.objs[o].frame.frameId
           || w.objs[o].players[uid].gameId in w.objs[o].frame.inputs)
  {
    MappedRoomHasPlayers(w, uid);
    R.DroppedInputs(w.objs[GetRoomByUid(w, uid).value], uid, payload);
  }

  // ---- Disconnect verdict ----

  lemma {:induction false} OtherMemberIsFirst(uids: seq<uint32>, uid: uint32)
    requires exists u :: u in uids && u != uid
    ensures OtherMember(uids, uid) in uids && OtherMember(uids, uid) != uid
  {
    if uids[0] == uid {
      var u :| u in uids && u != uid;
      assert u in uids[1..];
      OtherMemberIsFirst(uids[1..], uid);
    }
  }

  /** In a game, there is another member to win it. */
  lemma WinnerIsAMember(w: World, uid: uint32)
    requires Inv(w) && GetRoomByUid(w, uid).Some?
    requires w.objs[GetRoomByUid(w, uid).value].phase == R.Gaming
    ensures var r := w.objs[GetRoomByUid(w, uid).value];
      var winner := OtherMember(r.uids, uid);
      && winner in r.uids && winner != uid
      && (|r.uids| == 2 ==> r.uids == [uid, winner] || r.uids == [winner, uid])
  {
    MappedRoomHasPlayers(w, uid);
    var r := w.objs[GetRoomByUid(w, uid).value];
    assert |r.uids| >= 2 && R.WellFormed(r);
    assert r.uids[0] != r.uids[1] && r.uids[0] in r.uids && r.uids[1] in r.uids;
    hide Inv, R.WellFormed;
    assert exists u :: u in r.uids && u != uid by {
      assert r.uids[0] != uid || r.uids[1] != uid;
    }
    OtherMemberIsFirst(r.uids, uid);
  }

  /** A player whose stream ends in mid-game loses it: the room announces a member
      other than the leaver (in a two-player room, the other one), leaves the table,
      and none of its members stays mapped. */
  lemma DisconnectVerdict(w: World, s: nat)
    requires Inv(w) && s < |w.streams| && GetRoomByUid(w, w.streams[s].uid).Some?
    requires w.objs[GetRoomByUid(w, w.streams[s].uid).value].phase == R.Gaming
    ensures var uid := w.streams[s].uid;
      var o := GetRoomByUid(w, uid).value;
      var r, w' := w.objs[o], Close(w, s);
      exists winner ::
        && winner in r.uids && winner != uid
        && (|r.uids| == 2 ==> r.uids == [uid, winner] || r.uids == [winner, uid])
        && w'.objs == w.objs[o := R.StopGame(r, winner)]
        && w'.wire == w.wire + Fanout(w.sessions, r.uids, o, R.GameOver(r.id, winner))
        && w'.rooms == w.rooms - {r.id}
        && forall u | u in r.uids :: u !in w'.uidToRoom
  {
    var uid := w.streams[s].uid;
    WinnerIsAMember(w, uid);
    MappedRoomHasPlayers(w, uid);
    var r := w.objs[GetRoomByUid(w, uid).value];
    var winner := OtherMember(r.uids, uid);
    hide Life, R.WellFormed, Fanout, OtherMember;
    assert winner in r.uids;
  }

  /** Outside a game nobody hears of a disconnect: the room stays as it is. */
  lemma QuietDisconnect(w: World, s: nat)
    requires Inv(w) && s < |w.streams|
    requires var o := GetRoomByUid(w, w.streams[s].uid);
      o == None || w.objs[o.value].phase == R.Idle
    ensures var w' := Close(w, s);
      && w'.objs == w.objs && w'.wire == w.wire && w'.rooms == w.rooms
      && w.streams[s].uid !in w'.uidToRoom && w.streams[s].uid !in w'.sessions
  {
  }

  // ---- Lockstep agreement ----

  /** The broadcasts of room object `o` that were written to player `u`. */
  ghost function Received(wire: seq<Delivery>, u: uint32, o: nat): seq<R.Cast> {
    if wire == [] then []
    else
      var d := wire[|wire| - 1];
      Received(wire[..|wire| - 1], u, o) + if d.Pushed? && d.uid == u && d.room == o then [d.cast] else []
  }

  lemma {:induction false} ReceivedConcat(a: seq<Delivery>, b: seq<Delivery>, u: uint32, o: nat)
    ensures Received(a + b, u, o) == Received(a, u, o) + Received(b, u, o)
    decreases |b|
  {
    if b == [] {
      assert a + b == a;
    } else {
      assert (a + b)[..|a + b| - 1] == a + b[..|b| - 1];
      ReceivedConcat(a, b[..|b| - 1], u, o);
    }
  }

  /** A broadcast reaches a registered addressee exactly once. */
  lemma {:induction false} FanoutReaches(sessions: map<uint32, nat>, uids: seq<uint32>, room: nat, cast: R.Cast,
    u: uint32, o: nat)
    requires NoDuplicates(uids)
    ensures Received(Fanout(sessions, uids, room, cast), u, o)
         == if room == o && u in uids && u in sessions then [cast] else []
  {
    if uids != [] {
      var rest := Fanout(sessions, uids[1..], room, cast);
      FanoutReaches(sessions, uids[1..], room, cast, u, o);
      if uids[0] in sessions {
        var d := Pushed(sessions[uids[0]], uids[0], room, cast);
        ReceivedConcat([d], rest, u, o);
        assert Received([], u, o) == [];
        assert [d][..0] == [];
      }
      assert u in uids <==> u == uids[0] || u in uids[1..];
      assert uids[0] !in uids[1..];
    }
  }

  lemma SendsReach(w: World, p: nat, r: R.RoomView, u: uint32, o: nat)
    requires p < |w.objs| && o < |w.objs| && NoDuplicates(r.uids)
    requires u in w.objs[o].uids && w.objs[p].uids == r.uids && u in w.sessions
    requires r.casts == w.objs[p].casts || (|r.casts| == |w.objs[p].casts| + 1 && w.objs[p].casts <= r.casts)
    ensures Received(Sends(w.sessions, p, w.objs[p], r), u, o)
         == if p == o then r.casts[|w.objs[p].casts|..] else []
  {
    if |r.casts| > |w.objs[p].casts| {
      FanoutReaches(w.sessions, r.uids, p, r.casts[|r.casts| - 1], u, o);
      assert r.casts[|w.objs[p].casts|..] == [r.casts[|r.casts| - 1]];
    } else {
      assert Received([], u, o) == [];
    }
  }

  lemma UpdateReaches(w: World, p: nat, r: R.RoomView, u: uint32, o: nat)
    requires p < |w.objs| && o < |w.objs| && NoDuplicates(r.uids)
    requires u in w.objs[o].uids && w.objs[p].uids == r.uids && u in w.sessions
    requires r.casts == w.objs[p].casts || (|r.casts| == |w.objs[p].casts| + 1 && w.objs[p].casts <= r.casts)
    ensures InStep(w, Update(w, p, r), u, o)
  {
    SendsReach(w, p, r, u, o);
    hide Received, Sends;
    ReceivedConcat(w.wire, Sends(w.sessions, p, w.objs[p], r), u, o);
  }

  lemma AnswerReachesNobody(w: World, s: nat, reply: Reply, u: uint32, o: nat)
    ensures Received(Answer(w, s, reply).wire, u, o) == Received(w.wire, u, o)
  {
    var d := Replied(s, reply);
    assert (w.wire + [d])[..|w.wire|] == w.wire;
  }

  /** `w'` has written to `u` of room `o` exactly what the room has broadcast since `w`. */
  ghost predicate InStep(w: World, w': World, u: uint32, o: nat)
    requires o < |w.objs|
  {
    && |w.objs| <= |w'.objs| && w.objs[o].casts <= w'.objs[o].casts
    && Received(w'.wire, u, o) == Received(w.wire, u, o) + w'.objs[o].casts[|w.objs[o].casts|..]
  }

  lemma ApplyReaches(w: World, p: nat, e: R.RoomEvent, u: uint32, o: nat)
    requires Registered(w) && p < |w.objs| && o < |w.objs| && !e.Enroll?
    requires u in w.objs[o].uids && u in w.sessions
    ensures InStep(w, Update(w, p, R.Apply(w.objs[p], e)), u, o)
  {
    R.ApplyKeepsWellFormed(w.objs[p], e);
    UpdateReaches(w, p, R.Apply(w.objs[p], e), u, o);
  }

  lemma SameWireAndRooms(w: World, w1: World, w2: World, u: uint32, o: nat)
    requires o < |w.objs| && InStep(w, w1, u, o)
    requires w2.objs == w1.objs
    requires w2.wire == w1.wire || exists s, reply :: w2.wire == w1.wire + [Replied(s, reply)]
    ensures InStep(w, w2, u, o)
  {
    if w2.wire != w1.wire {
      var s, reply :| w2.wire == w1.wire + [Replied(s, reply)];
      AnswerReachesNobody(w1, s, reply, u, o);
    }
  }

  lemma NothingHappens(w: World, u: uint32, o: nat)
    requires o < |w.objs|
    ensures InStep(w, w, u, o)
  {
  }

  lemma StopReaches(w: World, uid: uint32, winner: uint32, u: uint32, o: nat)
    requires Inv(w) && uid in w.uidToRoom
    requires o < |w.objs| && u in w.objs[o].uids && u in w.sessions
    ensures GetRoomByUid(w, uid).Some?
    ensures var p := GetRoomByUid(w, uid).value;
      p < |w.objs| && InStep(w, Destroy(Update(w, p, R.StopGame(w.objs[p], winner)), w.objs[p].id), u, o)
  {
    MappedRoomHasPlayers(w, uid);
    var p := GetRoomByUid(w, uid).value;
    ApplyReaches(w, p, R.Finish(winner), u, o);
    var w1 := Update(w, p, R.StopGame(w.objs[p], winner));
    SameWireAndRooms(w, w1, Destroy(w1, w.objs[p].id), u, o);
  }

  lemma OverReaches(w: World, s: nat, uid: uint32, winner: uint32, u: uint32, o: nat)
    requires Inv(w) && o < |w.objs| && u in w.objs[o].uids && u in w.sessions
    ensures InStep(w, Handle(w, s, uid, GameOverReq(winner)), u, o)
  {
    var w' := Handle(w, s, uid, GameOverReq(winner));
    NothingHappens(w, u, o);
    if GetRoomByUid(w, uid).Some? {
      StopReaches(w, uid, winner, u, o);
      var p := GetRoomByUid(w, uid).value;
      hide InStep, Inv, Destroy, Update, R.StopGame;
      SameWireAndRooms(w, Destroy(Update(w, p, R.StopGame(w.objs[p], winner)), w.objs[p].id), w', u, o);
    } else {
      SameWireAndRooms(w, w, w', u, o);
    }
  }

  lemma ReadyReaches(w: World, s: nat, uid: uint32, id: int32, u: uint32, o: nat)
    requires Inv(w) && o < |w.objs| && u in w.objs[o].uids && u in w.sessions
    ensures InStep(w, Handle(w, s, uid, PlayerReady(id)), u, o)
  {
    var w' := Handle(w, s, uid, PlayerReady(id));
    NothingHappens(w, u, o);
    hide InStep, Life, Consistent, R.WellFormed, Sends, R.MarkReady;
    var p := GetRoom(w, id);
    if p.Some? && uid in w.objs[p.value].players {
      ApplyReaches(w, p.value, R.Ready(uid), u, o);
      SameWireAndRooms(w, Update(w, p.value, R.MarkReady(w.objs[p.value], uid)), w', u, o);
    } else {
      SameWireAndRooms(w, w, w', u, o);
    }
  }

  lemma InputReaches(w: World, s: nat, uid: uint32, payload: seq<byte>, u: uint32, o: nat)
    requires Inv(w) && o < |w.objs| && u in w.objs[o].uids && u in w.sessions
    ensures InStep(w, Handle(w, s, uid, FrameInput(payload)), u, o)
  {
    NothingHappens(w, u, o);
    hide InStep, Life, Consistent, R.WellFormed, Sends, R.PushInput;
    var p := GetRoomByUid(w, uid);
    if p.Some? {
      ApplyReaches(w, p.value, R.Input(uid, payload), u, o);
    }
  }

  lemma HandleReaches(w: World, s: nat, uid: uint32, cmd: Command, u: uint32, o: nat)
    requires Inv(w) && o < |w.objs| && u in w.objs[o].uids && u in w.sessions
    ensures InStep(w, Handle(w, s, uid, cmd), u, o)
  {
    match cmd
    case EnterRoom(id) =>
      NothingHappens(w, u, o);
      hide InStep, Life, Consistent, R.WellFormed, R.SnapshotText;
      SameWireAndRooms(w, w, Handle(w, s, uid, cmd), u, o);
    case PlayerReady(id) => ReadyReaches(w, s, uid, id, u, o);
    case FrameInput(payload) => InputReaches(w, s, uid, payload, u, o);
    case GameOverReq(winner) => OverReaches(w, s, uid, winner, u, o);
    case Ignored => NothingHappens(w, u, o);
  }

  lemma CloseReaches(w: World, s: nat, u: uint32, o: nat)
    requires Inv(w) && o < |w.objs| && u in w.objs[o].uids && u in w.sessions && s < |w.streams|
    ensures InStep(w, Close(w, s), u, o)
  {
    var uid := w.streams[s].uid;
    var p := GetRoomByUid(w, uid);
    NothingHappens(w, u, o);
    hide InStep;
    if p.Some? && w.objs[p.value].phase == R.Gaming {
      var winner := OtherMember(w.objs[p.value].uids, uid);
      StopReaches(w, uid, winner, u, o);
      SameWireAndRooms(w, Destroy(Update(w, p.value, R.StopGame(w.objs[p.value], winner)), w.objs[p.value].id),
        Close(w, s), u, o);
    } else {
      SameWireAndRooms(w, w, Close(w, s), u, o);
    }
  }

  lemma TurnReaches(w: World, u: uint32, o: nat)
    requires Inv(w) && o < |w.objs| && u in w.objs[o].uids && u in w.sessions && w.pending != []
    ensures InStep(w, RoomTurn(w), u, o)
  {
    var p, w1 := w.pending[0], w.(pending := w.pending[1..]);
    NothingHappens(w, u, o);
    hide Inv, Life, Consistent, Update, R.WellFormed;
    assert Registered(w1) && p < |w.objs| by {
      TailRegistered(w);
    }
    hide Registered;
    if w.objs[p].phase == R.Gaming {
      ApplyReaches(w1, p, R.Ticked, u, o);
    } else if R.AllReady(w.objs[p]) {
      ApplyReaches(w1, p, R.Begin, u, o);
    }
  }

  lemma TailRegistered(w: World)
    requires Inv(w) && w.pending != []
    ensures w.pending[0] < |w.objs| && Registered(w.(pending := w.pending[1..]))
  {
    hide R.WellFormed;
  }

  lemma CreateReaches(w: World, l: PlayerList, u: uint32, o: nat)
    requires Inv(w) && o < |w.objs|
    ensures InStep(w, CreateRoom(w, l).0, u, o)
  {
    AddAllFrame(w.objs[o], if l.BadText? then [] else l.items);
    hide Life, Consistent, R.WellFormed, AddAll;
  }

  lemma StepReaches(w: World, e: Event, u: uint32, o: nat)
    requires Inv(w) && Enabled(w, e) && o < |w.objs| && u in w.objs[o].uids && u in w.sessions
    ensures InStep(w, Step(w, e), u, o)
  {
    match e
    case CreateRoomCall(l) => CreateReaches(w, l, u, o);
    case StreamOpened(uid, connId) => NothingHappens(w, u, o);
    case Request(s, uid, cmd) => HandleReaches(w, s, uid, cmd, u, o);
    case StreamClosed(s) => CloseReaches(w, s, u, o);
    case Snapshot(order) => NothingHappens(w, u, o);
    case Turn => TurnReaches(w, u, o);
  }

  /** `u` has a session at the start of every step of the run. */
  ghost predicate RegisteredThroughout(w: World, es: seq<Event>, u: uint32)
    requires Inv(w) && CanRun(w, es)
    decreases |es|
  {
    es == [] ||
    (u in w.sessions && (StepKeepsInv(w, es[0]); RegisteredThroughout(Step(w, es[0]), es[1..], u)))
  }

  lemma StepKeepsMembers(w: World, e: Event, o: nat)
    requires Inv(w) && Enabled(w, e) && o < |w.objs|
    ensures |w.objs| <= |Step(w, e).objs| && w.objs[o].uids <= Step(w, e).objs[o].uids
  {
    StepProjects(w, e, o);
    R.RunKeeps(w.objs[o], Project(w, e, o));
  }

  /** A member who is registered throughout a span of steps is sent, in order and once
      each, exactly what the room broadcasts in that span. */
  lemma {:induction false} MemberReceivesBroadcasts(w: World, es: seq<Event>, u: uint32, o: nat)
    requires Inv(w) && CanRun(w, es) && o < |w.objs| && u in w.objs[o].uids
    requires RegisteredThroughout(w, es, u)
    ensures InStep(w, Run(w, es), u, o)
    decreases |es|
  {
    if es != [] {
      StepKeepsInv(w, es[0]);
      var w1 := Step(w, es[0]);
      StepReaches(w, es[0], u, o);
      StepKeepsMembers(w, es[0], o);
      hide Inv, InStep, Step, Enabled;
      MemberReceivesBroadcasts(w1, es[1..], u, o);
      InStepTransitive(w, w1, Run(w1, es[1..]), u, o);
    }
  }

  lemma InStepTransitive(w: World, w1: World, w2: World, u: uint32, o: nat)
    requires o < |w.objs| && InStep(w, w1, u, o) && InStep(w1, w2, u, o)
    ensures InStep(w, w2, u, o)
  {
    assert w2.objs[o].casts[|w.objs[o].casts|..]
        == w1.objs[o].casts[|w.objs[o].casts|..] + w2.objs[o].casts[|w1.objs[o].casts|..];
  }

  /** What `u` was sent by room `o` between two states of a run. */
  ghost function ReceivedBetween(w: World, w': World, u: uint32, o: nat): seq<R.Cast>
    requires |Received(w.wire, u, o)| <= |Received(w'.wire, u, o)|
  {
    Received(w'.wire, u, o)[|Received(w.wire, u, o)|..]
  }

  /** Lockstep: two members registered throughout a span are sent identical sequences,
      and the frames in them, wherever the span begins, have consecutive numbers. */
  lemma LockstepAgreement(w: World, es: seq<Event>, a: uint32, b: uint32, o: nat)
    requires Inv(w) && CanRun(w, es) && o < |w.objs| && a in w.objs[o].uids && b in w.objs[o].uids
    requires RegisteredThroughout(w, es, a) && RegisteredThroughout(w, es, b)
    ensures var w' := Run(w, es);
      && Received(w.wire, a, o) <= Received(w'.wire, a, o) && Received(w.wire, b, o) <= Received(w'.wire, b, o)
      && ReceivedBetween(w, w', a, o) == ReceivedBetween(w, w', b, o)
      && var got := ReceivedBetween(w, w', a, o);
         forall k | 0 < k < |got| && got[k - 1].FrameUpdate? && got[k].FrameUpdate? ::
           got[k].frame.frameId == Increment32(got[k - 1].frame.frameId)
  {
    MemberReceivesBroadcasts(w, es, a, o);
    MemberReceivesBroadcasts(w, es, b, o);
    var casts := Run(w, es).objs[o].casts;
    FramesConsecutive(Run(w, es), o);
    var got := ReceivedBetween(w, Run(w, es), a, o);
    assert got == casts[|w.objs[o].casts|..];
    assert forall k | 0 <= k < |got| :: got[k] == casts[|w.objs[o].casts| + k];
  }

  lemma FramesConsecutive(w: World, o: nat)
    requires Inv(w) && o < |w.objs|
    ensures var casts := w.objs[o].casts;
      forall k | 0 < k < |casts| && casts[k - 1].FrameUpdate? && casts[k].FrameUpdate? ::
        casts[k].frame.frameId == Increment32(casts[k - 1].frame.frameId)
  {
    var casts := w.objs[o].casts;
    assert Life(w.objs[o], Live(w, o));
    forall k | 0 < k < |casts| && casts[k - 1].FrameUpdate? && casts[k].FrameUpdate?
      ensures casts[k].frame.frameId == Increment32(casts[k - 1].frame.frameId)
    {
      assert k >= 2;
      IncrementWraps(k - 2, casts[k - 1].frame.frameId, k - 1, Increment32(casts[k - 1].frame.frameId));
      if Live(w, o) {
        assert casts[k].frame.frameId == Wrap32(k - 1);
      } else {
        assert casts[..|casts| - 1][k] == casts[k] && casts[..|casts| - 1][k - 1] == casts[k - 1];
      }
    }
  }

  // ---- Streams ----

  /** Everything in `wire` beyond `w.wire` was written to a stream that is open in `w`. */
  ghost predicate WritesToOpen(w: World, wire: seq<Delivery>) {
    w.wire <= wire &&
    forall i | |w.wire| <= i < |wire| :: wire[i].stream < |w.streams| && w.streams[wire[i].stream].open
  }

  lemma {:induction false} FanoutUsesSessions(sessions: map<uint32, nat>, uids: seq<uint32>, room: nat, cast: R.Cast)
    ensures forall d | d in Fanout(sessions, uids, room, cast) ::
      d.Pushed? && d.uid in sessions && d.stream == sessions[d.uid]
  {
    if uids != [] {
      FanoutUsesSessions(sessions, uids[1..], room, cast);
    }
  }

  lemma UpdateWritesToOpen(w: World, w1: World, p: nat, r: R.RoomView)
    requires Inv(w) && w1.sessions == w.sessions && w1.wire == w.wire && p < |w1.objs|
    ensures WritesToOpen(w, Update(w1, p, r).wire)
  {
    if |r.casts| > |w1.objs[p].casts| {
      var cast := r.casts[|r.casts| - 1];
      FanoutUsesSessions(w.sessions, r.uids, p, cast);
      var wire := Update(w1, p, r).wire;
      assert wire == w.wire + Fanout(w.sessions, r.uids, p, cast);
      forall i | |w.wire| <= i < |wire|
        ensures wire[i].stream < |w.streams| && w.streams[wire[i].stream].open
      {
        assert wire[i] in Fanout(w.sessions, r.uids, p, cast);
      }
    }
  }

  lemma HandleWritesToOpen(w: World, s: nat, uid: uint32, cmd: Command)
    requires Inv(w) && s < |w.streams| && w.streams[s].open
    ensures WritesToOpen(w, Handle(w, s, uid, cmd).wire)
  {
    hide Life, R.WellFormed, Consistent, Fanout, R.SnapshotText, R.StopGame, R.PushInput, R.MarkReady, Unmap;
    match cmd
    case EnterRoom(id) =>
    case PlayerReady(id) =>
      var p := GetRoom(w, id);
      if p.Some? {
        UpdateWritesToOpen(w, w, p.value, R.MarkReady(w.objs[p.value], uid));
      }
    case FrameInput(payload) =>
      var p := GetRoomByUid(w, uid);
      if p.Some? {
        UpdateWritesToOpen(w, w, p.value, R.PushInput(w.objs[p.value], uid, payload));
      }
    case GameOverReq(winner) =>
      var p := GetRoomByUid(w, uid);
      if p.Some? {
        UpdateWritesToOpen(w, w, p.value, R.StopGame(w.objs[p.value], winner));
      }
    case Ignored =>
  }

  lemma StepWritesToOpen(w: World, e: Event)
    requires Inv(w) && Enabled(w, e)
    ensures WritesToOpen(w, Step(w, e).wire)
  {
    hide Life, R.WellFormed, R.AllReady, Fanout, AddAll;
    match e
    case Request(s, uid, cmd) => HandleWritesToOpen(w, s, uid, cmd);
    case StreamClosed(s) =>
      var p := GetRoomByUid(w, w.streams[s].uid);
      if p.Some? {
        UpdateWritesToOpen(w, w, p.value,
          R.StopGame(w.objs[p.value], OtherMember(w.objs[p.value].uids, w.streams[s].uid)));
      }
    case Turn =>
      var p, w1 := w.pending[0], w.(pending := w.pending[1..]);
      UpdateWritesToOpen(w, w1, p, R.Tick(w.objs[p]));
      UpdateWritesToOpen(w, w1, p, R.StartGame(w.objs[p]));
    case _ =>
  }

  lemma StepKeepsClosed(w: World, e: Event, s: nat)
    requires Inv(w) && Enabled(w, e) && s < |w.streams| && !w.streams[s].open
    ensures s < |Step(w, e).streams| && !Step(w, e).streams[s].open
  {
    hide Life, R.WellFormed, R.AllReady, Sends, AddAll, Consistent, Unmap, NoDuplicates, R.SnapshotText, R.StopGame,
      R.Tick, R.StartGame, R.PushInput, R.MarkReady, OtherMember;
  }

  /** Once a stream's handler has finished, nothing is ever written to it again, even
      when the same player has opened other streams before or since. */
  lemma {:induction false} FinishedStreamIsSilent(w: World, es: seq<Event>, s: nat)
    requires Inv(w) && CanRun(w, es) && s < |w.streams| && !w.streams[s].open
    ensures w.wire <= Run(w, es).wire
    ensures forall i | |w.wire| <= i < |Run(w, es).wire| :: Run(w, es).wire[i].stream != s
    decreases |es|
  {
    if es != [] {
      StepKeepsInv(w, es[0]);
      StepWritesToOpen(w, es[0]);
      StepKeepsClosed(w, es[0], s);
      hide Inv, Step, Enabled;
      FinishedStreamIsSilent(Step(w, es[0]), es[1..], s);
    }
  }

  /** The event opens or closes a stream of `uid`'s own. */
  ghost predicate Touches(w: World, e: Event, uid: uint32)
    requires Enabled(w, e)
  {
    match e
    case StreamOpened(u, _) => u == uid
    case StreamClosed(s) => w.streams[s].uid == uid
    case _ => false
  }

  ghost predicate NeverTouched(w: World, es: seq<Event>, uid: uint32)
    requires Inv(w) && CanRun(w, es)
    decreases |es|
  {
    es == [] ||
    (!Touches(w, es[0], uid) && (StepKeepsInv(w, es[0]); NeverTouched(Step(w, es[0]), es[1..], uid)))
  }

  predicate RegisteredAs(w: World, uid: uint32, s: nat) {
    uid in w.sessions && w.sessions[uid] == s
  }

  lemma StepSessions(w: World, e: Event)
    requires Inv(w) && Enabled(w, e)
    ensures |w.streams| <= |Step(w, e).streams|
    ensures Step(w, e).sessions ==
      match e
      case StreamOpened(uid, _) => w.sessions[uid := |w.streams|]
      case StreamClosed(s) => w.sessions - {w.streams[s].uid}
      case _ => w.sessions
  {
    hide Life, R.WellFormed, R.AllReady, Sends, AddAll, Consistent, Unmap, NoDuplicates, R.SnapshotText, R.StopGame,
      R.Tick, R.StartGame, R.PushInput, R.MarkReady, OtherMember;
  }

  /** A stream that is not its player's session never becomes it again. */
  lemma {:induction false} NeverAgain(w: World, es: seq<Event>, uid: uint32, s: nat)
    requires Inv(w) && CanRun(w, es) && s < |w.streams| && !RegisteredAs(w, uid, s)
    ensures !RegisteredAs(Run(w, es), uid, s)
    decreases |es|
  {
    if es != [] {
      StepKeepsInv(w, es[0]);
      StepSessions(w, es[0]);
      hide Inv, Step, Enabled;
      NeverAgain(Step(w, es[0]), es[1..], uid, s);
    }
  }

  /** A registered stream is still its player's session at the end of a run exactly when
      no event of the run opens or closes a stream of that player. */
  lemma {:induction false} StaysRegisteredExactly(w: World, es: seq<Event>, uid: uint32)
    requires Inv(w) && CanRun(w, es) && uid in w.sessions
    ensures RegisteredAs(Run(w, es), uid, w.sessions[uid]) <==> NeverTouched(w, es, uid)
    decreases |es|
  {
    if es != [] {
      var w1, s := Step(w, es[0]), w.sessions[uid];
      StepKeepsInv(w, es[0]);
      StepSessions(w, es[0]);
      assert s < |w.streams|;
      hide Inv, Step, Enabled;
      if Touches(w, es[0], uid) {
        NeverAgain(w1, es[1..], uid, s);
      } else {
        StaysRegisteredExactly(w1, es[1..], uid);
      }
    }
  }

  lemma RunFrom(w: World, e: Event, es: seq<Event>)
    requires Inv(w) && Enabled(w, e)
    ensures Inv(Step(w, e))
    ensures CanRun(Step(w, e), es) ==> CanRun(w, [e] + es) && Run(w, [e] + es) == Run(Step(w, e), es)
  {
    StepKeepsInv(w, e);
    hide Inv, Step, Enabled;
    assert ([e] + es)[1..] == es;
  }

  /** A clean-up drops whatever stream its player has registered: after it the player
      is unregistered even if a later stream of theirs is still open. */
  lemma CleanUpDropsNewerStream(uid: uint32, connId: uint32, connId': uint32)
    ensures Inv(Init())
    ensures var es := [StreamOpened(uid, connId), StreamOpened(uid, connId'), StreamClosed(0)];
      CanRun(Init(), es) && var w := Run(Init(), es);
        |w.streams| == 2 && w.streams[1].open && w.streams[1].uid == uid && uid !in w.sessions
  {
    InitInv();
    var e0, e1, e2 := StreamOpened(uid, connId), StreamOpened(uid, connId'), StreamClosed(0);
    var w1 := Step(Init(), e0);
    StepKeepsInv(Init(), e0);
    var w2 := Step(w1, e1);
    StepKeepsInv(w1, e1);
    var w3 := Step(w2, e2);
    RunFrom(w2, e2, []);
    RunFrom(w1, e1, [e2]);
    RunFrom(Init(), e0, [e1, e2]);
    hide Inv;
    assert [e2] + [] == [e2] && [e1] + [e2] == [e1, e2] && [e0] + [e1, e2] == [e0, e1, e2];
    assert CanRun(w3, []) && Run(w3, []) == w3;
  }
}
