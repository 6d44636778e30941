/** From the lobby's pair to the seats on the game server. */
module Seating {
  import opened Types
  import R = RoomModel
  import opened GameModel
  import GameRuns
  import Lobby
  import SnapshotReader

  /** Adding two players to a well-formed room, in order. */
  lemma AddTwo(r: R.RoomView, a: Lobby.MatchPlayer, b: Lobby.MatchPlayer)
    requires R.WellFormed(r) && a.uid != b.uid
    ensures var items := Lobby.PlayerList(a, b).items;
      var r1 := R.AddPlayer(r, a.uid, a.nickname, a.characterId);
      R.WellFormed(r1) && AddAll(r, items) == R.AddPlayer(r1, b.uid, b.nickname, b.characterId)
  {
    R.ApplyKeepsWellFormed(r, R.Enroll(a.uid, a.nickname, a.characterId));
    var items := Lobby.PlayerList(a, b).items;
    assert items[1..] == [items[1]] && [items[1]][1..] == [];
    var r1 := R.AddPlayer(r, a.uid, a.nickname, a.characterId);
    var r2 := R.AddPlayer(r1, b.uid, b.nickname, b.characterId);
    R.ApplyKeepsWellFormed(r1, R.Enroll(b.uid, b.nickname, b.characterId));
    hide R.AddPlayer, R.WellFormed;
    assert AddAll(r2, []) == r2;
    assert AddAll(r1, [items[1]]) == AddAll(r2, []);
    assert AddAll(r, items) == AddAll(r1, [items[1]]);
  }

  /** In a well-formed room a player's seat is 1 exactly for the first to have joined. */
  lemma SeatOf(r: R.RoomView, uid: uint32)
    requires R.WellFormed(r) && uid in r.players
    ensures r.uids != [] && r.players[uid].gameId == if r.uids[0] == uid then 1 else 2
  {
    assert uid in r.uids;
  }

  /** `o` seats `a` on 1 and `b` on 2, as the lobby tells them. */
  ghost predicate SeatedAsTold(w: World, o: nat, a: uint32, b: uint32) {
    && o < |w.objs| && a in w.objs[o].players && b in w.objs[o].players
    && w.objs[o].players[a].gameId == 1 && w.objs[o].players[b].gameId == 2
  }

  /** A pair's room seats it as told exactly when the id drawn names no live room, or a
      live one that is empty or was first joined by the pair's own first player. */
  lemma SeatedAsToldExactly(w: World, a: Lobby.MatchPlayer, b: Lobby.MatchPlayer)
    requires Inv(w) && a.uid != b.uid
    ensures var (w', rsp) := CreateRoom(w, Lobby.PlayerList(a, b));
      var id := w.nextRoomId;
      && rsp == CreateRoomRsp(0, id) && id in w'.rooms
      && (SeatedAsTold(w', w'.rooms[id], a.uid, b.uid) <==>
           id !in w.rooms || w.objs[w.rooms[id]].uids == [] || w.objs[w.rooms[id]].uids[0] == a.uid)
  {
    var id := w.nextRoomId;
    var l := Lobby.PlayerList(a, b);
    CreateKeepsInv(w, l);
    var w' := CreateRoom(w, l).0;
    var r := if id in w.rooms then w.objs[w.rooms[id]] else R.NewRoom(id);
    assert R.WellFormed(r) by {
      NewRoomLife(id);
    }
    AddTwo(r, a, b);
    AddAllFrame(r, l.items);
    var r' := AddAll(r, l.items);
    assert w'.objs[w'.rooms[id]] == r';
    assert a.uid in r'.players && b.uid in r'.players;
    SeatOf(r', a.uid);
    SeatOf(r', b.uid);
    hide Inv, CreateRoom, AddAll;
    assert r.uids != [] ==> r'.uids[0] == r.uids[0];
    assert r.uids == [] ==> r'.uids == [a.uid, b.uid];
  }

  /** A fresh room holds the pair and nobody else, with their own names and characters. */
  lemma FreshRoomHoldsThePair(w: World, a: Lobby.MatchPlayer, b: Lobby.MatchPlayer)
    requires Inv(w) && a.uid != b.uid && w.nextRoomId !in w.rooms
    ensures var w' := CreateRoom(w, Lobby.PlayerList(a, b)).0;
      && w'.rooms == w.rooms[w.nextRoomId := |w.objs|] && |w'.objs| == |w.objs| + 1
      && w'.objs[|w.objs|].uids == [a.uid, b.uid] && w'.objs[|w.objs|].phase == R.Idle
      && w'.objs[|w.objs|].casts == [] && w'.objs[|w.objs|].players.Keys == {a.uid, b.uid}
      && w'.objs[|w.objs|].players[a.uid] == R.Player(a.uid, a.nickname, a.characterId, 1, false)
      && w'.objs[|w.objs|].players[b.uid] == R.Player(b.uid, b.nickname, b.characterId, 2, false)
  {
    var id := w.nextRoomId;
    NewRoomLife(id);
    AddTwo(R.NewRoom(id), a, b);
    AddAllFrame(R.NewRoom(id), Lobby.PlayerList(a, b).items);
  }

  /** A seat, once assigned, is what every later entry into the room reports, whatever
      the server has done in between, more joins included. */
  lemma SeatReportedForever(w: World, es: seq<Event>, o: nat, uid: uint32, s: nat)
    requires Inv(w) && GameRuns.CanRun(w, es) && o < |w.objs| && uid in w.objs[o].players
    ensures o < |GameRuns.Run(w, es).objs|
    ensures var w' := GameRuns.Run(w, es);
      var id := w'.objs[o].id;
      Live(w', o) ==>
        var answered := Handle(w', s, uid, EnterRoom(id));
        && answered.wire == w'.wire +
             [Replied(s, EnterRoomRsp(0, id, R.SnapshotText(w'.objs[o]), w.objs[o].players[uid].gameId))]
        && answered.uidToRoom == w'.uidToRoom[uid := id]
  {
    GameRuns.RunProjects(w, es, o);
    R.RunKeeps(w.objs[o], GameRuns.ProjectRun(w, es, o));
    var w' := GameRuns.Run(w, es);
    assert w'.objs[o].players[uid].(ready := false).gameId == w'.objs[o].players[uid].gameId;
    hide Life, Consistent, R.WellFormed, GameRuns.Run, GameRuns.CanRun, R.Run, R.SnapshotText;
  }

  /** A notice tells of a room, by a number that can be read, and of a position in it; and in
      `w` entering the room of that number is answered with no error and that position. */
  ghost predicate Keeps(w: World, s: nat, uid: uint32, ntf: Lobby.MatchGameNtf) {
    var v := SnapshotReader.NumberIn(ntf.roomId);
    v.Some? && -0x8000_0000 <= v.value < 0x8000_0000 && Reports(w, s, uid, v.value, ntf.position)
  }

  /** The notices go to the two players and list them in order; and after the run, if the room
      is still in the table, both find kept what their own notice told them. */
  ghost predicate ToldSeats(w: World, es: seq<Event>, o: nat, s: nat, notices: seq<Lobby.Push>,
    a: Lobby.MatchPlayer, b: Lobby.MatchPlayer)
    requires Inv(w) && o < |w.objs|
  {
    && |notices| == 2 && notices[0].connId == a.connId && notices[1].connId == b.connId
    && notices[0].ntf.err == 0 && notices[0].ntf.players == [a, b]
    && notices[1].ntf.err == 0 && notices[1].ntf.players == [a, b]
    && (GameRuns.CanRun(w, es) && o < |GameRuns.Run(w, es).objs| && Live(GameRuns.Run(w, es), o) ==>
         && Keeps(GameRuns.Run(w, es), s, a.uid, notices[0].ntf)
         && Keeps(GameRuns.Run(w, es), s, b.uid, notices[1].ntf))
  }

  /** End to end: when the lobby's queue, after any run, pairs the requester with a
      waiter and the game server draws an id that names no live room, the number and the
      position told to each of the two are those of the room and the seat that the game
      server reports to them whenever they enter it, whatever has happened since. */
  lemma PositionIsSeat(queueRun: seq<Lobby.Event>, p: Lobby.MatchPlayer, w: World, es: seq<Event>, s: nat)
    requires Inv(w) && w.nextRoomId !in w.rooms
    requires Lobby.MatchSection(Lobby.After(queueRun).queue, p).1.Pair?
    ensures var Pair(a, b) := Lobby.MatchSection(Lobby.After(queueRun).queue, p).1;
      var (w1, rsp) := CreateRoom(w, Lobby.PlayerList(a, b));
      && a.uid != b.uid && rsp.err == 0 && Inv(w1) && rsp.roomId in w1.rooms
      && w1.rooms[rsp.roomId] == |w.objs| && w1.objs[|w.objs|].uids == [a.uid, b.uid]
      && ToldSeats(w1, es, |w.objs|, s, Lobby.Notices(a, b, Some(rsp.roomId)), a, b)
  {
    Lobby.PairsAreWaiterAndRequester(queueRun, p);
    var Pair(a, b) := Lobby.MatchSection(Lobby.After(queueRun).queue, p).1;
    var l := Lobby.PlayerList(a, b);
    CreateKeepsInv(w, l);
    SeatedAsToldExactly(w, a, b);
    FreshRoomHoldsThePair(w, a, b);
    var w1 := CreateRoom(w, l).0;
    var o, id := |w.objs|, w.nextRoomId;
    assert w1.objs[o].id == id by {
      assert w1.rooms[id] == o;
    }
    Lobby.NoticesTell(a, b, Some(id));
    hide Inv, CreateRoom, Lobby.MatchSection, Lobby.PlayerList, Lobby.Notices, SnapshotReader.NumberIn, Reports;
    if GameRuns.CanRun(w1, es) {
      SeatReports(w1, es, o, a.uid, s);
      SeatReports(w1, es, o, b.uid, s);
    }
  }

  /** Entering room `id` is answered with no error and with seat `seat`. */
  ghost predicate Reports(w: World, s: nat, uid: uint32, id: int32, seat: int) {
    Inv(w) && exists text ::
      Handle(w, s, uid, EnterRoom(id)).wire == w.wire + [Replied(s, EnterRoomRsp(0, id, text, seat))]
  }

  lemma SeatReports(w: World, es: seq<Event>, o: nat, uid: uint32, s: nat)
    requires Inv(w) && GameRuns.CanRun(w, es) && o < |w.objs| && uid in w.objs[o].players
    ensures o < |GameRuns.Run(w, es).objs|
    ensures Live(GameRuns.Run(w, es), o) ==>
      Reports(GameRuns.Run(w, es), s, uid, w.objs[o].id, w.objs[o].players[uid].gameId)
  {
    SeatReportedForever(w, es, o, uid, s);
    GameRuns.RunProjects(w, es, o);
    R.RunKeeps(w.objs[o], GameRuns.ProjectRun(w, es, o));
    hide GameRuns.Run, GameRuns.CanRun, Handle, R.Run, Inv;
  }
}
