/** What the game server's answers tell: each caller learns whether its request was
    carried out, and a player who enters a room reads in the answer who is there. */
module Replies {
  import opened Types
  import R = RoomModel
  import opened GameModel
  import SnapshotJson
  import SnapshotReader

  /** The table's room `id` has `uid` in its join order. */
  ghost predicate Lists(w: World, id: int32, uid: uint32)
    requires Registered(w)
  {
    id in w.rooms && uid in w.objs[w.rooms[id]].uids
  }

  /** `row` is the player `uid` of the room. */
  ghost predicate Describes(r: R.RoomView, uid: uint32, row: SnapshotJson.Row) {
    && uid in r.players && row.uid == uid
    && row.nickname == r.players[uid].nickname && row.characterId == r.players[uid].characterId
  }

  /** Read member by member, the text lists the room's players in the order they joined. */
  ghost predicate TellsMembers(r: R.RoomView, text: string) {
    var rows := SnapshotReader.ReadSnapshot(text);
    && rows.Some? && |rows.value| == |r.uids|
    && forall i | 0 <= i < |r.uids| :: Describes(r, r.uids[i], rows.value[i])
  }

  ghost predicate PlainNames(r: R.RoomView) {
    forall u | u in r.players :: SnapshotReader.Plain(r.players[u].nickname)
  }

  lemma SnapshotTells(r: R.RoomView)
    requires R.WellFormed(r) && PlainNames(r)
    ensures TellsMembers(r, R.SnapshotText(r))
  {
    var rows := R.Rows(r.uids, r.players);
    forall row | row in rows ensures SnapshotReader.Plain(row.nickname) {
      var i: nat :| i < |rows| && rows[i] == row;
      assert r.uids[i] in r.uids;
    }
    SnapshotReader.SnapshotReadsBack(rows);
    forall i | 0 <= i < |r.uids| ensures Describes(r, r.uids[i], rows[i]) {
      assert r.uids[i] in r.uids;
    }
  }

  /** The answer written last. */
  function Last(w: World): Reply {
    if w.wire != [] && w.wire[|w.wire| - 1].Replied? then w.wire[|w.wire| - 1].reply else GameOverRsp(0)
  }

  /** Entering is answered on the caller's own stream: with error 0, the room, the seat and
      the members when the room is in the table and lists the player, who is then mapped to
      it, and with error -3001 and no change at all otherwise. */
  lemma EnterAnswer(w: World, s: nat, uid: uint32, id: int32)
    requires Registered(w)
    ensures var w' := Handle(w, s, uid, EnterRoom(id));
      && w' == w.(uidToRoom := w'.uidToRoom, wire := w.wire + [Replied(s, Last(w'))]) && Last(w').EnterRoomRsp?
      && (Last(w').err == 0 <==> Lists(w, id, uid))
      && if Last(w').err == 0 then
           var r := w.objs[w.rooms[id]];
           && Last(w').roomId == id && Last(w').myGameId == (if r.uids[0] == uid then 1 else 2)
           && w'.uidToRoom == w.uidToRoom[uid := id]
           && (PlainNames(r) ==> TellsMembers(r, Last(w').playerList))
         else Last(w').err == -3001 && w'.uidToRoom == w.uidToRoom
  {
    if Lists(w, id, uid) {
      var r := w.objs[w.rooms[id]];
      if PlainNames(r) {
        SnapshotTells(r);
      }
    }
    hide SnapshotReader.ReadSnapshot, TellsMembers, PlainNames, R.SnapshotText;
  }

  /** Readiness is acknowledged with error 0 exactly when it was recorded. */
  lemma ReadyAnswer(w: World, s: nat, uid: uint32, id: int32)
    requires Registered(w)
    ensures var w' := Handle(w, s, uid, PlayerReady(id));
      && w' == w.(objs := w'.objs, wire := w.wire + [Replied(s, Last(w'))]) && Last(w').PlayerReadyRsp?
      && (Last(w').err == 0 <==> Lists(w, id, uid))
      && if Last(w').err == 0 then
           var o, r := w.rooms[id], w.objs[w.rooms[id]];
           w'.objs == w.objs[o := r.(players := r.players[uid := r.players[uid].(ready := true)])]
         else Last(w').err == -3001 && w'.objs == w.objs
  {
  }

  /** An input and a command that is not understood are not answered. */
  lemma InputsUnanswered(w: World, s: nat, uid: uint32, payload: seq<byte>)
    requires Registered(w)
    ensures Handle(w, s, uid, FrameInput(payload)).wire == w.wire
    ensures Handle(w, s, uid, Ignored) == w
  {
  }

  lemma {:induction false} FanoutCarries(sessions: map<uint32, nat>, uids: seq<uint32>, room: nat, cast: R.Cast)
    ensures forall i | 0 <= i < |Fanout(sessions, uids, room, cast)| ::
      var d := Fanout(sessions, uids, room, cast)[i];
      d.Pushed? && d.room == room && d.cast == cast
  {
    if uids != [] {
      FanoutCarries(sessions, uids[1..], room, cast);
    }
  }

  /** A game's end is acknowledged with error 0 exactly when the caller was mapped to a room
      of the table, which then has announced the winner the caller named and left the table. */
  lemma GameOverAnswer(w: World, s: nat, uid: uint32, winner: uint32)
    requires Registered(w)
    ensures var w' := Handle(w, s, uid, GameOverReq(winner));
      && w.wire <= w'.wire && |w'.wire| > |w.wire|
      && w'.wire[|w'.wire| - 1] == Replied(s, Last(w')) && Last(w').GameOverRsp?
      && (Last(w').err == 0 <==> uid in w.uidToRoom && w.uidToRoom[uid] in w.rooms)
      && if Last(w').err == 0 then
           var id := w.uidToRoom[uid];
           var o := w.rooms[id];
           && w'.rooms == w.rooms - {id}
           && |w'.objs| == |w.objs| && w'.objs[o].casts == w.objs[o].casts + [R.GameOver(id, winner)]
           && (forall i | |w.wire| <= i < |w'.wire| - 1 ::
                w'.wire[i].Pushed? && w'.wire[i].room == o && w'.wire[i].cast == R.GameOver(id, winner))
         else Last(w').err == -3001 && w' == w.(wire := w.wire + [Replied(s, Last(w'))])
  {
    if uid in w.uidToRoom && w.uidToRoom[uid] in w.rooms {
      var id := w.uidToRoom[uid];
      var o := w.rooms[id];
      var r := R.StopGame(w.objs[o], winner);
      var cast := R.GameOver(id, winner);
      assert r.casts[|r.casts| - 1] == cast;
      FanoutCarries(w.sessions, r.uids, o, cast);
      var sent := Fanout(w.sessions, r.uids, o, cast);
      hide Fanout;
      assert Handle(w, s, uid, GameOverReq(winner)).wire == w.wire + sent + [Replied(s, GameOverRsp(0))];
    }
  }

  // ---- CreateRoom ----

  /** `items[i]` is the first element of the list that names `u`, and no element up to it is bad. */
  ghost predicate Names(items: seq<Element>, i: nat, u: uint32) {
    && i < |items| && (forall j | 0 <= j <= i :: items[j].Element?)
    && items[i].uid == u && forall j | 0 <= j < i :: items[j].uid != u
  }

  /** A call is answered with error 0 and the id drawn exactly when the list is a list of
      players, and with error -1 and no id otherwise. Either way the room is in the table
      and has gained the players named before the first bad element, each as first named. */
  lemma CreateRoomAnswer(w: World, l: PlayerList, u: uint32)
    requires Registered(w)
    ensures var (w', rsp) := CreateRoom(w, l);
      var id := w.nextRoomId;
      && (rsp.err == 0 <==> l.Elements? && forall i | 0 <= i < |l.items| :: l.items[i].Element?)
      && (if rsp.err == 0 then rsp.roomId == id else rsp.err == -1 && rsp.roomId == 0)
      && id in w'.rooms && w'.rooms[id] < |w'.objs|
      && var players, items := w'.objs[w'.rooms[id]].players, if l.Elements? then l.items else [];
         if id in w.rooms && u in w.objs[w.rooms[id]].players then
           u in players && players[u] == w.objs[w.rooms[id]].players[u]
         else
           && (u in players <==> exists i: nat :: Names(items, i, u))
           && forall i: nat | Names(items, i, u) ::
                && players[u].nickname == items[i].nickname && players[u].characterId == items[i].characterId
                && players[u].uid == u && !players[u].ready
  {
    var id := w.nextRoomId;
    var r := if id in w.rooms then w.objs[w.rooms[id]] else R.NewRoom(id);
    NewRoomLife(id);
    AddAllNames(r, if l.Elements? then l.items else [], u);
  }

  lemma {:induction false} AddAllNames(r: R.RoomView, items: seq<Element>, u: uint32)
    requires R.WellFormed(r)
    ensures var players := AddAll(r, items).players;
      if u in r.players then u in players && players[u] == r.players[u]
      else
        && (u in players <==> exists i: nat :: Names(items, i, u))
        && forall i: nat | Names(items, i, u) ::
             && players[u].nickname == items[i].nickname && players[u].characterId == items[i].characterId
             && players[u].uid == u && !players[u].ready
    decreases |items|
  {
    if items != [] && items[0].Element? {
      var e := items[0];
      R.ApplyKeepsWellFormed(r, R.Enroll(e.uid, e.nickname, e.characterId));
      var r1 := R.AddPlayer(r, e.uid, e.nickname, e.characterId);
      AddAllNames(r1, items[1..], u);
      if u == e.uid {
        assert Names(items, 0, u);
      } else {
        NamesLater(items, u);
      }
    }
  }

  lemma NamesLater(items: seq<Element>, u: uint32)
    requires items != [] && items[0].Element? && items[0].uid != u
    ensures forall i: nat | Names(items[1..], i, u) :: Names(items, i + 1, u)
    ensures forall i: nat | Names(items, i, u) :: i > 0 && Names(items[1..], i - 1, u)
  {
  }
}
