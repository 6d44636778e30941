/** The lobby's matchmaking queue and online set, and why the queue is a single slot. */
module Lobby {
  import opened Types
  import G = GameModel
  import GameServer
  import SnapshotJson
  import SnapshotReader

  datatype MatchPlayer = MatchPlayer(uid: uint32, connId: uint32, characterId: int32, nickname: string)

  datatype Matched = NoMatch | Pair(first: MatchPlayer, second: MatchPlayer)

  datatype MatchGameNtf = MatchGameNtf(err: int, roomId: string, position: int, players: seq<MatchPlayer>)

  /** A notification pushed through the gateway to one connection. */
  datatype Push = Push(connId: uint32, ntf: MatchGameNtf)

  /** What the database has on a player. */
  datatype PlayerData = PlayerData(uid: uint32, nickname: string, dataJson: string)

  /** The answer to a request; a request that does not parse is not answered. */
  datatype Reply =
    | LoginRsp(err: int, player: Option<PlayerData>)
    | LogoutRsp(err: int, kick: bool)
    | MatchGameRsp(err: int)
    | MatchStopRsp(err: int, success: bool)
    | NoReply

  const PLAYER_NOT_EXISTS: int := -2202

  /** How the call to the game server went: it may be lost before or after it ran. */
  datatype Rpc = NotDelivered | AnswerLost | Answered

  // ---- Critical sections as functions of the queue ----

  predicate Queued(q: seq<MatchPlayer>, uid: uint32) {
    exists p :: p in q && p.uid == uid
  }

  function MatchSection(q: seq<MatchPlayer>, p: MatchPlayer): (seq<MatchPlayer>, Matched) {
    var q1 := if Queued(q, p.uid) then q else q + [p];
    if |q1| >= 2 then (q1[2..], Pair(q1[0], q1[1])) else (q1, NoMatch)
  }

  function Without(q: seq<MatchPlayer>, uid: uint32): seq<MatchPlayer> {
    if q == [] then []
    else if q[0].uid == uid then Without(q[1..], uid)
    else [q[0]] + Without(q[1..], uid)
  }

  /** One turn of the erase loop at position `i`. */
  lemma WithoutStep(q: seq<MatchPlayer>, i: nat, uid: uint32)
    requires i < |q|
    ensures q[i].uid == uid ==>
      var q1 := q[..i] + q[i + 1..]; q1[..i] == q[..i] && Without(q1[i..], uid) == Without(q[i..], uid)
    ensures q[i].uid != uid ==> q[..i] + Without(q[i..], uid) == q[..i + 1] + Without(q[i + 1..], uid)
  {
    assert q[i..][1..] == q[i + 1..];
    if q[i].uid == uid {
      var q1 := q[..i] + q[i + 1..];
      assert q1[..i] == q[..i] && q1[i..] == q[i + 1..];
    } else {
      assert q[..i + 1] == q[..i] + [q[i]];
    }
  }

  function PlayerList(a: MatchPlayer, b: MatchPlayer): G.PlayerList {
    G.Elements([G.Element(a.uid, a.nickname, a.characterId), G.Element(b.uid, b.nickname, b.characterId)])
  }

  /** What the two matched players are told about the room. */
  function Notices(a: MatchPlayer, b: MatchPlayer, roomId: Option<int32>): seq<Push> {
    match roomId
    case Some(id) =>
      [Push(a.connId, MatchGameNtf(0, SnapshotJson.Decimal(id), 1, [a, b])),
       Push(b.connId, MatchGameNtf(0, SnapshotJson.Decimal(id), 2, [a, b]))]
    case None =>
      [Push(a.connId, MatchGameNtf(-1, "", 0, [])), Push(b.connId, MatchGameNtf(-1, "", 0, []))]
  }

  datatype Presence =
    | Login(who: uint32, named: bool)
    | Leave(who: uint32) // a logout or a disconnect

  /** A login counts only for a player who has chosen a name. */
  function Attend(online: set<uint32>, e: Presence): set<uint32> {
    match e
    case Login(uid, named) => if named then online + {uid} else online
    case Leave(uid) => online - {uid}
  }

  /** What the notices say. The room's number can be read back from its text; the players are
      listed in order, the first in position 1 and the second in position 2; and both are told
      of a failure by an error other than 0. */
  lemma NoticesTell(a: MatchPlayer, b: MatchPlayer, known: Option<int32>)
    ensures var n := Notices(a, b, known);
      && |n| == 2 && n[0].connId == a.connId && n[1].connId == b.connId
      && (known.Some? ==>
           && n[0].ntf.err == 0 && n[0].ntf.position == 1 && n[0].ntf.players == [a, b]
           && n[1].ntf.err == 0 && n[1].ntf.position == 2 && n[1].ntf.players == [a, b]
           && SnapshotReader.NumberIn(n[0].ntf.roomId) == Some(known.value)
           && SnapshotReader.NumberIn(n[1].ntf.roomId) == Some(known.value))
      && (known == None ==> n[0].ntf.err == -1 && n[1].ntf.err == -1)
  {
    if known.Some? {
      SnapshotReader.DecimalReadsBack(known.value);
    }
    hide SnapshotReader.NumberIn, SnapshotJson.Decimal;
  }

  class LobbyService {
    var onlinePlayers: set<uint32>
    var matchQueue: seq<MatchPlayer>
    var pushConnected: bool
    var pushed: seq<Push>

    constructor ()
      ensures onlinePlayers == {} && matchQueue == [] && !pushConnected && pushed == []
    {
      onlinePlayers, matchQueue, pushConnected, pushed := {}, [], false, [];
    }

    method PushToGateway(connId: uint32, ntf: MatchGameNtf)
      modifies this`pushed
      ensures pushed == old(pushed) + if pushConnected then [Push(connId, ntf)] else []
    {
      if pushConnected {
        pushed := pushed + [Push(connId, ntf)];
      }
    }

    method MatchCriticalSection(p: MatchPlayer) returns (matched: Matched)
      modifies this`matchQueue
      ensures (matchQueue, matched) == MatchSection(old(matchQueue), p)
    {
      var inQueue, i := false, 0;
      while i < |matchQueue|
        invariant 0 <= i <= |matchQueue|
        invariant !inQueue && forall j | 0 <= j < i :: matchQueue[j].uid != p.uid
      {
        if matchQueue[i].uid == p.uid {
          inQueue := true;
          break;
        }
        i := i + 1;
      }
      assert inQueue == Queued(matchQueue, p.uid);
      if !inQueue {
        matchQueue := matchQueue + [p];
      }
      if |matchQueue| >= 2 {
        var p1 := matchQueue[0];
        matchQueue := matchQueue[1..];
        var p2 := matchQueue[0];
        matchQueue := matchQueue[1..];
        return Pair(p1, p2);
      }
      return NoMatch;
    }

    /** The erase loop of a stop and of a disconnect. */
    method EraseFromQueue(uid: uint32)
      modifies this`matchQueue
      ensures matchQueue == Without(old(matchQueue), uid)
    {
      var i := 0;
      while i < |matchQueue|
        invariant 0 <= i <= |matchQueue|
        invariant matchQueue[..i] + Without(matchQueue[i..], uid) == Without(old(matchQueue), uid)
        decreases |matchQueue| - i
      {
        WithoutStep(matchQueue, i, uid);
        if matchQueue[i].uid == uid {
          matchQueue := matchQueue[..i] + matchQueue[i + 1..];
        } else {
          i := i + 1;
        }
      }
      assert matchQueue[..i] + [] == matchQueue;
    }

    method HandleMatchStop(uid: uint32) returns (rsp: Reply)
      modifies this`matchQueue
      ensures matchQueue == Without(old(matchQueue), uid) && rsp == MatchStopRsp(0, true)
    {
      EraseFromQueue(uid);
      return MatchStopRsp(0, true);
    }

    method ClientDisconnect(uid: uint32)
      modifies this`onlinePlayers, this`matchQueue
      ensures onlinePlayers == Attend(old(onlinePlayers), Leave(uid)) && matchQueue == Without(old(matchQueue), uid)
    {
      onlinePlayers := onlinePlayers - {uid};
      EraseFromQueue(uid);
    }

    /** `data` is what the database returns. */
    method HandleLogin(uid: uint32, parsed: bool, data: Option<PlayerData>) returns (rsp: Reply)
      modifies this`onlinePlayers
      ensures !parsed ==> onlinePlayers == old(onlinePlayers) && rsp == NoReply
      ensures parsed ==>
        var named := data.Some? && data.value.nickname != "";
        && onlinePlayers == Attend(old(onlinePlayers), Login(uid, named))
        && rsp == if named then LoginRsp(0, data) else LoginRsp(-2202, None)
    {
      if !parsed {
        return NoReply;
      }
      if data.Some? && data.value.nickname != "" {
        onlinePlayers := onlinePlayers + {uid};
        return LoginRsp(0, data);
      }
      return LoginRsp(PLAYER_NOT_EXISTS, None);
    }

    /** The answer has the gateway drop the connection. */
    method HandleLogout(uid: uint32) returns (rsp: Reply)
      modifies this`onlinePlayers
      ensures onlinePlayers == Attend(old(onlinePlayers), Leave(uid)) && rsp == LogoutRsp(0, true)
    {
      onlinePlayers := onlinePlayers - {uid};
      return LogoutRsp(0, true);
    }

    /** The room for a pair: what the lobby gets to know about it. */
    method RequestRoom(p1: MatchPlayer, p2: MatchPlayer, game: GameServer.RoomManager, rpc: Rpc)
      returns (known: Option<int32>)
      requires game.Valid()
      modifies game, game.objects
      ensures game.Valid()
      ensures var (w, rsp) := G.CreateRoom(old(game.View()), PlayerList(p1, p2));
        && game.View() == (if rpc.NotDelivered? then old(game.View()) else w)
        && known == if rpc.Answered? && rsp.err == 0 then Some(rsp.roomId) else None
    {
      hide G.Inv, G.CreateRoom, GameServer.RoomManager.View, GameServer.RoomManager.Structure;
      if rpc.NotDelivered? {
        return None;
      }
      var rsp := game.CreateRoom(PlayerList(p1, p2));
      if rpc.Answered? && rsp.err == 0 {
        return Some(rsp.roomId);
      }
      return None;
    }

    method Notify(p1: MatchPlayer, p2: MatchPlayer, known: Option<int32>)
      modifies this`pushed
      ensures pushed == old(pushed) + if pushConnected then Notices(p1, p2, known) else []
    {
      if known.Some? {
        var roomId := SnapshotJson.Decimal(known.value);
        PushToGateway(p1.connId, MatchGameNtf(0, roomId, 1, [p1, p2]));
        PushToGateway(p2.connId, MatchGameNtf(0, roomId, 2, [p1, p2]));
      } else {
        PushToGateway(p1.connId, MatchGameNtf(-1, "", 0, []));
        PushToGateway(p2.connId, MatchGameNtf(-1, "", 0, []));
      }
    }

    /** What follows the database read of a match request: the queue's critical section, then,
        for a pair, a room on the game server and a notice to each. */
    method Enqueue(p: MatchPlayer, game: GameServer.RoomManager, rpc: Rpc)
      requires game.Valid()
      modifies this`matchQueue, this`pushed, game, game.objects
      ensures game.Valid()
      ensures matchQueue == MatchSection(old(matchQueue), p).0
      ensures MatchSection(old(matchQueue), p).1 == NoMatch ==>
        game.View() == old(game.View()) && pushed == old(pushed)
      ensures MatchSection(old(matchQueue), p).1.Pair? ==>
        var Pair(p1, p2) := MatchSection(old(matchQueue), p).1;
        var (w, rsp) := G.CreateRoom(old(game.View()), PlayerList(p1, p2));
        var known := if rpc.Answered? && rsp.err == 0 then Some(rsp.roomId) else None;
        && game.View() == (if rpc.NotDelivered? then old(game.View()) else w)
        && pushed == old(pushed) + if pushConnected then Notices(p1, p2, known) else []
    {
      hide G.Inv, G.CreateRoom, GameServer.RoomManager.View, GameServer.RoomManager.Structure, MatchSection, Notices;
      var matched := MatchCriticalSection(p);
      if matched.Pair? {
        var known := RequestRoom(matched.first, matched.second, game, rpc);
        Notify(matched.first, matched.second, known);
      }
    }

    /** A match request. `characterId` is what the request parses to, if it does, and `data`
        what the database returns. The requester is told only that the request is accepted. */
    method HandleMatchGame(uid: uint32, connId: uint32, characterId: Option<int32>, data: Option<PlayerData>,
        game: GameServer.RoomManager, rpc: Rpc) returns (rsp: Reply)
      requires game.Valid()
      modifies this`matchQueue, this`pushed, game, game.objects
      ensures game.Valid()
      ensures characterId == None ==>
        rsp == NoReply && matchQueue == old(matchQueue) && pushed == old(pushed) && game.View() == old(game.View())
      ensures characterId.Some? ==>
        var nickname := if data.Some? then data.value.nickname else "Player";
        var (q, matched) := MatchSection(old(matchQueue), MatchPlayer(uid, connId, characterId.value, nickname));
        && rsp == MatchGameRsp(0) && matchQueue == q
        && (matched == NoMatch ==> game.View() == old(game.View()) && pushed == old(pushed))
        && (matched.Pair? ==>
             var (w, room) := G.CreateRoom(old(game.View()), PlayerList(matched.first, matched.second));
             var known := if rpc.Answered? && room.err == 0 then Some(room.roomId) else None;
             && game.View() == (if rpc.NotDelivered? then old(game.View()) else w)
             && pushed == old(pushed) + if pushConnected then Notices(matched.first, matched.second, known) else [])
    {
      hide G.Inv, G.CreateRoom, GameServer.RoomManager.View, GameServer.RoomManager.Structure, MatchSection, Notices;
      if characterId == None {
        return NoReply;
      }
      var nickname := if data.Some? then data.value.nickname else "Player";
      Enqueue(MatchPlayer(uid, connId, characterId.value, nickname), game, rpc);
      return MatchGameRsp(0);
    }
  }

  // ---- Runs of the queue ----

  datatype Event =
    | Request(player: MatchPlayer)
    | Gone(uid: uint32) // a match stop or a disconnect

  /** The queue with everything it has seen: pairs made, entries made, entries removed. */
  datatype History = History(queue: seq<MatchPlayer>, pairs: seq<Matched>, enqueued: nat, removed: nat)

  function Handle(h: History, e: Event): History {
    match e
    case Request(p) =>
      var (q, matched) := MatchSection(h.queue, p);
      History(q, if matched.Pair? then h.pairs + [matched] else h.pairs,
        if Queued(h.queue, p.uid) then h.enqueued else h.enqueued + 1, h.removed)
    case Gone(uid) =>
      var q := Without(h.queue, uid);
      h.(queue := q, removed := h.removed + if |q| < |h.queue| then |h.queue| - |q| else 0)
  }

  function After(es: seq<Event>): History {
    if es == [] then History([], [], 0, 0) else Handle(After(es[..|es| - 1]), es[|es| - 1])
  }

  /** The specification: one waiting slot. */
  function Wait(slot: Option<MatchPlayer>, e: Event): (Option<MatchPlayer>, Matched) {
    match e
    case Request(p) =>
      if slot == None then (Some(p), NoMatch)
      else if slot.value.uid == p.uid then (slot, NoMatch)
      else (None, Pair(slot.value, p))
    case Gone(uid) =>
      if slot.Some? && slot.value.uid == uid then (None, NoMatch) else (slot, NoMatch)
  }

  function Slot(es: seq<Event>): Option<MatchPlayer> {
    if es == [] then None else Wait(Slot(es[..|es| - 1]), es[|es| - 1]).0
  }

  function SlotPairs(es: seq<Event>): seq<Matched> {
    if es == [] then []
    else
      var p := es[..|es| - 1];
      var matched := Wait(Slot(p), es[|es| - 1]).1;
      if matched.Pair? then SlotPairs(p) + [matched] else SlotPairs(p)
  }

  function AsQueue(slot: Option<MatchPlayer>): seq<MatchPlayer> {
    if slot.Some? then [slot.value] else []
  }

  /** One critical section on a queue that holds a slot's worth. */
  lemma SectionIsWait(slot: Option<MatchPlayer>, p: MatchPlayer)
    ensures MatchSection(AsQueue(slot), p) == (AsQueue(Wait(slot, Request(p)).0), Wait(slot, Request(p)).1)
    ensures Queued(AsQueue(slot), p.uid) <==> slot.Some? && slot.value.uid == p.uid
  {
    var q := AsQueue(slot);
    if slot.Some? {
      assert slot.value in q;
      assert Queued(q, p.uid) <==> slot.value.uid == p.uid;
      assert (q + [p])[2..] == [];
    } else {
      assert q + [p] == [p];
    }
  }

  lemma GoneIsWait(slot: Option<MatchPlayer>, uid: uint32)
    ensures Without(AsQueue(slot), uid) == AsQueue(Wait(slot, Gone(uid)).0)
  {
    if slot.Some? {
      assert AsQueue(slot)[1..] == [];
    }
  }

  /** After every run of requests, stops and disconnects the queue holds what a single
      waiting slot would hold, so never two entries, and has made the slot's pairs; and
      every entry ever made is in a pair, removed, or waiting. */
  lemma {:induction false} QueueIsOneSlot(es: seq<Event>)
    ensures var h := After(es);
      && h.queue == AsQueue(Slot(es)) && |h.queue| <= 1
      && h.pairs == SlotPairs(es)
      && h.enqueued == 2 * |h.pairs| + h.removed + |h.queue|
    decreases |es|
  {
    if es != [] {
      var p, e := es[..|es| - 1], es[|es| - 1];
      QueueIsOneSlot(p);
      if e.Request? {
        SectionIsWait(Slot(p), e.player);
      } else {
        GoneIsWait(Slot(p), e.uid);
      }
    }
  }

  /** `w` asked at position `i` and has waited ever since: nobody else has asked and
      `w` has neither stopped nor gone. */
  ghost predicate WaitingSince(es: seq<Event>, w: MatchPlayer, i: nat) {
    && i < |es| && es[i] == Request(w) && Slot(es[..i]) == None
    && forall j | i < j < |es| :: if es[j].Request? then es[j].player.uid == w.uid else es[j].uid != w.uid
  }

  lemma {:induction false} SlotMeansWaiting(es: seq<Event>, w: MatchPlayer)
    ensures Slot(es) == Some(w) <==> exists i: nat :: WaitingSince(es, w, i)
    decreases |es|
  {
    if es != [] {
      var n := |es| - 1;
      var p, e := es[..n], es[n];
      SlotMeansWaiting(p, w);
      if Slot(es) == Some(w) {
        if Slot(p) == Some(w) {
          var i: nat :| WaitingSince(p, w, i);
          assert p[..i] == es[..i];
          assert WaitingSince(es, w, i);
        } else {
          assert WaitingSince(es, w, n);
        }
      }
      if i: nat :| WaitingSince(es, w, i) {
        if i < n {
          assert p[..i] == es[..i];
          assert WaitingSince(p, w, i);
        }
      }
    }
  }

  /** Every pair is an earlier waiter, who has waited without a break, and the player
      now asking, who is somebody else. */
  lemma PairsAreWaiterAndRequester(es: seq<Event>, p: MatchPlayer)
    ensures var matched := MatchSection(After(es).queue, p).1;
      && (matched.Pair? ==>
           && matched.second == p && matched.first.uid != p.uid
           && exists i: nat :: WaitingSince(es, matched.first, i))
      && (forall w, i: nat | WaitingSince(es, w, i) && w.uid != p.uid :: matched == Pair(w, p))
  {
    QueueIsOneSlot(es);
    SectionIsWait(Slot(es), p);
    if Slot(es).Some? {
      SlotMeansWaiting(es, Slot(es).value);
    }
    forall w, i: nat | WaitingSince(es, w, i)
      ensures Slot(es) == Some(w)
    {
      SlotMeansWaiting(es, w);
    }
  }

  // ---- The online set ----

  function Online(es: seq<Presence>): set<uint32> {
    if es == [] then {} else Attend(Online(es[..|es| - 1]), es[|es| - 1])
  }

  /** The login at position `i` counts: the player had a name and has not left since. */
  ghost predicate LoggedInSince(es: seq<Presence>, uid: uint32, i: nat) {
    && i < |es| && es[i] == Login(uid, true)
    && forall j | i < j < |es| :: es[j] != Leave(uid)
  }

  /** A player is online exactly if a login that counts has not been followed by a
      logout or disconnect of theirs. */
  lemma {:induction false} OnlineMeansLoggedIn(es: seq<Presence>, uid: uint32)
    ensures uid in Online(es) <==> exists i: nat :: LoggedInSince(es, uid, i)
    decreases |es|
  {
    if es != [] {
      var n := |es| - 1;
      var p := es[..n];
      OnlineMeansLoggedIn(p, uid);
      if i: nat :| LoggedInSince(p, uid, i) {
        assert es[n] != Leave(uid) ==> LoggedInSince(es, uid, i);
      }
      if i: nat :| LoggedInSince(es, uid, i) {
        assert i < n ==> LoggedInSince(p, uid, i);
      }
      if es[n] == Login(uid, true) {
        assert LoggedInSince(es, uid, n);
      }
    }
  }
}
