/** The two models of the game server fit: whatever the request-atomic model can do, the
    lock-granular one can do by running each request's sections without interruption. */
module Granularity {
  import opened Types
  import R = RoomModel
  import G = GameModel
  import GameRuns
  import RoomIds
  import opened LockAtomic

  function Streams(calls: seq<Call>): (streams: seq<G.Stream>)
    ensures |streams| == |calls|
  {
    seq(|calls|, i requires 0 <= i < |calls| => G.Stream(calls[i].uid, calls[i].connId, !calls[i].pc.Finished?))
  }

  /** The request-atomic world a lock-granular state stands for. */
  ghost function Abstract(s: Sys): (w: G.World)
    requires Sound(s)
    ensures G.Registered(w)
  {
    hide R.WellFormed, PcSound;
    G.World(s.rooms, s.objs, s.uidToRoom, s.sessions, Streams(s.calls), s.wire, s.nextRoomId, Held(s.loop))
  }

  /** No request is in progress. */
  ghost predicate Quiet(s: Sys) {
    && (forall c | 0 <= c < |s.calls| :: s.calls[c].pc.Reading? || s.calls[c].pc.Finished?)
    && (forall k | 0 <= k < |s.creates| :: s.creates[k].Created?)
    && (s.loop.Sleeping? || s.loop.NextRoom?)
  }

  // ---- Reaching a state ----

  ghost predicate Reach(s: Sys, t: Sys)
    requires Sound(s)
  {
    exists es :: CanRun(s, es) && Run(s, es) == t
  }

  lemma {:induction false} RunConcat(s: Sys, es: seq<Event>, e: Event)
    requires Sound(s) && CanRun(s, es) && Enabled(Run(s, es), e)
    ensures CanRun(s, es + [e]) && Run(s, es + [e]) == Step(Run(s, es), e)
    decreases |es|
  {
    hide Sound, Step, Enabled;
    if es == [] {
      assert es + [e] == [e] && [e][1..] == [];
      StepKeepsSound(s, e);
      assert CanRun(Step(s, e), []);
    } else {
      assert (es + [e])[1..] == es[1..] + [e];
      StepKeepsSound(s, es[0]);
      RunConcat(Step(s, es[0]), es[1..], e);
    }
  }

  lemma Stay(s: Sys)
    requires Sound(s)
    ensures Reach(s, s)
  {
    assert CanRun(s, []) && Run(s, []) == s;
  }

  lemma Go(from: Sys, s: Sys, e: Event) returns (t: Sys)
    requires Sound(from) && Sound(s) && Reach(from, s) && Enabled(s, e)
    ensures t == Step(s, e) && Sound(t) && Reach(from, t)
  {
    StepKeepsSound(s, e);
    hide Sound, Step, Enabled, Run, CanRun;
    var es :| CanRun(from, es) && Run(from, es) == s;
    RunConcat(from, es, e);
    t := Step(s, e);
    assert Run(from, es + [e]) == t;
  }

  /** `t` is `s` but for the shared tables and where call `c` is. */
  ghost predicate Settled(s: Sys, c: nat, t: Sys, pc: Pc) {
    c < |s.calls| && t.calls == s.calls[c := s.calls[c].(pc := pc)] && t.creates == s.creates && t.loop == s.loop
  }

  lemma StreamsSettle(calls: seq<Call>, c: nat, pc: Pc)
    requires c < |calls|
    ensures Streams(calls[c := calls[c].(pc := pc)]) == Streams(calls)[c := Streams(calls)[c].(open := !pc.Finished?)]
  {
  }

  /** The next section of call `c`, when it has not finished and does not finish. */
  lemma Hop(from: Sys, s: Sys, c: nat) returns (t: Sys)
    requires Sound(from) && Sound(s) && Reach(from, s) && c < |s.calls|
    ensures t == StepCall(s, c) && Sound(t) && Reach(from, t)
    ensures Settled(s, c, t, NextPc(s, c))
    ensures !s.calls[c].pc.Finished? && !NextPc(s, c).Finished? ==> Streams(t.calls) == Streams(s.calls)
  {
    t := Go(from, s, CallStep(c));
    hide Sound, NextPc, Reach;
    EffectKeepsCounter(s, c);
    EffectKeepsLoop(s, c);
    StreamsSettle(s.calls, c, NextPc(s, c));
    assert !s.calls[c].pc.Finished? && !NextPc(s, c).Finished? ==> Streams(t.calls) == Streams(s.calls) by {
      hide Effect;
    }
  }

  lemma EffectKeepsLoop(s: Sys, c: nat)
    requires Sound(s) && c < |s.calls|
    ensures Effect(s, c).loop == s.loop
  {
    hide R.WellFormed, Held, R.StopGame, R.PushInput, R.MarkReady, G.Sends;
  }

  lemma PcOf(s: Sys, c: nat)
    requires Sound(s) && c < |s.calls|
    ensures PcSound(s.objs, s.calls[c].pc)
  {
  }

  lemma RoomOf(s: Sys, o: nat)
    requires Sound(s) && o < |s.objs|
    ensures R.WellFormed(s.objs[o])
  {
  }

  lemma TableOf(s: Sys, id: int32)
    requires Sound(s)
    ensures id in s.rooms ==> s.rooms[id] < |s.objs| && s.objs[s.rooms[id]].id == id
  {
  }

  // ---- Requests ----

  lemma ReplyAlone(from: Sys, s: Sys, c: nat, reply: G.Reply) returns (t: Sys)
    requires Sound(from) && Sound(s) && Reach(from, s) && c < |s.calls| && s.calls[c].pc == Replying(reply)
    ensures Sound(t) && Reach(from, t) && Settled(s, c, t, Reading) && Abstract(t) == G.Answer(Abstract(s), c, reply)
  {
    t := Hop(from, s, c);
    hide Sound, Reach;
  }

  /** From the snapshot on, entering a room needs nobody else. */
  lemma EnterFound(from: Sys, s: Sys, c: nat, u: uint32, id: int32, o: nat) returns (t: Sys)
    requires Sound(from) && Sound(s) && Reach(from, s) && c < |s.calls| && s.calls[c].pc == EnterSnapshot(u, id, o)
    ensures o < |s.objs| && u in s.objs[o].players
    ensures Sound(t) && Reach(from, t) && Settled(s, c, t, Reading)
    ensures Abstract(t) == G.Answer(Abstract(s).(uidToRoom := s.uidToRoom[u := id]), c,
      G.EnterRoomRsp(0, id, R.SnapshotText(s.objs[o]), s.objs[o].players[u].gameId))
  {
    hide Sound, Reach, R.WellFormed, R.SnapshotText;
    PcOf(s, c);
    RoomOf(s, o);
    var text, seat := R.SnapshotText(s.objs[o]), s.objs[o].players[u].gameId;
    t := Hop(from, s, c);
    assert t.calls[c].pc == EnterGetPlayer(u, id, o, text) && t.objs == s.objs;
    t := Hop(from, t, c);
    assert t.calls[c].pc == EnterMap(u, id, text, seat);
    t := Hop(from, t, c);
    t := ReplyAlone(from, t, c, G.EnterRoomRsp(0, id, text, seat));
  }

  lemma EnterAlone(from: Sys, s: Sys, c: nat, u: uint32, id: int32) returns (t: Sys)
    requires Sound(from) && Sound(s) && Reach(from, s) && c < |s.calls| && s.calls[c].pc == EnterLookup(u, id)
    ensures Sound(t) && Reach(from, t) && Settled(s, c, t, Reading)
    ensures Abstract(t) == G.Handle(Abstract(s), c, u, G.EnterRoom(id))
  {
    hide Reach, Sound, R.WellFormed, PcSound, R.SnapshotText;
    TableOf(s, id);
    t := Hop(from, s, c);
    if id in s.rooms {
      t := Hop(from, t, c);
      if u in s.objs[s.rooms[id]].players {
        t := EnterFound(from, t, c, u, id, s.rooms[id]);
        return;
      }
    }
    t := ReplyAlone(from, t, c, NO_ROOM);
  }

  /** A room's locked section is the model's update. */
  lemma SectionIsUpdate(s: Sys, o: nat, e: R.RoomEvent)
    requires Sound(s) && o < |s.objs|
    ensures Sound(Section(s, o, R.Apply(s.objs[o], e)))
    ensures Abstract(Section(s, o, R.Apply(s.objs[o], e))) == G.Update(Abstract(s), o, R.Apply(s.objs[o], e))
  {
    SectionKeepsSound(s, o, e);
    hide Sound, R.Apply, G.Sends;
  }

  lemma ReadyAlone(from: Sys, s: Sys, c: nat, u: uint32, id: int32) returns (t: Sys)
    requires Sound(from) && Sound(s) && Reach(from, s) && c < |s.calls| && s.calls[c].pc == ReadyLookup(u, id)
    ensures Sound(t) && Reach(from, t) && Settled(s, c, t, Reading)
    ensures Abstract(t) == G.Handle(Abstract(s), c, u, G.PlayerReady(id))
  {
    hide Reach, Sound, R.WellFormed, PcSound, R.MarkReady, G.Sends;
    TableOf(s, id);
    t := Hop(from, s, c);
    if id in s.rooms {
      t := Hop(from, t, c);
      if u in s.objs[s.rooms[id]].players {
        t := Hop(from, t, c);
        t := Hop(from, t, c);
      }
    }
    t := ReplyAlone(from, t, c, t.calls[c].pc.reply);
  }

  lemma InputAlone(from: Sys, s: Sys, c: nat, u: uint32, raw: seq<byte>) returns (t: Sys)
    requires Sound(from) && Sound(s) && Reach(from, s) && c < |s.calls|
    requires s.calls[c].pc == InputLookup(u, raw) && |raw| == 6
    ensures Sound(t) && Reach(from, t) && Settled(s, c, t, Reading)
    ensures Abstract(t) == G.Handle(Abstract(s), c, u, G.FrameInput(raw))
  {
    hide Reach, Sound, R.WellFormed, PcSound, R.PushInput, G.Sends;
    if u in s.uidToRoom {
      TableOf(s, s.uidToRoom[u]);
    }
    t := Hop(from, s, c);
    if GetRoomByUid(s, u).Some? {
      t := Hop(from, t, c);
    }
  }

  // ---- Stopping and destroying ----

  lemma {:induction false} UnmapAlone(from: Sys, s: Sys, c: nat, id: int32, uids: seq<uint32>, leaving: bool)
    returns (t: Sys)
    requires Sound(from) && Sound(s) && Reach(from, s) && c < |s.calls|
    requires s.calls[c].pc == DestroyUnmap(id, uids, leaving)
    ensures Sound(t) && Reach(from, t) && Settled(s, c, t, DestroyRemove(id, leaving))
    ensures Abstract(t) == Abstract(s).(uidToRoom := G.Unmap(s.uidToRoom, uids))
    decreases |uids|
  {
    hide Reach, R.WellFormed, PcSound;
    t := Hop(from, s, c);
    if uids == [] {
      assert G.Unmap(s.uidToRoom, uids) == s.uidToRoom;
    } else {
      assert G.Unmap(s.uidToRoom - {uids[0]}, uids[1..]) == G.Unmap(s.uidToRoom, uids);
      t := UnmapAlone(from, t, c, id, uids[1..], leaving);
    }
  }

  lemma DestroyMembersAlone(from: Sys, s: Sys, c: nat, id: int32, o: nat, leaving: bool) returns (t: Sys)
    requires Sound(from) && Sound(s) && Reach(from, s) && c < |s.calls|
    requires s.calls[c].pc == DestroyMembers(id, o, leaving)
    ensures Sound(t) && Reach(from, t) && Settled(s, c, t, DestroyRemove(id, leaving)) && o < |s.objs|
    ensures Abstract(t) == Abstract(s).(uidToRoom := G.Unmap(s.uidToRoom, s.objs[o].uids))
  {
    hide Reach, Sound, R.WellFormed, G.Unmap;
    PcOf(s, c);
    t := Hop(from, s, c);
    t := UnmapAlone(from, t, c, id, s.objs[o].uids, leaving);
  }

  lemma DestroyFound(from: Sys, s: Sys, c: nat, id: int32, o: nat, leaving: bool) returns (t: Sys)
    requires Sound(from) && Sound(s) && Reach(from, s) && c < |s.calls|
    requires s.calls[c].pc == DestroyMembers(id, o, leaving)
    ensures Sound(t) && Reach(from, t) && Settled(s, c, t, AfterDestroy(leaving)) && o < |s.objs|
    ensures Abstract(t) == Abstract(s).(uidToRoom := G.Unmap(s.uidToRoom, s.objs[o].uids), rooms := s.rooms - {id})
  {
    hide Reach, Sound, R.WellFormed, PcSound, G.Unmap;
    t := DestroyMembersAlone(from, s, c, id, o, leaving);
    t := Hop(from, t, c);
  }

  lemma DestroyAlone(from: Sys, s: Sys, c: nat, id: int32, leaving: bool) returns (t: Sys)
    requires Sound(from) && Sound(s) && Reach(from, s) && c < |s.calls| && s.calls[c].pc == DestroyLookup(id, leaving)
    ensures Sound(t) && Reach(from, t) && Settled(s, c, t, AfterDestroy(leaving))
    ensures Abstract(t) == G.Destroy(Abstract(s), id)
  {
    hide Reach, Sound, R.WellFormed, PcSound, G.Unmap;
    TableOf(s, id);
    t := Hop(from, s, c);
    if id in s.rooms {
      assert t.calls[c].pc == DestroyMembers(id, s.rooms[id], leaving);
      t := DestroyFound(from, t, c, id, s.rooms[id], leaving);
    }
  }

  lemma StopAlone(from: Sys, s: Sys, c: nat, o: nat, winner: uint32, leaving: bool) returns (t: Sys)
    requires Sound(from) && Sound(s) && Reach(from, s) && c < |s.calls| && s.calls[c].pc == Stopping(o, winner, leaving)
    ensures Sound(t) && Reach(from, t) && Settled(s, c, t, AfterDestroy(leaving))
    ensures o < |s.objs|
    ensures var w := G.Update(Abstract(s), o, R.StopGame(s.objs[o], winner));
      G.Registered(w) && Abstract(t) == G.Destroy(w, s.objs[o].id)
  {
    hide Reach, R.WellFormed, R.StopGame, G.Sends, G.Unmap, Effect, G.Update, G.Destroy, Sound;
    PcOf(s, c);
    SectionIsUpdate(s, o, R.Finish(winner));
    EffectIsSection(s, c);
    t := Hop(from, s, c);
    assert Abstract(t) == G.Update(Abstract(s), o, R.StopGame(s.objs[o], winner));
    t := DestroyAlone(from, t, c, s.objs[o].id, leaving);
  }

  lemma OverAlone(from: Sys, s: Sys, c: nat, u: uint32, winner: uint32) returns (t: Sys)
    requires Sound(from) && Sound(s) && Reach(from, s) && c < |s.calls| && s.calls[c].pc == OverLookup(u, winner)
    ensures Sound(t) && Reach(from, t) && Settled(s, c, t, Reading)
    ensures Abstract(t) == G.Handle(Abstract(s), c, u, G.GameOverReq(winner))
  {
    hide Reach, Sound, R.WellFormed, PcSound, R.StopGame, G.Sends, G.Unmap, G.Destroy, G.Update;
    if u in s.uidToRoom {
      TableOf(s, s.uidToRoom[u]);
    }
    t := Hop(from, s, c);
    if GetRoomByUid(s, u).Some? {
      t := StopAlone(from, t, c, GetRoomByUid(s, u).value, winner, false);
    }
    t := ReplyAlone(from, t, c, t.calls[c].pc.reply);
  }

  lemma LeaveAlone(from: Sys, s: Sys, c: nat) returns (t: Sys)
    requires Sound(from) && Sound(s) && Reach(from, s) && c < |s.calls| && s.calls[c].pc == LeaveLookup
    ensures Sound(t) && Reach(from, t) && Settled(s, c, t, LeaveUnmap)
    ensures Abstract(t) == G.LeaveGame(Abstract(s), s.calls[c].uid)
  {
    hide Reach, Sound, R.WellFormed, PcSound, R.StopGame, G.Sends, G.Unmap, G.Destroy, G.Update, G.OtherMember;
    if s.calls[c].uid in s.uidToRoom {
      TableOf(s, s.uidToRoom[s.calls[c].uid]);
    }
    t := Hop(from, s, c);
    var uid := s.calls[c].uid;
    if GetRoomByUid(s, uid).Some? {
      var o := GetRoomByUid(s, uid).value;
      t := Hop(from, t, c);
      if s.objs[o].phase == R.Gaming {
        t := Hop(from, t, c);
        t := StopAlone(from, t, c, o, G.OtherMember(s.objs[o].uids, uid), true);
      }
    }
  }

  lemma CloseAlone(from: Sys, s: Sys, c: nat) returns (t: Sys)
    requires Sound(from) && Sound(s) && Reach(from, s) && c < |s.calls| && s.calls[c].pc == LeaveLookup
    ensures Sound(t) && Reach(from, t) && Settled(s, c, t, Finished)
    ensures Abstract(t) == G.Close(Abstract(s), c)
  {
    hide Reach, R.WellFormed, PcSound, G.LeaveGame;
    hide Sound;
    var t1 := LeaveAlone(from, s, c);
    var uid := s.calls[c].uid;
    assert t1.calls[c].pc == LeaveUnmap && t1.calls[c].uid == uid;
    t := Hop(from, t1, c);
    assert t.calls[c].pc == LeaveUnregister;
    t := Hop(from, t, c);
    assert G.Unmap(t1.uidToRoom, [uid]) == t1.uidToRoom - {uid};
    StreamsSettle(s.calls, c, Finished);
  }

  // ---- CreateRoom ----

  lemma {:induction false} FillAlone(from: Sys, s: Sys, k: nat, o: nat, items: seq<G.Element>) returns (t: Sys)
    requires Sound(from) && Sound(s) && Reach(from, s) && k < |s.creates| && s.creates[k] == Filling(o, items)
    ensures Sound(t) && Reach(from, t) && o < |s.objs|
    ensures R.WellFormed(s.objs[o])
    ensures t == s.(objs := s.objs[o := G.AddAll(s.objs[o], items)], creates := s.creates[k := Created])
    decreases |items|
  {
    hide Reach, PcSound, R.AddPlayer;
    t := Go(from, s, CreateStep(k));
    if items != [] && items[0].Element? {
      t := FillAlone(from, t, k, o, items[1..]);
    }
  }

  lemma DrawAlone(from: Sys, s: Sys, l: G.PlayerList) returns (t: Sys)
    requires Sound(from) && Sound(s) && Reach(from, s)
    ensures Sound(t) && Reach(from, t)
    ensures t == s.(nextRoomId := RoomIds.WholeCall(s.nextRoomId), creates := s.creates + [Making(s.nextRoomId, l)])
  {
    hide Reach, Sound;
    var k := |s.creates|;
    t := Go(from, s, CreateCalled(l));
    t := Go(from, t, CreateStep(k));
    if s.nextRoomId > 1_000_000_000 {
      t := Go(from, t, CreateStep(k));
    }
  }

  lemma CreateAlone(from: Sys, s: Sys, l: G.PlayerList) returns (t: Sys)
    requires Sound(from) && Sound(s) && Reach(from, s)
    ensures Sound(t) && Reach(from, t)
    ensures t.calls == s.calls && t.creates == s.creates + [Created] && t.loop == s.loop
    ensures Abstract(t) == G.CreateRoom(Abstract(s), l).0
  {
    hide Reach, R.WellFormed, PcSound, G.AddAll, Held;
    var k := |s.creates|;
    t := DrawAlone(from, s, l);
    t := Go(from, t, CreateStep(k));
    t := FillAlone(from, t, k, t.creates[k].o, if l.Elements? then l.items else []);
  }

  // ---- The loop ----

  /** `t` is `s` after the loop has left room `o`, having started it or not. */
  ghost predicate Visited(s: Sys, o: nat, rest: seq<nat>, start: bool, t: Sys) {
    o < |s.objs| &&
    t == if start then Section(s, o, R.StartGame(s.objs[o])).(loop := NextRoom(rest), loopLog := t.loopLog)
         else s.(loop := NextRoom(rest))
  }

  lemma ReadyVisit(from: Sys, s: Sys, o: nat, rest: seq<nat>) returns (t: Sys)
    requires Sound(from) && Sound(s) && Reach(from, s) && s.loop == WillCheckReady(o, rest) && o < |s.objs|
    ensures Sound(t) && Reach(from, t) && Visited(s, o, rest, R.AllReady(s.objs[o]), t)
  {
    hide Reach, Sound, R.WellFormed, R.StartGame, G.Sends, R.AllReady;
    t := Go(from, s, LoopStep);
    if R.AllReady(s.objs[o]) {
      assert t == s.(loop := WillStart(o, rest));
      t := Go(from, t, LoopStep);
    }
  }

  /** The loop's visit of a room that was not gaming when it looked. */
  lemma VisitAlone(from: Sys, s: Sys, o: nat, rest: seq<nat>) returns (t: Sys)
    requires Sound(from) && Sound(s) && Reach(from, s) && s.loop == NotGaming(o, rest) && o < |s.objs|
    ensures Sound(t) && Reach(from, t)
    ensures Visited(s, o, rest, s.objs[o].phase == R.Idle && R.AllReady(s.objs[o]), t)
  {
    hide Reach, Sound, R.WellFormed, R.StartGame, G.Sends;
    t := Go(from, s, LoopStep);
    if s.objs[o].phase == R.Idle {
      assert t == s.(loop := WillCheckFull(o, rest));
      t := Go(from, t, LoopStep);
      if |s.objs[o].uids| >= 2 {
        assert t == s.(loop := WillCheckReady(o, rest));
        hide R.AllReady;
        t := ReadyVisit(from, t, o, rest);
      }
    }
  }

  lemma TickAlone(from: Sys, s: Sys, o: nat, rest: seq<nat>) returns (t: Sys)
    requires Sound(from) && Sound(s) && Reach(from, s) && s.loop == WillTick(o, rest)
    ensures Sound(t) && Reach(from, t) && o < |s.objs|
    ensures t == Section(s, o, R.Tick(s.objs[o])).(loop := NextRoom(rest), loopLog := t.loopLog)
  {
    assert Held(s.loop)[0] == o;
    hide Reach, Sound, R.WellFormed, R.Tick, G.Sends;
    t := Go(from, s, LoopStep);
  }

  /** The loop turns to the next room of its snapshot. */
  lemma LookAlone(from: Sys, s: Sys) returns (t: Sys)
    requires Sound(from) && Sound(s) && Reach(from, s) && s.loop.NextRoom? && s.loop.rest != []
    ensures Sound(t) && Reach(from, t)
    ensures var o, rest := s.loop.rest[0], s.loop.rest[1..];
      && o < |s.objs| && Held(s.loop) == [o] + rest
      && t == s.(loop := if s.objs[o].phase == R.Gaming then WillTick(o, rest) else NotGaming(o, rest))
  {
    assert Held(s.loop)[0] < |s.objs|;
    hide Reach, Sound, R.WellFormed;
    t := Go(from, s, LoopStep);
  }

  lemma TurnAlone(from: Sys, s: Sys) returns (t: Sys)
    requires Sound(from) && Sound(s) && Reach(from, s) && s.loop.NextRoom? && s.loop.rest != []
    ensures Sound(t) && Reach(from, t)
    ensures t.calls == s.calls && t.creates == s.creates && t.loop.NextRoom?
    ensures Abstract(t) == G.RoomTurn(Abstract(s))
  {
    hide Reach, Sound, R.WellFormed, R.Tick, R.StartGame, R.AllReady, G.Sends, StepLoop;
    var o, rest := s.loop.rest[0], s.loop.rest[1..];
    t := LookAlone(from, s);
    if s.objs[o].phase == R.Gaming {
      t := TickAlone(from, t, o, rest);
    } else {
      t := VisitAlone(from, t, o, rest);
    }
  }

  // ---- Whole runs ----

  lemma ReceiveAlone(from: Sys, s: Sys, c: nat, u: uint32, cmd: G.Command) returns (t: Sys)
    requires Sound(from) && Sound(s) && Reach(from, s) && c < |s.calls| && s.calls[c].pc.Reading?
    ensures Sound(t) && Reach(from, t) && Settled(s, c, t, Dispatch(u, cmd)) && Abstract(t) == Abstract(s)
  {
    hide Reach, Sound, Dispatch;
    assert !Dispatch(u, cmd).Finished? by {
      NeverFinished(u, cmd);
    }
    t := Go(from, s, Receive(c, u, cmd));
    StreamsSettle(s.calls, c, Dispatch(u, cmd));
  }

  lemma NeverFinished(u: uint32, cmd: G.Command)
    ensures !Dispatch(u, cmd).Finished?
  {
  }

  lemma RequestAlone(from: Sys, s: Sys, c: nat, u: uint32, cmd: G.Command) returns (t: Sys)
    requires Sound(from) && Sound(s) && Reach(from, s) && c < |s.calls| && s.calls[c].pc.Reading?
    ensures Sound(t) && Reach(from, t) && Settled(s, c, t, Reading)
    ensures Abstract(t) == G.Handle(Abstract(s), c, u, cmd)
  {
    hide Reach, Sound, R.WellFormed, PcSound, G.Handle, Abstract;
    t := ReceiveAlone(from, s, c, u, cmd);
    match cmd
    case EnterRoom(id) => t := EnterAlone(from, t, c, u, id);
    case PlayerReady(id) => t := ReadyAlone(from, t, c, u, id);
    case FrameInput(raw) =>
      if |raw| == 6 {
        t := InputAlone(from, t, c, u, raw);
      } else {
        NothingToHandle(Abstract(s), c, u, cmd);
      }
    case GameOverReq(winner) => t := OverAlone(from, t, c, u, winner);
    case Ignored => NothingToHandle(Abstract(s), c, u, cmd);
  }

  lemma NothingToHandle(w: G.World, c: nat, u: uint32, cmd: G.Command)
    requires G.Registered(w) && (cmd.Ignored? || (cmd.FrameInput? && |cmd.payload| != 6))
    ensures G.Handle(w, c, u, cmd) == w
  {
  }

  lemma OpenAlone(from: Sys, s: Sys, uid: uint32, connId: uint32) returns (t: Sys)
    requires Sound(from) && Sound(s) && Reach(from, s)
    ensures Sound(t) && Reach(from, t)
    ensures t.calls == s.calls + [Call(uid, connId, Reading)] && t.creates == s.creates && t.loop == s.loop
    ensures Abstract(t) == G.Open(Abstract(s), uid, connId)
  {
    hide Reach, R.WellFormed, PcSound;
    var c := |s.calls|;
    t := Go(from, s, Accept(uid, connId));
    var t1 := t;
    assert Streams(t1.calls) == Streams(s.calls) + [G.Stream(uid, connId, true)];
    t := Hop(from, t1, c);
  }

  lemma SnapshotAlone(from: Sys, s: Sys, order: seq<nat>) returns (t: Sys)
    requires Sound(from) && Sound(s) && Reach(from, s) && Quiet(s)
    requires G.Enabled(Abstract(s), G.Snapshot(order))
    ensures Sound(t) && Reach(from, t)
    ensures t == s.(loop := NextRoom(order)) && Abstract(t) == Abstract(s).(pending := order)
  {
    hide Reach, R.WellFormed, PcSound;
    t := s;
    if s.loop.NextRoom? {
      t := Go(from, t, LoopStep);
    }
    t := Go(from, t, TakeSnapshot(order));
  }

  /** One request-atomic step, as a stretch of lock-granular ones. */
  lemma StepAlone(from: Sys, s: Sys, e: G.Event) returns (t: Sys)
    requires Sound(from) && Sound(s) && Reach(from, s) && Quiet(s)
    requires G.Enabled(Abstract(s), e)
    ensures Sound(t) && Reach(from, t) && Quiet(t)
    ensures Abstract(t) == G.Step(Abstract(s), e)
  {
    hide Reach, Sound, R.WellFormed, PcSound, G.Handle, G.Close, G.RoomTurn, G.CreateRoom;
    match e
    case CreateRoomCall(l) => t := CreateAlone(from, s, l);
    case StreamOpened(uid, connId) => t := OpenAlone(from, s, uid, connId);
    case Request(c, u, cmd) => t := RequestAlone(from, s, c, u, cmd);
    case StreamClosed(c) =>
      t := Go(from, s, HangUp(c));
      StreamsSettle(s.calls, c, LeaveLookup);
      assert Abstract(t) == Abstract(s);
      t := CloseAlone(from, t, c);
    case Snapshot(order) => t := SnapshotAlone(from, s, order);
    case Turn => t := TurnAlone(from, s);
  }

  lemma {:induction false} RunAlone(from: Sys, s: Sys, es: seq<G.Event>) returns (t: Sys)
    requires Sound(from) && Sound(s) && Reach(from, s) && Quiet(s)
    requires G.Inv(Abstract(s)) && GameRuns.CanRun(Abstract(s), es)
    ensures Sound(t) && Reach(from, t) && Quiet(t)
    ensures Abstract(t) == GameRuns.Run(Abstract(s), es)
    decreases |es|
  {
    if es == [] {
      t := s;
    } else {
      G.StepKeepsInv(Abstract(s), es[0]);
      hide Sound, Reach, Quiet, G.Inv, G.Step, G.Enabled, Abstract;
      t := StepAlone(from, s, es[0]);
      t := RunAlone(from, t, es[1..]);
    }
  }

  /** `s` has no request in progress and abstracts to `w`. */
  ghost predicate StandsFor(s: Sys, w: G.World)
    requires Sound(s)
  {
    Quiet(s) && Abstract(s) == w
  }

  /** Every run of the request-atomic model is some interleaving of the lock-granular
      one, which it abstracts: so what is shown to fail request by request really can
      happen, and what holds of every interleaving holds of every such run. */
  lemma RequestRunsAreInterleavings(es: seq<G.Event>)
    requires G.Inv(G.Init()) && GameRuns.CanRun(G.Init(), es)
    ensures Sound(Init())
    ensures exists ls :: CanRun(Init(), ls) && StandsFor(Run(Init(), ls), GameRuns.Run(G.Init(), es))
  {
    InitSound();
    Stay(Init());
    assert Abstract(Init()) == G.Init();
    var t := RunAlone(Init(), Init(), es);
    var ls :| CanRun(Init(), ls) && Run(Init(), ls) == t;
    assert StandsFor(t, GameRuns.Run(G.Init(), es));
  }
}
