/** What holds request by request and can fail when sections interleave, each with a run
    from the initial state in which it does fail. */
module Races {
  import opened Types
  import R = RoomModel
  import G = GameModel
  import opened LockAtomic
  import opened Granularity

  /** The first room, with two players. */
  function TwoPlayers(a: uint32, b: uint32, readyA: bool, readyB: bool): R.RoomView {
    R.RoomView(1000, R.Idle, [a, b],
      map[a := R.Player(a, "", 0, 1, readyA), b := R.Player(b, "", 0, 2, readyB)], R.Frame(0, 0, map[]), [])
  }

  function PlayerListOf(a: uint32, b: uint32): G.PlayerList {
    G.Elements([G.Element(a, "", 0), G.Element(b, "", 0)])
  }

  /** The room is made, both players have streams and `a` has entered. */
  ghost predicate Underway(w: G.World, a: uint32, b: uint32, readyA: bool, readyB: bool) {
    && w.rooms == map[1000 := 0] && w.objs == [TwoPlayers(a, b, readyA, readyB)]
    && w.uidToRoom == map[a := 1000] && w.streams == [G.Stream(a, 0, true), G.Stream(b, 1, true)] && w.pending == []
  }

  lemma RoomMade(a: uint32, b: uint32)
    requires a != b
    ensures G.Registered(G.Init())
    ensures G.CreateRoom(G.Init(), PlayerListOf(a, b)).0
         == G.Init().(rooms := map[1000 := 0], objs := [TwoPlayers(a, b, false, false)], nextRoomId := 1001)
  {
    var items := PlayerListOf(a, b).items;
    var r0 := R.NewRoom(1000);
    var r1 := R.AddPlayer(r0, a, "", 0);
    assert items[1..] == [G.Element(b, "", 0)] && items[1..][1..] == [];
    assert r1.uids == [a];
    var r2 := R.AddPlayer(r1, b, "", 0);
    assert r1.players == map[a := R.Player(a, "", 0, 1, false)];
    assert r2.uids == [a, b];
    assert r2.players == map[a := R.Player(a, "", 0, 1, false), b := R.Player(b, "", 0, 2, false)];
    assert r2 == TwoPlayers(a, b, false, false);
    assert G.AddAll(r1, items[1..]) == r2;
    assert G.AddAll(r0, items) == TwoPlayers(a, b, false, false);
  }

  lemma Ready(w: G.World, s: nat, u: uint32, a: uint32, b: uint32, readyA: bool, readyB: bool)
    requires a != b && G.Registered(w) && Underway(w, a, b, readyA, readyB) && (u == a || u == b)
    ensures Underway(G.Handle(w, s, u, G.PlayerReady(1000)), a, b, readyA || u == a, readyB || u == b)
  {
    assert u in w.objs[0].players;
    OneMoreReady(u, a, b, readyA, readyB);
    hide R.MarkReady, TwoPlayers, R.WellFormed, G.Fanout;
    assert w.objs[0 := R.MarkReady(w.objs[0], u)] == [R.MarkReady(w.objs[0], u)];
  }

  lemma OneMoreReady(u: uint32, a: uint32, b: uint32, readyA: bool, readyB: bool)
    requires a != b && (u == a || u == b)
    ensures u in TwoPlayers(a, b, readyA, readyB).players
    ensures R.MarkReady(TwoPlayers(a, b, readyA, readyB), u) == TwoPlayers(a, b, readyA || u == a, readyB || u == b)
  {
  }

  /** A reachable quiet state with a room that is ready to start and not yet started. */
  ghost predicate Prepared(s: Sys, a: uint32, b: uint32) {
    && Sound(Init()) && Sound(s) && Reach(Init(), s) && Quiet(s) && |s.calls| == 2
    && s.calls[0] == Call(a, 0, Reading) && s.calls[1] == Call(b, 1, Reading)
    && s.rooms == map[1000 := 0] && s.objs == [TwoPlayers(a, b, true, true)]
    && s.uidToRoom == map[a := 1000] && Held(s.loop) == []
  }

  lemma Populate(a: uint32, b: uint32) returns (s: Sys)
    requires a != b
    ensures Sound(Init()) && Sound(s) && Reach(Init(), s) && Quiet(s)
    ensures var w := Abstract(s);
      && w.rooms == map[1000 := 0] && w.objs == [TwoPlayers(a, b, false, false)]
      && w.uidToRoom == map[] && w.streams == [G.Stream(a, 0, true), G.Stream(b, 1, true)] && w.pending == []
  {
    hide Sound, Reach, TwoPlayers, Quiet, Abstract, G.CreateRoom, G.Handle, G.Close, G.RoomTurn;
    StartingPoint();
    RoomMade(a, b);
    var s1 := StepAlone(Init(), Init(), G.CreateRoomCall(PlayerListOf(a, b)));
    var s2 := StepAlone(Init(), s1, G.StreamOpened(a, 0));
    s := StepAlone(Init(), s2, G.StreamOpened(b, 1));
  }

  lemma StartingPoint()
    ensures Sound(Init()) && Reach(Init(), Init()) && Quiet(Init()) && Abstract(Init()) == G.Init()
  {
    InitSound();
    Stay(Init());
  }

  lemma EnterFirst(a: uint32, b: uint32) returns (s: Sys)
    requires a != b
    ensures Sound(Init()) && Sound(s) && Reach(Init(), s) && Quiet(s) && Underway(Abstract(s), a, b, false, false)
  {
    var s0 := Populate(a, b);
    Entered(Abstract(s0), a, b);
    hide Sound, Reach, TwoPlayers, Quiet, Abstract, G.Handle, Underway;
    s := StepAlone(Init(), s0, G.Request(0, a, G.EnterRoom(1000)));
  }

  lemma ReadyNext(s: Sys, c: nat, u: uint32, a: uint32, b: uint32, readyA: bool, readyB: bool) returns (t: Sys)
    requires a != b && (u == a || u == b) && c < 2
    requires Sound(Init()) && Sound(s) && Reach(Init(), s) && Quiet(s) && Underway(Abstract(s), a, b, readyA, readyB)
    ensures Sound(t) && Reach(Init(), t) && Quiet(t) && Underway(Abstract(t), a, b, readyA || u == a, readyB || u == b)
  {
    hide Sound, Reach, TwoPlayers, Quiet, Abstract, G.Handle;
    Ready(Abstract(s), c, u, a, b, readyA, readyB);
    t := StepAlone(Init(), s, G.Request(c, u, G.PlayerReady(1000)));
  }

  lemma Prepare(a: uint32, b: uint32) returns (s: Sys)
    requires a != b
    ensures Prepared(s, a, b)
  {
    hide Sound, Reach, Quiet, Abstract, Underway, Prepared;
    s := EnterFirst(a, b);
    s := ReadyNext(s, 0, a, a, b, false, false);
    s := ReadyNext(s, 1, b, a, b, true, false);
    IsPrepared(s, a, b);
  }

  lemma IsPrepared(s: Sys, a: uint32, b: uint32)
    requires Sound(Init()) && Sound(s) && Reach(Init(), s) && Quiet(s)
    requires Underway(Abstract(s), a, b, true, true)
    ensures Prepared(s, a, b)
  {
    hide Sound, Reach, TwoPlayers;
    assert |Streams(s.calls)| == 2 && Streams(s.calls)[0].open && Streams(s.calls)[1].open;
  }

  lemma Entered(w: G.World, a: uint32, b: uint32)
    requires a != b && G.Registered(w) && w.rooms == map[1000 := 0] && w.objs == [TwoPlayers(a, b, false, false)]
    requires w.uidToRoom == map[] && w.streams == [G.Stream(a, 0, true), G.Stream(b, 1, true)] && w.pending == []
    ensures Underway(G.Handle(w, 0, a, G.EnterRoom(1000)), a, b, false, false)
  {
    hide R.SnapshotText;
  }

  /** A section that only looks. */
  lemma Look(s: Sys, c: nat, t: Sys)
    requires Sound(s) && c < |s.calls| && t == StepCall(s, c)
    requires var pc := s.calls[c].pc;
      pc.EnterLookup? || pc.EnterCheck? || pc.EnterSnapshot? || pc.EnterGetPlayer? || pc.OverLookup?
      || pc.DestroyLookup? || pc.DestroyMembers?
    ensures t == s.(calls := s.calls[c := s.calls[c].(pc := NextPc(s, c))])
  {
    hide Sound, NextPc;
  }

  // ---- A start after the verdict ----

  /** The loop finds an idle room ready. */
  lemma FoundReady(from: Sys, s: Sys, o: nat, rest: seq<nat>) returns (t: Sys)
    requires Sound(from) && Sound(s) && Reach(from, s) && s.loop == NotGaming(o, rest)
    requires o < |s.objs| && s.objs[o].phase == R.Idle && R.AllReady(s.objs[o])
    ensures Sound(t) && Reach(from, t) && t == s.(loop := WillStart(o, rest))
  {
    assert |s.objs[o].uids| >= 2;
    hide Sound, Reach, R.AllReady, R.StartGame, R.Tick, Section;
    t := Go(from, s, LoopStep);
    assert t == s.(loop := WillCheckFull(o, rest));
    t := Go(from, t, LoopStep);
    assert t == s.(loop := WillCheckReady(o, rest));
    t := Go(from, t, LoopStep);
  }

  /** The loop has just found the room ready. */
  lemma AboutToStart(a: uint32, b: uint32) returns (s: Sys)
    requires a != b
    ensures Sound(Init()) && Sound(s) && Reach(Init(), s)
    ensures |s.calls| == 2 && s.calls[0] == Call(a, 0, Reading) && s.loop == WillStart(0, [])
    ensures s.objs == [TwoPlayers(a, b, true, true)] && GetRoomByUid(s, a) == Some(0)
  {
    var s0 := Prepare(a, b);
    assert TwoPlayers(a, b, true, true).phase == R.Idle && R.AllReady(TwoPlayers(a, b, true, true));
    hide Sound, Reach, TwoPlayers, R.AllReady;
    assert Abstract(s0).rooms.Values == {0} by {
      assert Abstract(s0).rooms[1000] == 0;
    }
    var s1 := SnapshotAlone(Init(), s0, [0]);
    hide Prepared, Quiet, Abstract;
    assert s1.objs == [TwoPlayers(a, b, true, true)] && GetRoomByUid(s1, a) == Some(0);
    var s2 := LookAlone(Init(), s1);
    s := FoundReady(Init(), s2, 0, []);
  }

  /** A game-over request finds its room. */
  lemma FoundToStop(from: Sys, s: Sys, c: nat, u: uint32, winner: uint32, o: nat) returns (t: Sys)
    requires Sound(from) && Sound(s) && Reach(from, s) && c < |s.calls| && s.calls[c].pc.Reading?
    requires GetRoomByUid(s, u) == Some(o)
    ensures Sound(t) && Reach(from, t) && t == Goto(s, c, Stopping(o, winner, false))
  {
    hide Sound, Reach;
    var s1 := Go(from, s, Receive(c, u, G.GameOverReq(winner)));
    assert s1 == Goto(s, c, OverLookup(u, winner));
    hide StepCall, Effect;
    t := Hop(from, s1, c);
    Look(s1, c, t);
  }

  /** Request by request a room's verdict is its last broadcast. With interleaved
      sections it need not be: a game-over request that comes in between the loop's ready
      check and its start makes the room announce the verdict first, then its start, and
      leaves it gaming. */
  lemma StartAfterVerdict(a: uint32, b: uint32)
    requires a != b
    ensures Sound(Init())
    ensures exists es :: CanRun(Init(), es) && StartedAfterVerdict(Run(Init(), es), b)
  {
    var s := AboutToStart(a, b);
    assert s.objs[0].casts == [] && s.objs[0].id == 1000;
    hide Sound, TwoPlayers, Reach, StepCall, StepLoop, Section;
    s := FoundToStop(Init(), s, 0, a, b, 0);
    StaleStart(s, 0, 0, b, []);
    RunTwo(s, CallStep(0), LoopStep);
    var t := Go(Init(), s, CallStep(0));
    t := Go(Init(), t, LoopStep);
    assert StartedAfterVerdict(t, b);
    Reached(t);
  }

  ghost predicate StartedAfterVerdict(s: Sys, winner: uint32) {
    |s.objs| == 1 && s.objs[0].phase == R.Gaming && s.objs[0].casts == [R.GameOver(1000, winner), R.GameStart(1000)]
  }

  lemma Reached(s: Sys)
    requires Sound(Init()) && Reach(Init(), s)
    ensures exists es :: CanRun(Init(), es) && Run(Init(), es) == s
  {
  }

  /** A stop that does not lead on to a removal at once: the room stays in the table. */
  lemma JustStopped(a: uint32, b: uint32) returns (s: Sys)
    requires a != b
    ensures Sound(Init()) && Sound(s) && Reach(Init(), s) && |s.calls| == 2 && s.calls[1].pc.Reading?
    ensures s.rooms == map[1000 := 0] && s.objs == [R.StopGame(TwoPlayers(a, b, true, true), b)]
    ensures s.loop.Sleeping? || s.loop == NextRoom([])
  {
    hide Sound, Reach, TwoPlayers;
    var s0 := Prepare(a, b);
    var s1 := FoundToStop(Init(), s0, 0, a, b, 0);
    StopEffect(s1, 0);
    hide Effect, R.StopGame, Abstract;
    s := Hop(Init(), s1, 0);
  }

  lemma ReadyHandled(w: G.World, s: nat, u: uint32, r: R.RoomView)
    requires G.Registered(w) && w.rooms == map[1000 := 0] && w.objs == [r] && u in r.players
    ensures G.Handle(w, s, u, G.PlayerReady(1000)).objs == [R.MarkReady(r, u)]
    ensures G.Handle(w, s, u, G.PlayerReady(1000)).rooms == w.rooms
  {
    hide R.MarkReady, R.WellFormed, G.Fanout;
    assert w.objs[0 := R.MarkReady(r, u)] == [R.MarkReady(r, u)];
  }

  lemma ReadyAgain(s: Sys, u: uint32, r: R.RoomView) returns (t: Sys)
    requires Sound(Init()) && Sound(s) && Reach(Init(), s) && |s.calls| == 2 && s.calls[1].pc.Reading?
    requires s.rooms == map[1000 := 0] && s.objs == [r] && u in r.players
    ensures Sound(t) && Reach(Init(), t) && |t.calls| == 2 && t.calls[1].pc.Reading?
    ensures t.rooms == map[1000 := 0] && t.objs == [R.MarkReady(r, u)] && t.loop == s.loop
  {
    hide Sound, Reach, R.MarkReady, G.Handle;
    ReadyHandled(Abstract(s), 1, u, r);
    t := RequestAlone(Init(), s, 1, u, G.PlayerReady(1000));
    assert Abstract(t).objs == t.objs && Abstract(t).rooms == t.rooms;
  }

  lemma LoopSleeps(s: Sys) returns (t: Sys)
    requires Sound(Init()) && Sound(s) && Reach(Init(), s) && (s.loop.Sleeping? || s.loop == NextRoom([]))
    ensures Sound(t) && Reach(Init(), t) && t == s.(loop := Sleeping)
  {
    hide Sound, Reach;
    t := s;
    if s.loop.NextRoom? {
      t := Go(Init(), s, LoopStep);
    }
  }

  /** The loop, taking its snapshot now, is led to start the only room, which is ready. */
  lemma StartOnlyRoom(s: Sys) returns (t: Sys)
    requires Sound(Init()) && Sound(s) && Reach(Init(), s) && s.loop.Sleeping?
    requires s.rooms == map[1000 := 0] && |s.objs| == 1 && s.objs[0].phase == R.Idle && R.AllReady(s.objs[0])
    ensures Sound(t) && Reach(Init(), t) && t.objs == [R.StartGame(s.objs[0])]
  {
    hide Sound, Reach, R.AllReady, R.StartGame, StepLoop;
    assert s.rooms.Values == {0} by {
      assert s.rooms[1000] == 0;
    }
    var s1 := Go(Init(), s, TakeSnapshot([0]));
    var s2 := LookAlone(Init(), s1);
    var s3 := FoundReady(Init(), s2, 0, []);
    StartEffect(s3, 0, []);
    t := Go(Init(), s3, LoopStep);
    assert [s.objs[0]][0 := R.StartGame(s.objs[0])] == [R.StartGame(s.objs[0])];
  }

  lemma ReadyTwice(a: uint32, b: uint32)
    requires a != b
    ensures var r := R.StopGame(TwoPlayers(a, b, true, true), b);
      && a in r.players && b in R.MarkReady(r, a).players
      && var r2 := R.MarkReady(R.MarkReady(r, a), b);
         r2.phase == R.Idle && R.AllReady(r2) && r2.casts == [R.GameOver(1000, b)] && r2.id == 1000
  {
    var r := R.StopGame(TwoPlayers(a, b, true, true), b);
    assert r.casts == [R.GameOver(1000, b)];
  }

  /** The other way for a start to follow the verdict, with no stop between the loop's ready
      check and the start: both players are made ready again between the stop and the
      removal, and the loop, even in a new snapshot, finds the room ready. */
  lemma StartAfterReadies(a: uint32, b: uint32)
    requires a != b
    ensures Sound(Init())
    ensures exists es :: CanRun(Init(), es) && StartedAfterVerdict(Run(Init(), es), b)
  {
    hide Sound, Reach, TwoPlayers, R.StopGame, R.MarkReady, R.StartGame, R.AllReady;
    ReadyTwice(a, b);
    var r := R.StopGame(TwoPlayers(a, b, true, true), b);
    var s := JustStopped(a, b);
    s := LoopSleeps(s);
    s := ReadyAgain(s, a, r);
    s := ReadyAgain(s, b, R.MarkReady(r, a));
    s := StartOnlyRoom(s);
    Started(R.MarkReady(R.MarkReady(r, a), b));
    assert StartedAfterVerdict(s, b);
    Reached(s);
  }

  lemma Started(r: R.RoomView)
    ensures R.StartGame(r).phase == R.Gaming && R.StartGame(r).casts == r.casts + [R.GameStart(r.id)]
  {
  }

  // ---- Two verdicts ----

  /** Request by request a room announces one verdict at most. With interleaved sections two
      game-over requests that both find the room before it goes announce two. */
  lemma SecondVerdict(a: uint32, b: uint32)
    requires a != b
    ensures Sound(Init())
    ensures exists es :: CanRun(Init(), es) && HasTwoVerdicts(Run(Init(), es), b, a)
  {
    hide Sound, Reach, TwoPlayers;
    var s0 := Prepare(a, b);
    var r := TwoPlayers(a, b, true, true);
    var s1 := FoundToStop(Init(), s0, 0, a, b, 0);
    var s2 := FoundToStop(Init(), s1, 1, a, a, 0);
    hide Abstract, Prepared;
    StopEffect(s2, 0);
    hide Effect, NextPc, R.StopGame;
    var s3 := Hop(Init(), s2, 0);
    assert s3.objs == [R.StopGame(r, b)] && s3.calls[1].pc == Stopping(0, a, false);
    StopEffect(s3, 1);
    var s4 := Hop(Init(), s3, 1);
    TwoStops(a, b);
    assert s4.objs == [R.StopGame(R.StopGame(r, b), a)];
    assert HasTwoVerdicts(s4, b, a);
    Reached(s4);
  }

  ghost predicate HasTwoVerdicts(s: Sys, w1: uint32, w2: uint32) {
    |s.objs| == 1 && s.objs[0].casts == [R.GameOver(1000, w1), R.GameOver(1000, w2)]
  }

  lemma TwoStops(a: uint32, b: uint32)
    ensures R.StopGame(R.StopGame(TwoPlayers(a, b, true, true), b), a).casts
         == [R.GameOver(1000, b), R.GameOver(1000, a)]
  {
  }

  // ---- A mapping to a room that has gone ----

  /** Player `b` has found the room and is about to be mapped to it. */
  lemma AboutToMap(a: uint32, b: uint32) returns (s: Sys)
    requires a != b
    ensures Sound(Init()) && Sound(s) && Reach(Init(), s)
    ensures |s.calls| == 2 && s.calls[0] == Call(a, 0, Reading)
    ensures s.calls[1].pc.EnterMap? && s.calls[1].pc.u == b && s.calls[1].pc.id == 1000
    ensures s.rooms == map[1000 := 0] && s.objs == [TwoPlayers(a, b, true, true)] && s.uidToRoom == map[a := 1000]
  {
    hide Sound, Reach, Quiet, R.SnapshotText, G.Sends, Abstract;
    s := Prepare(a, b);
    assert b in s.objs[0].players;
    hide TwoPlayers;
    var s1 := Go(Init(), s, Receive(1, b, G.EnterRoom(1000)));
    hide StepCall, Effect;
    var s2 := Hop(Init(), s1, 1);
    Look(s1, 1, s2);
    assert s2.calls[1].pc == EnterCheck(b, 1000, 0);
    var s3 := Hop(Init(), s2, 1);
    Look(s2, 1, s3);
    assert s3.calls[1].pc == EnterSnapshot(b, 1000, 0);
    var s4 := Hop(Init(), s3, 1);
    Look(s3, 1, s4);
    s := Hop(Init(), s4, 1);
    Look(s4, 1, s);
  }

  /** Player `b` is about to be mapped to room 1000. */
  ghost predicate Mapping(s: Sys, b: uint32) {
    |s.calls| == 2 && s.calls[1].pc.EnterMap? && s.calls[1].pc.u == b && s.calls[1].pc.id == 1000
  }

  /** Then the room is stopped, */
  lemma StoppedMeanwhile(a: uint32, b: uint32) returns (s: Sys)
    requires a != b
    ensures Sound(Init()) && Sound(s) && Reach(Init(), s) && Mapping(s, b)
    ensures s.calls[0].pc == DestroyLookup(1000, false) && s.rooms == map[1000 := 0]
    ensures s.objs == [R.StopGame(TwoPlayers(a, b, true, true), b)]
  {
    hide Sound, Reach, TwoPlayers;
    var s0 := AboutToMap(a, b);
    assert s0.objs[0].id == 1000 by {
      Numbered(a, b);
    }
    var s1 := FoundToStop(Init(), s0, 0, a, b, 0);
    StopEffect(s1, 0);
    hide Effect, R.StopGame;
    s := Hop(Init(), s1, 0);
  }

  lemma Numbered(a: uint32, b: uint32)
    ensures TwoPlayers(a, b, true, true).id == 1000
  {
  }

  /** and its members are unmapped, and it is about to leave the table. */
  lemma AboutToRemove(a: uint32, b: uint32) returns (s: Sys)
    requires a != b
    ensures Sound(Init()) && Sound(s) && Reach(Init(), s) && Mapping(s, b)
    ensures s.calls[0].pc == DestroyRemove(1000, false)
    ensures s.rooms == map[1000 := 0] && |s.objs| == 1 && b in s.objs[0].players
  {
    hide Sound, Reach, StepCall, Effect, TwoPlayers, R.StopGame;
    var s0 := StoppedMeanwhile(a, b);
    var s1 := Hop(Init(), s0, 0);
    Look(s0, 0, s1);
    assert s1.calls[0].pc == DestroyMembers(1000, 0, false);
    hide NextPc;
    s := DestroyMembersAlone(Init(), s1, 0, 1000, 0, false);
    assert Abstract(s).rooms == s.rooms && Abstract(s).objs == s.objs;
    StillThere(a, b);
  }

  lemma StillThere(a: uint32, b: uint32)
    ensures b in R.StopGame(TwoPlayers(a, b, true, true), b).players
  {
  }

  /** Request by request a mapped player's room is in the table. With interleaved
      sections it need not be: a player whose room goes between its lookup and the
      mapping is left mapped to an id that names no room. */
  lemma MappedToNoRoom(a: uint32, b: uint32)
    requires a != b
    ensures Sound(Init())
    ensures exists es :: CanRun(Init(), es) && IsMappedToNoRoom(Run(Init(), es), b)
  {
    var s := AboutToRemove(a, b);
    hide Sound, Reach, StepCall;
    LateMapping(s, 1, 0, b, 1000, s.calls[1].pc.text, s.calls[1].pc.seat);
    RunTwo(s, CallStep(0), CallStep(1));
    var t := Go(Init(), s, CallStep(0));
    t := Go(Init(), t, CallStep(1));
    assert IsMappedToNoRoom(t, b);
    Reached(t);
  }

  ghost predicate IsMappedToNoRoom(s: Sys, u: uint32) {
    u in s.uidToRoom && s.uidToRoom[u] !in s.rooms
  }

  /** Player `b` is mapped to a room that the table still has and that lists them, and then
      the call that is past unmapping its members removes it. */
  ghost predicate MapsThenRemoves(s: Sys, b: uint32)
    requires Sound(s)
  {
    && |s.calls| == 2 && s.calls[1].pc.EnterMap? && s.calls[1].pc.u == b
    && s.calls[1].pc.id in s.rooms && b in s.objs[s.rooms[s.calls[1].pc.id]].players
    && (StepKeepsSound(s, CallStep(1));
        var s1 := Step(s, CallStep(1));
        |s1.calls| == 2 && IsMappedToNoRoom(Step(s1, CallStep(0)), b))
  }

  /** The other way to be left mapped to no room: the mapping takes effect in time, but the
      call that is destroying the room has already unmapped its members. */
  lemma MappedBeforeRemoval(a: uint32, b: uint32)
    requires a != b
    ensures Sound(Init())
    ensures exists es :: CanRun(Init(), es) && MapsThenRemoves(Run(Init(), es), b)
  {
    var s := AboutToRemove(a, b);
    hide Sound, Reach;
    assert MapsThenRemoves(s, b) by {
      MapThenRemove(s, b);
    }
    Reached(s);
  }

  lemma MapThenRemove(s: Sys, b: uint32)
    requires Sound(s) && Mapping(s, b) && s.calls[0].pc == DestroyRemove(1000, false)
    requires s.rooms == map[1000 := 0] && |s.objs| == 1 && b in s.objs[0].players
    ensures MapsThenRemoves(s, b)
  {
    StepKeepsSound(s, CallStep(1));
    hide Sound;
    var s1 := Step(s, CallStep(1));
    assert s1.calls[0] == s.calls[0] && b in s1.uidToRoom && s1.uidToRoom[b] == 1000;
  }
}
