/** Whole executions of the interleaved game server: every room object runs through its
    own sections, so what holds of all runs of one room holds in every interleaving. */
module Executions {
  import opened Types
  import R = RoomModel
  import G = GameModel
  import GameRuns
  import RoomIds
  import opened LockAtomic
  import Granularity

  /** Section `es[k]` takes state `ss[k]` to the next. */
  ghost predicate StepsTo(ss: seq<Sys>, es: seq<Event>, k: int, next: int)
    requires 0 <= k < |es| && next == k + 1 < |ss|
  {
    Sound(ss[k]) && Enabled(ss[k], es[k]) && ss[next] == Step(ss[k], es[k])
  }

  /** The states `ss` are those that the sections `es` go through. */
  ghost predicate Execution(ss: seq<Sys>, es: seq<Event>) {
    && |ss| == |es| + 1
    && (forall k | 0 <= k < |ss| :: Sound(ss[k]))
    && (forall k, next | 0 <= k < |es| && next == k + 1 :: StepsTo(ss, es, k, next))
  }

  /** An execution from the start. */
  ghost predicate FromStart(ss: seq<Sys>, es: seq<Event>) {
    Execution(ss, es) && ss[0] == Init()
  }

  lemma AllStates(ss: seq<Sys>, es: seq<Event>)
    requires FromStart(ss, es)
    ensures Execution(ss, es) && |ss| == |es| + 1
  {
  }

  lemma NextState(ss: seq<Sys>, es: seq<Event>, k: nat)
    requires Execution(ss, es) && k < |es|
    ensures Sound(ss[k]) && Sound(ss[k + 1]) && Enabled(ss[k], es[k]) && ss[k + 1] == Step(ss[k], es[k])
  {
    assert StepsTo(ss, es, k, k + 1);
  }

  /** Executions are the runs of LockAtomic with their states written out. */
  lemma {:induction false} RunIsExecution(s: Sys, es: seq<Event>) returns (ss: seq<Sys>)
    requires Sound(s) && CanRun(s, es)
    ensures Execution(ss, es) && ss[0] == s && ss[|es|] == Run(s, es)
    decreases |es|
  {
    if es == [] {
      ss := [s];
    } else {
      StepKeepsSound(s, es[0]);
      hide Sound, Step, Enabled;
      var rest := RunIsExecution(Step(s, es[0]), es[1..]);
      ss := [s] + rest;
      forall k, next | 0 <= k < |es| && next == k + 1
        ensures StepsTo(ss, es, k, next)
      {
        if k > 0 {
          assert StepsTo(rest, es[1..], k - 1, k);
        }
      }
      forall k | 0 <= k < |ss|
        ensures Sound(ss[k])
      {
        assert k > 0 ==> ss[k] == rest[k - 1];
      }
    }
  }

  lemma StepLater(ss: seq<Sys>, es: seq<Event>, k: nat)
    requires Execution(ss, es) && k + 1 < |es|
    ensures StepsTo(ss[1..], es[1..], k, k + 1)
  {
    hide Sound, Step, Enabled;
    assert StepsTo(ss, es, k + 1, k + 2);
  }

  lemma {:induction false} ExecutionIsRun(ss: seq<Sys>, es: seq<Event>)
    requires Execution(ss, es)
    ensures CanRun(ss[0], es) && Run(ss[0], es) == ss[|es|]
    decreases |es|
  {
    hide Sound, Step, Enabled;
    if es != [] {
      NextState(ss, es, 0);
      hide StepsTo;
      forall k, next | 0 <= k < |es[1..]| && next == k + 1
        ensures StepsTo(ss[1..], es[1..], k, next)
      {
        StepLater(ss, es, k);
      }
      ExecutionIsRun(ss[1..], es[1..]);
    }
  }

  // ---- What a section means to one room ----

  /** The room event that section `e` is for room object `o`, if it is one. */
  ghost function RoomStep(s: Sys, e: Event, o: nat): Option<R.RoomEvent>
    requires Enabled(s, e)
  {
    match e
    case CallStep(c) =>
      if Pointer(s.calls[c].pc) == Some(o) then RoomEventOf(s.calls[c].pc) else None
    case CreateStep(k) =>
      (match s.creates[k]
       case Filling(p, items) =>
         if p == o && items != [] && items[0].Element?
         then Some(R.Enroll(items[0].uid, items[0].nickname, items[0].characterId)) else None
       case _ => None)
    case LoopStep =>
      (match s.loop
       case WillTick(p, _) => if p == o then Some(R.Ticked) else None
       case WillStart(p, _) => if p == o then Some(R.Begin) else None
       case _ => None)
    case _ => None
  }

  ghost function Applied(r: R.RoomView, x: Option<R.RoomEvent>): R.RoomView
    requires R.WellFormed(r)
  {
    if x.Some? then R.Apply(r, x.value) else r
  }

  lemma RoomOf(s: Sys, o: nat)
    requires Sound(s) && o < |s.objs|
    ensures R.WellFormed(s.objs[o])
  {
  }

  lemma CallIsRoomStep(s: Sys, c: nat, o: nat)
    requires Sound(s) && c < |s.calls| && o < |s.objs| && R.WellFormed(s.objs[o])
    ensures |StepCall(s, c).objs| == |s.objs|
    ensures StepCall(s, c).objs[o] == Applied(s.objs[o], RoomStep(s, CallStep(c), o))
  {
    if RoomEventOf(s.calls[c].pc).Some? {
      EffectIsSection(s, c);
    } else {
      EffectOnTables(s, c);
    }
    hide Effect, NextPc, Sound, R.Apply, R.WellFormed;
  }

  lemma CreateIsRoomStep(s: Sys, k: nat, o: nat)
    requires Sound(s) && k < |s.creates| && o < |s.objs| && R.WellFormed(s.objs[o])
    ensures |s.objs| <= |StepCreate(s, k).objs|
    ensures StepCreate(s, k).objs[o] == Applied(s.objs[o], RoomStep(s, CreateStep(k), o))
  {
    hide R.WellFormed, PcSound, Held, R.AddPlayer;
  }

  lemma LoopIsRoomStep(s: Sys, o: nat)
    requires Sound(s) && o < |s.objs| && R.WellFormed(s.objs[o])
    ensures |s.objs| == |StepLoop(s).objs|
    ensures StepLoop(s).objs[o] == Applied(s.objs[o], RoomStep(s, LoopStep, o))
  {
    if s.loop.WillTick? || s.loop.WillStart? {
      assert Held(s.loop)[0] == s.loop.o;
      hide Sound, R.WellFormed, R.Tick, R.StartGame, G.Sends;
    } else {
      LoopLooks(s);
      hide Sound, StepLoop;
    }
  }

  /** A section does to a room object exactly its room event, and nothing if it is none. */
  lemma StepIsRoomStep(s: Sys, e: Event, o: nat)
    requires Sound(s) && Enabled(s, e) && o < |s.objs|
    ensures R.WellFormed(s.objs[o]) && |s.objs| <= |Step(s, e).objs|
    ensures Step(s, e).objs[o] == Applied(s.objs[o], RoomStep(s, e, o))
  {
    RoomOf(s, o);
    hide R.WellFormed, R.Apply, Sound;
    match e
    case CallStep(c) => CallIsRoomStep(s, c, o);
    case CreateStep(k) => CreateIsRoomStep(s, k, o);
    case LoopStep => LoopIsRoomStep(s, o);
    case _ =>
  }

  /** An object that a section makes is a new room. */
  lemma NewObject(s: Sys, e: Event, o: nat)
    requires Sound(s) && Enabled(s, e) && |s.objs| <= o < |Step(s, e).objs|
    ensures Step(s, e).objs[o].casts == [] && Step(s, e).objs[o].players == map[] && Step(s, e).objs[o].phase == R.Idle
  {
    match e
    case CallStep(c) =>
      TableShrinks(s, c);
      hide Effect, NextPc, Sound;
      assert false;
    case LoopStep =>
      LoopKeepsTable(s);
      hide StepLoop, Sound;
      assert false;
    case _ =>
      hide R.WellFormed, PcSound, Held, R.AddPlayer;
  }

  /** The room events of object `o` between two states of an execution. */
  ghost function Trace(ss: seq<Sys>, es: seq<Event>, m: nat, n: nat, o: nat): seq<R.RoomEvent>
    requires Execution(ss, es) && m <= n <= |es|
    decreases n
  {
    if n == m then []
    else
      NextState(ss, es, n - 1);
      var x := RoomStep(ss[n - 1], es[n - 1], o);
      Trace(ss, es, m, n - 1, o) + if x.Some? then [x.value] else []
  }

  /** In every interleaving each room object is the run of its own sections. */
  lemma {:induction false} RoomIsItsTrace(ss: seq<Sys>, es: seq<Event>, m: nat, n: nat, o: nat)
    requires Execution(ss, es) && m <= n <= |es| && o < |ss[m].objs|
    ensures o < |ss[n].objs| && R.WellFormed(ss[m].objs[o])
    ensures ss[n].objs[o] == R.Run(ss[m].objs[o], Trace(ss, es, m, n, o))
    decreases n
  {
    hide Sound, Step, RoomStep, Enabled, R.WellFormed, R.Apply, R.Run;
    StateSound(ss, es, m);
    RoomOf(ss[m], o);
    if n == m {
      EmptyRun(ss[m].objs[o]);
    } else {
      RoomIsItsTrace(ss, es, m, n - 1, o);
      NextState(ss, es, n - 1);
      StepIsRoomStep(ss[n - 1], es[n - 1], o);
      var x, p := RoomStep(ss[n - 1], es[n - 1], o), Trace(ss, es, m, n - 1, o);
      var r, before := ss[m].objs[o], ss[n - 1].objs[o];
      assert Trace(ss, es, m, n, o) == p + if x.Some? then [x.value] else [];
      hide Trace, Execution;
      TraceGrows(r, p, x);
    }
  }

  lemma StateSound(ss: seq<Sys>, es: seq<Event>, m: nat)
    requires Execution(ss, es) && m <= |es|
    ensures Sound(ss[m])
  {
  }

  lemma EmptyRun(r: R.RoomView)
    requires R.WellFormed(r)
    ensures R.Run(r, []) == r
  {
  }

  lemma TraceGrows(r: R.RoomView, p: seq<R.RoomEvent>, x: Option<R.RoomEvent>)
    requires R.WellFormed(r)
    ensures R.Run(r, p + if x.Some? then [x.value] else []) == Applied(R.Run(r, p), x)
  {
    hide R.WellFormed, R.Apply;
    if x.Some? {
      assert (p + [x.value])[..|p|] == p;
    } else {
      assert p + [] == p;
    }
  }

  /** So in every interleaving the frames of a started room are those of its own trace. */
  lemma InterleavedFrameLog(ss: seq<Sys>, es: seq<Event>, m: nat, n: nat, o: nat, t: nat)
    requires Execution(ss, es) && m <= n <= |es| && o < |ss[m].objs| && R.AtStart(ss[m].objs[o])
    requires R.WithinGame(Trace(ss, es, m, n, o))
    requires t < |Trace(ss, es, m, n, o)| && Trace(ss, es, m, n, o)[t].Ticked?
    ensures o < |ss[n].objs|
    ensures R.FrameLogged(ss[m].objs[o], Trace(ss, es, m, n, o), t, ss[n].objs[o].casts)
    ensures R.CarriesClients(ss[m].objs[o], Trace(ss, es, m, n, o), t, ss[n].objs[o].casts)
  {
    RoomIsItsTrace(ss, es, m, n, o);
    hide Execution, R.Run, Trace, R.FrameLogged, R.CarriesClients;
    R.FrameLogIsTraceFunction(ss[m].objs[o], Trace(ss, es, m, n, o), t);
  }

  // ---- The loop's broadcasts ----

  /** How many starts and frames are among the broadcasts. */
  ghost function LoopCasts(casts: seq<R.Cast>): nat {
    if casts == [] then 0
    else LoopCasts(casts[..|casts| - 1]) + if casts[|casts| - 1].GameOver? then 0 else 1
  }

  lemma LoopCastsSnoc(casts: seq<R.Cast>, c: R.Cast)
    ensures LoopCasts(casts + [c]) == LoopCasts(casts) + if c.GameOver? then 0 else 1
  {
    assert (casts + [c])[..|casts|] == casts;
  }

  /** What a room event broadcasts. */
  lemma AppliedCasts(r: R.RoomView, x: Option<R.RoomEvent>)
    requires R.WellFormed(r)
    ensures Applied(r, x).casts == r.casts +
      if x == Some(R.Ticked) && r.phase == R.Gaming then [R.FrameUpdate(r.frame.(playerCount := |r.uids|))]
      else if x == Some(R.Begin) then [R.GameStart(r.id)]
      else if x.Some? && x.value.Finish? then [R.GameOver(r.id, x.value.winner)]
      else []
  {
    hide R.WellFormed;
  }

  /** The loop's log counts exactly the starts and frames that the room really broadcasts. */
  lemma LogCountsCasts(s: Sys, e: Event, o: nat)
    requires Sound(s) && Enabled(s, e) && o < |s.objs|
    ensures o < |Step(s, e).objs|
    ensures LoopCasts(Step(s, e).objs[o].casts) - LoopCasts(s.objs[o].casts)
         == Issued(Step(s, e).loopLog, o) - Issued(s.loopLog, o)
  {
    StepIsRoomStep(s, e, o);
    LogStep(s, e, o);
    var r, x := s.objs[o], RoomStep(s, e, o);
    hide Sound, Step, RoomStep, R.WellFormed, R.Apply, Issued, LoopCasts;
    AppliedCasts(r, x);
    LoopCastsSnoc(r.casts, R.FrameUpdate(r.frame.(playerCount := |r.uids|)));
    LoopCastsSnoc(r.casts, R.GameStart(r.id));
    if x.Some? && x.value.Finish? {
      LoopCastsSnoc(r.casts, R.GameOver(r.id, x.value.winner));
    }
    hide Applied;
    assert r.casts + [] == r.casts;
  }

  lemma LogStep(s: Sys, e: Event, o: nat)
    requires Sound(s) && Enabled(s, e) && o < |s.objs|
    ensures var x := RoomStep(s, e, o);
      Issued(Step(s, e).loopLog, o) == Issued(s.loopLog, o) +
        if x == Some(R.Begin) || (x == Some(R.Ticked) && s.objs[o].phase == R.Gaming) then 1 else 0
  {
    hide R.WellFormed, PcSound, Issued, R.AllReady, R.Tick, R.StartGame, R.AddPlayer, G.Sends;
    match e
    case CallStep(c) =>
      TableShrinks(s, c);
      hide Effect, NextPc, Sound;
    case LoopStep =>
      if s.loop.WillTick? || s.loop.WillStart? {
        assert Held(s.loop)[0] == s.loop.o;
        IssuedAppend(s.loopLog, s.loop.o, o);
      }
      hide Sound, Held;
    case _ =>
      hide Sound, Held;
  }

  /** In every interleaving, once a room object is out of the table at most one more start
      or frame is broadcast for it, and none if the loop does not hold it in its current
      snapshot: later snapshots cannot contain the room, and one snapshot visits it once. */
  lemma {:induction false} AtMostOneMore(ss: seq<Sys>, es: seq<Event>, m: nat, n: nat, o: nat)
    requires Execution(ss, es) && m <= n <= |es| && Removed(ss[m], o)
    ensures o < |ss[n].objs|
    ensures LoopCasts(ss[n].objs[o].casts) <= LoopCasts(ss[m].objs[o].casts) + if o in Held(ss[m].loop) then 1 else 0
  {
    LogAndCasts(ss, es, m, n, o);
  }

  /** The loop has broadcast so many starts and frames for `o` since state `s`. */
  ghost predicate WithinBudget(s: Sys, t: Sys, o: nat)
    requires o < |s.objs| && o < |t.objs|
  {
    && Budget(t, o) <= Budget(s, o)
    && LoopCasts(t.objs[o].casts) - LoopCasts(s.objs[o].casts) == Issued(t.loopLog, o) - Issued(s.loopLog, o)
  }

  lemma BudgetStep(s: Sys, e: Event, o: nat)
    requires Sound(s) && Enabled(s, e) && Removed(s, o)
    ensures Removed(Step(s, e), o) && WithinBudget(s, Step(s, e), o)
  {
    hide Sound, Step, Enabled, Budget, Issued, LoopCasts;
    RemovedStays(s, e, o);
    LogCountsCasts(s, e, o);
  }

  lemma {:induction false} LogAndCasts(ss: seq<Sys>, es: seq<Event>, m: nat, n: nat, o: nat)
    requires Execution(ss, es) && m <= n <= |es| && Removed(ss[m], o)
    ensures Removed(ss[n], o) && WithinBudget(ss[m], ss[n], o)
    decreases n
  {
    hide Sound, Step, Enabled, Budget, Issued, LoopCasts, StepsTo;
    if n > m {
      LogAndCasts(ss, es, m, n - 1, o);
      NextState(ss, es, n - 1);
      BudgetStep(ss[n - 1], es[n - 1], o);
    }
  }

  // ---- What the members receive ----

  lemma SectionReaches(s: Sys, p: nat, ev: R.RoomEvent, u: uint32, o: nat, t: Sys)
    requires Sound(s) && Sound(t) && p < |s.objs| && o < |s.objs| && !ev.Enroll?
    requires u in s.objs[o].uids && u in s.sessions
    requires R.WellFormed(s.objs[p])
    requires var s1 := Section(s, p, R.Apply(s.objs[p], ev)); t.objs == s1.objs && t.wire == s1.wire
    ensures GameRuns.InStep(Granularity.Abstract(s), Granularity.Abstract(t), u, o)
  {
    Granularity.SectionIsUpdate(s, p, ev);
    var w := Granularity.Abstract(s);
    GameRuns.ApplyReaches(w, p, ev, u, o);
    hide Sound, R.WellFormed, R.Apply, Section, GameRuns.InStep;
    GameRuns.SameWireAndRooms(w, G.Update(w, p, R.Apply(w.objs[p], ev)), Granularity.Abstract(t), u, o);
  }

  lemma CallReaches(s: Sys, c: nat, u: uint32, o: nat)
    requires Sound(s) && c < |s.calls| && Sound(StepCall(s, c)) && o < |s.objs|
    requires u in s.objs[o].uids && u in s.sessions
    ensures GameRuns.InStep(Granularity.Abstract(s), Granularity.Abstract(StepCall(s, c)), u, o)
  {
    var pc, t := s.calls[c].pc, StepCall(s, c);
    if RoomEventOf(pc).Some? {
      EffectIsSection(s, c);
      RoomOf(s, Pointer(pc).value);
      hide Effect, NextPc, Sound, R.WellFormed, Section, GameRuns.InStep;
      SectionReaches(s, Pointer(pc).value, RoomEventOf(pc).value, u, o, t);
    } else {
      EffectOnTables(s, c);
      EffectOnWire(s, c);
      hide Effect, NextPc, Sound;
      var w := Granularity.Abstract(s);
      GameRuns.NothingHappens(w, u, o);
      hide GameRuns.InStep;
      if pc.Replying? {
        assert t.wire == s.wire + [G.Replied(c, pc.reply)];
      }
      GameRuns.SameWireAndRooms(w, w, Granularity.Abstract(t), u, o);
    }
  }

  lemma EffectOnWire(s: Sys, c: nat)
    requires Sound(s) && c < |s.calls| && RoomEventOf(s.calls[c].pc) == None
    ensures Effect(s, c).wire ==
      match s.calls[c].pc
      case Replying(reply) => s.wire + [G.Replied(c, reply)]
      case _ => s.wire
  {
    hide R.WellFormed, PcSound, Held, Section, R.StopGame, R.PushInput, R.MarkReady;
  }

  lemma LoopReaches(s: Sys, u: uint32, o: nat)
    requires Sound(s) && Sound(StepLoop(s)) && o < |s.objs| && u in s.objs[o].uids && u in s.sessions
    ensures GameRuns.InStep(Granularity.Abstract(s), Granularity.Abstract(StepLoop(s)), u, o)
  {
    var t := StepLoop(s);
    if s.loop.WillTick? || s.loop.WillStart? {
      var p := s.loop.o;
      assert Held(s.loop)[0] == p;
      RoomOf(s, p);
      hide Sound, R.WellFormed, R.Tick, R.StartGame, Section, GameRuns.InStep, Held;
      SectionReaches(s, p, if s.loop.WillTick? then R.Ticked else R.Begin, u, o, t);
    } else {
      GameRuns.NothingHappens(Granularity.Abstract(s), u, o);
      LoopLooks(s);
      hide Sound, StepLoop, GameRuns.InStep;
      GameRuns.SameWireAndRooms(Granularity.Abstract(s), Granularity.Abstract(s), Granularity.Abstract(t), u, o);
    }
  }

  lemma LoopLooks(s: Sys)
    requires Sound(s) && !s.loop.WillTick? && !s.loop.WillStart?
    ensures StepLoop(s).objs == s.objs && StepLoop(s).wire == s.wire
  {
    LoopVisitMoves(s);
    hide Sound, StepLoop;
  }

  lemma SectionKeepsReceipt(s: Sys, e: Event, u: uint32, o: nat)
    requires Sound(s) && Enabled(s, e) && Sound(Step(s, e)) && o < |s.objs| && u in s.objs[o].uids && u in s.sessions
    ensures GameRuns.InStep(Granularity.Abstract(s), Granularity.Abstract(Step(s, e)), u, o)
  {
    match e
    case CallStep(c) => CallReaches(s, c, u, o);
    case LoopStep => LoopReaches(s, u, o);
    case CreateStep(k) =>
      CreateIsRoomStep(s, k, o);
      RoomOf(s, o);
      AppliedCasts(s.objs[o], RoomStep(s, e, o));
      CreateKeepsWire(s, k);
      hide Sound, StepCreate, R.WellFormed, R.Apply;
    case _ =>
      GameRuns.NothingHappens(Granularity.Abstract(s), u, o);
      hide Sound;
  }

  lemma CreateKeepsWire(s: Sys, k: nat)
    requires Sound(s) && k < |s.creates|
    ensures StepCreate(s, k).wire == s.wire
  {
    hide R.WellFormed, PcSound, Held, R.AddPlayer;
  }

  lemma StepKeepsMember(s: Sys, e: Event, u: uint32, o: nat)
    requires Sound(s) && Enabled(s, e) && o < |s.objs| && u in s.objs[o].uids
    ensures o < |Step(s, e).objs| && u in Step(s, e).objs[o].uids
  {
    StepIsRoomStep(s, e, o);
    var x := RoomStep(s, e, o);
    hide Sound, Step, RoomStep, Enabled;
    if x.Some? {
      R.ApplyKeepsWellFormed(s.objs[o], x.value);
    }
    hide R.Apply, R.WellFormed;
  }

  /** `u` has a session in every state from `m` up to `n`. */
  ghost predicate RegisteredFrom(ss: seq<Sys>, m: nat, n: nat, u: uint32)
    requires n < |ss|
  {
    forall k | m <= k < n :: u in ss[k].sessions
  }

  /** In every interleaving a member registered throughout is sent exactly what the room
      broadcasts, in order and once each. */
  lemma {:induction false} InterleavedReceipt(ss: seq<Sys>, es: seq<Event>, m: nat, n: nat, u: uint32, o: nat)
    requires Execution(ss, es) && m <= n <= |es| && o < |ss[m].objs| && u in ss[m].objs[o].uids
    requires RegisteredFrom(ss, m, n, u)
    ensures o < |ss[n].objs| && u in ss[n].objs[o].uids && Sound(ss[m]) && Sound(ss[n])
    ensures GameRuns.InStep(Granularity.Abstract(ss[m]), Granularity.Abstract(ss[n]), u, o)
    decreases n
  {
    hide Sound, Step, Enabled, GameRuns.InStep;
    StateSound(ss, es, m);
    StateSound(ss, es, n);
    if n == m {
      GameRuns.NothingHappens(Granularity.Abstract(ss[m]), u, o);
    } else {
      InterleavedReceipt(ss, es, m, n - 1, u, o);
      NextState(ss, es, n - 1);
      StepKeepsMember(ss[n - 1], es[n - 1], u, o);
      SectionKeepsReceipt(ss[n - 1], es[n - 1], u, o);
      hide Execution;
      GameRuns.InStepTransitive(Granularity.Abstract(ss[m]), Granularity.Abstract(ss[n - 1]),
        Granularity.Abstract(ss[n]), u, o);
    }
  }

  // ---- Who stays registered ----

  /** The section registers or unregisters a stream of `uid`'s. */
  ghost predicate TouchesSession(s: Sys, e: Event, uid: uint32) {
    e.CallStep? && e.c < |s.calls| && s.calls[e.c].uid == uid
    && (s.calls[e.c].pc.Registering? || s.calls[e.c].pc.LeaveUnregister?)
  }

  predicate RegisteredAs(s: Sys, uid: uint32, c: nat) {
    uid in s.sessions && s.sessions[uid] == c
  }

  /** Call `c` has registered once, and does not do so again. */
  predicate PastRegistering(s: Sys, c: nat) {
    c < |s.calls| && !s.calls[c].pc.Registering?
  }

  lemma SessionStep(s: Sys, e: Event, uid: uint32, c: nat)
    requires Sound(s) && Enabled(s, e) && PastRegistering(s, c)
    ensures PastRegistering(Step(s, e), c)
    ensures RegisteredAs(Step(s, e), uid, c) <==> RegisteredAs(s, uid, c) && !TouchesSession(s, e, uid)
  {
    match e
    case CallStep(d) =>
      EffectOnSessions(s, d);
      EffectKeepsSound(s, d);
      NextPcServes(s, d);
      hide Effect, NextPc, Sound;
    case LoopStep =>
      LoopKeepsTable(s);
      hide Sound, StepLoop;
    case CreateStep(k) =>
      CreateKeepsCalls(s, k);
      hide Sound, StepCreate;
    case _ =>
      hide Sound;
  }

  /** In every interleaving a registered stream is still its player's session some sections
      later exactly if none of them registers or unregisters a stream of that player. */
  lemma {:induction false} RegistrationExactly(ss: seq<Sys>, es: seq<Event>, m: nat, n: nat, uid: uint32, c: nat)
    requires Execution(ss, es) && m <= n <= |es| && RegisteredAs(ss[m], uid, c) && PastRegistering(ss[m], c)
    ensures PastRegistering(ss[n], c)
    ensures RegisteredAs(ss[n], uid, c) <==> forall k | m <= k < n :: !TouchesSession(ss[k], es[k], uid)
    decreases n
  {
    hide Sound, Step, Enabled, TouchesSession;
    if n > m {
      RegistrationExactly(ss, es, m, n - 1, uid, c);
      NextState(ss, es, n - 1);
      SessionStep(ss[n - 1], es[n - 1], uid, c);
    }
  }

  // ---- Frame numbers ----

  ghost predicate SuccessiveFrames(casts: seq<R.Cast>) {
    forall k, next | 0 <= k < next == k + 1 < |casts| && casts[k].FrameUpdate? && casts[next].FrameUpdate? ::
      casts[next].frame.frameId == Increment32(casts[k].frame.frameId)
  }

  /** The frame being gathered comes after the last one sent. */
  ghost predicate InOrder(r: R.RoomView) {
    && SuccessiveFrames(r.casts)
    && (r.casts != [] && r.casts[|r.casts| - 1].FrameUpdate? ==>
         r.frame.frameId == Increment32(r.casts[|r.casts| - 1].frame.frameId))
  }

  lemma StepKeepsOrder(r: R.RoomView, x: Option<R.RoomEvent>)
    requires R.WellFormed(r) && InOrder(r)
    ensures InOrder(Applied(r, x))
  {
    hide R.WellFormed;
  }

  lemma {:induction false} InterleavedOrder(ss: seq<Sys>, es: seq<Event>, n: nat, o: nat)
    requires FromStart(ss, es) && n <= |es| && o < |ss[n].objs|
    ensures InOrder(ss[n].objs[o])
    decreases n
  {
    if n > 0 {
      NextState(ss, es, n - 1);
      hide Execution, Sound, Step, Enabled, InOrder;
      if o < |ss[n - 1].objs| {
        InterleavedOrder(ss, es, n - 1, o);
        StepIsRoomStep(ss[n - 1], es[n - 1], o);
        StepKeepsOrder(ss[n - 1].objs[o], RoomStep(ss[n - 1], es[n - 1], o));
      } else {
        NewObject(ss[n - 1], es[n - 1], o);
        NothingSent(ss[n].objs[o]);
      }
    }
  }

  lemma NothingSent(r: R.RoomView)
    requires r.casts == []
    ensures InOrder(r)
  {
  }

  /** What `u` is sent by room `o` between two states. */
  ghost function SentBetween(s: Sys, t: Sys, u: uint32, o: nat): seq<R.Cast>
    requires |GameRuns.Received(s.wire, u, o)| <= |GameRuns.Received(t.wire, u, o)|
  {
    GameRuns.Received(t.wire, u, o)[|GameRuns.Received(s.wire, u, o)|..]
  }

  /** Lockstep in every interleaving: two members registered throughout a span are sent
      identical sequences, and successive frames in them have successive numbers. */
  lemma InterleavedAgreement(ss: seq<Sys>, es: seq<Event>, m: nat, n: nat, a: uint32, b: uint32, o: nat)
    requires FromStart(ss, es) && m <= n <= |es| && o < |ss[m].objs|
    requires a in ss[m].objs[o].uids && b in ss[m].objs[o].uids
    requires RegisteredFrom(ss, m, n, a) && RegisteredFrom(ss, m, n, b)
    ensures |GameRuns.Received(ss[m].wire, a, o)| <= |GameRuns.Received(ss[n].wire, a, o)|
    ensures |GameRuns.Received(ss[m].wire, b, o)| <= |GameRuns.Received(ss[n].wire, b, o)|
    ensures SentBetween(ss[m], ss[n], a, o) == SentBetween(ss[m], ss[n], b, o)
    ensures SuccessiveFrames(SentBetween(ss[m], ss[n], a, o))
  {
    InterleavedReceipt(ss, es, m, n, a, o);
    InterleavedReceipt(ss, es, m, n, b, o);
    InterleavedOrder(ss, es, n, o);
    hide Execution, Sound, GameRuns.Received;
    var casts, k := ss[n].objs[o].casts, |ss[m].objs[o].casts|;
    assert SentBetween(ss[m], ss[n], a, o) == casts[k..];
    assert SentBetween(ss[m], ss[n], b, o) == casts[k..];
  }

  // ---- The id counter ----

  /** The steps of the room-id counter up to state `n`. */
  ghost function CounterTrace(ss: seq<Sys>, es: seq<Event>, n: nat): seq<RoomIds.Step>
    requires Execution(ss, es) && n <= |es|
    decreases n
  {
    if n == 0 then []
    else
      NextState(ss, es, n - 1);
      var e := es[n - 1];
      CounterTrace(ss, es, n - 1) +
        if e.CreateStep? && ss[n - 1].creates[e.k].Drawing? then [RoomIds.Draw]
        else if e.CreateStep? && ss[n - 1].creates[e.k].Resetting? then [RoomIds.Reset]
        else []
  }

  lemma CounterStep(s: Sys, e: Event)
    requires Sound(s) && Enabled(s, e)
    ensures var c := RoomIds.Counter(s.nextRoomId, Owed(s.creates), []);
      var t := Step(s, e);
      if e.CreateStep? && s.creates[e.k].Drawing? then
        var c1 := RoomIds.Next(c, RoomIds.Draw); t.nextRoomId == c1.next && Owed(t.creates) == c1.pending
      else if e.CreateStep? && s.creates[e.k].Resetting? then
        c.pending > 0 && var c1 := RoomIds.Next(c, RoomIds.Reset);
          t.nextRoomId == c1.next && Owed(t.creates) == c1.pending
      else t.nextRoomId == c.next && Owed(t.creates) == c.pending
  {
    match e
    case CreateStep(k) =>
      CreateCounts(s, k);
      hide Sound, StepCreate, Owed;
    case CreateCalled(players) => OwedAppend(s.creates, Drawing(players));
    case CallStep(c) =>
      EffectKeepsCounter(s, c);
      hide Effect, NextPc, Sound, Owed;
    case LoopStep =>
      LoopKeepsTable(s);
      hide StepLoop, Sound, Owed;
    case _ =>
      hide Sound, Owed;
  }

  lemma CreateCounts(s: Sys, k: nat)
    requires Sound(s) && k < |s.creates|
    ensures var t := StepCreate(s, k);
      && (s.creates[k].Drawing? ==>
           && t.nextRoomId == RoomIds.FetchAdd(s.nextRoomId)
           && Owed(t.creates) == if s.nextRoomId > 1_000_000_000 then Owed(s.creates) + 1 else Owed(s.creates))
      && (s.creates[k].Resetting? ==>
           Owed(s.creates) > 0 && t.nextRoomId == 1000 && Owed(t.creates) == Owed(s.creates) - 1)
      && (!s.creates[k].Drawing? && !s.creates[k].Resetting? ==>
           t.nextRoomId == s.nextRoomId && Owed(t.creates) == Owed(s.creates))
  {
    hide Owed, R.AddPlayer, R.NewRoom, R.WellFormed, PcSound, Held;
    var t := StepCreate(s, k);
    OwedUpdate(s.creates, k, t.creates[k]);
    assert t.creates == s.creates[k := t.creates[k]];
  }

  /** The interleaved server runs the counter of RoomIds: so in every interleaving the ids
      it draws are those of RoomIds' closed form, and repeat exactly when those do. */
  lemma {:induction false} ServerRunsCounter(ss: seq<Sys>, es: seq<Event>, n: nat)
    requires FromStart(ss, es) && n <= |es|
    requires forall k | 0 <= k <= n :: Owed(ss[k].creates) <= RoomIds.MAX_PENDING
    ensures RoomIds.CanRun(RoomIds.START, CounterTrace(ss, es, n))
    ensures var c := RoomIds.Run(RoomIds.START, CounterTrace(ss, es, n));
      c.next == ss[n].nextRoomId && c.pending == Owed(ss[n].creates)
    ensures ss[n].nextRoomId == 1000 + RoomIds.SinceReset(CounterTrace(ss, es, n))
    decreases n
  {
    hide Sound, Step, Enabled, Owed, RoomIds.CanRun, RoomIds.Run, RoomIds.SinceReset;
    if n == 0 {
      NothingOwed();
    } else {
      ServerRunsCounter(ss, es, n - 1);
      NextState(ss, es, n - 1);
      CounterStep(ss[n - 1], es[n - 1]);
      var p, t := CounterTrace(ss, es, n - 1), CounterTrace(ss, es, n);
      hide Execution, CounterTrace;
      if t != p {
        assert t == p + [t[|p|]];
        OneMoreStep(p, t[|p|]);
      }
    }
    RoomIds.CounterClosedForm(RoomIds.START, CounterTrace(ss, es, n));
  }

  lemma NothingOwed()
    ensures Owed([]) == 0 && RoomIds.CanRun(RoomIds.START, []) && RoomIds.Run(RoomIds.START, []) == RoomIds.START
  {
  }

  lemma OneMoreStep(p: seq<RoomIds.Step>, x: RoomIds.Step)
    requires RoomIds.CanRun(RoomIds.START, p) && RoomIds.Possible(RoomIds.Run(RoomIds.START, p), x)
    requires RoomIds.Next(RoomIds.Run(RoomIds.START, p), x).pending <= RoomIds.MAX_PENDING
    ensures RoomIds.CanRun(RoomIds.START, p + [x])
    ensures RoomIds.Run(RoomIds.START, p + [x]) == RoomIds.Next(RoomIds.Run(RoomIds.START, p), x)
  {
    var c := RoomIds.Run(RoomIds.START, p);
    RoomIds.EndPending(RoomIds.START, p);
    assert [x][1..] == [] && RoomIds.CanRun(RoomIds.Next(c, x), []);
    RoomIds.RunConcat(RoomIds.START, p, [x]);
  }
}
