/** Many callers closing gateway sessions at once: the check and set of `Connected` is
    one locked step, the notice and the removal come later, in any interleaving. */
module CloseOnce {
  import opened Types

  /** Where a call of `Close` is. */
  datatype Pc = Checking | Notifying | Removing | Done(passed: bool)

  datatype Closer = Closer(obj: nat, pc: Pc)

  /** A session object; `winner` remembers which caller found it connected. */
  datatype Obj = Obj(id: uint32, connected: bool, winner: Option<nat>)

  /** What `RemoveSession` found under the id it was given. */
  datatype Removal = Removal(obj: nat, found: Option<nat>)

  datatype Sys = Sys(
    lobbyUp: bool, table: map<uint32, nat>, objs: seq<Obj>, closers: seq<Closer>,
    notices: seq<nat>, removals: seq<Removal>)

  function Init(lobbyUp: bool): Sys {
    Sys(lobbyUp, map[], [], [], [], [])
  }

  datatype Event = Added(id: uint32) | CloseCalled(obj: nat) | Advance(c: nat)

  ghost predicate Enabled(s: Sys, e: Event) {
    match e
    case Added(id) => id != 0 && id !in s.table
    case CloseCalled(obj) => obj < |s.objs|
    case Advance(c) => c < |s.closers| && s.closers[c].obj < |s.objs|
  }

  function Goto(s: Sys, c: nat, pc: Pc): Sys
    requires c < |s.closers|
  {
    s.(closers := s.closers[c := s.closers[c].(pc := pc)])
  }

  function Found(s: Sys, id: uint32): Option<nat> {
    if id in s.table then Some(s.table[id]) else None
  }

  /** The next section of call `c`. */
  function AdvanceCloser(s: Sys, c: nat): Sys
    requires c < |s.closers| && s.closers[c].obj < |s.objs|
  {
    var o := s.closers[c].obj;
    match s.closers[c].pc
    case Checking =>
      if s.objs[o].connected
      then Goto(s, c, Notifying).(objs := s.objs[o := Obj(s.objs[o].id, false, Some(c))])
      else Goto(s, c, Done(false))
    case Notifying => Goto(s, c, Removing).(notices := if s.lobbyUp then s.notices + [o] else s.notices)
    case Removing =>
      Goto(s, c, Done(true)).(table := s.table - {s.objs[o].id},
        removals := s.removals + [Removal(o, Found(s, s.objs[o].id))])
    case Done(_) => s
  }

  ghost function Step(s: Sys, e: Event): Sys
    requires Enabled(s, e)
  {
    match e
    case Added(id) => s.(table := s.table[id := |s.objs|], objs := s.objs + [Obj(id, true, None)])
    case CloseCalled(obj) => s.(closers := s.closers + [Closer(obj, Checking)])
    case Advance(c) => AdvanceCloser(s, c)
  }

  ghost predicate CanRun(s: Sys, es: seq<Event>)
    decreases |es|
  {
    es == [] || (Enabled(s, es[0]) && CanRun(Step(s, es[0]), es[1..]))
  }

  ghost function Run(s: Sys, es: seq<Event>): Sys
    requires CanRun(s, es)
    decreases |es|
  {
    if es == [] then s else Run(Step(s, es[0]), es[1..])
  }

  /** The call found its session connected. */
  predicate Passed(k: Closer) {
    k.pc.Notifying? || k.pc.Removing? || k.pc == Done(true)
  }

  ghost predicate ClosersSound(s: Sys) {
    forall c | 0 <= c < |s.closers| ::
      && s.closers[c].obj < |s.objs|
      && (Passed(s.closers[c]) ==> s.objs[s.closers[c].obj].winner == Some(c))
      && (!s.closers[c].pc.Checking? ==> !s.objs[s.closers[c].obj].connected)
  }

  ghost predicate ObjsSound(s: Sys) {
    forall o | 0 <= o < |s.objs| ::
      && (s.objs[o].connected <==> s.objs[o].winner == None)
      && (s.objs[o].winner.Some? ==>
           s.objs[o].winner.value < |s.closers| && s.closers[s.objs[o].winner.value].obj == o
           && Passed(s.closers[s.objs[o].winner.value]))
  }

  /** How far the one call that closes session object `o` is. */
  ghost function Progress(s: Sys, o: nat): Pc
    requires o < |s.objs|
  {
    if s.objs[o].winner.Some? && s.objs[o].winner.value < |s.closers| then s.closers[s.objs[o].winner.value].pc
    else Checking
  }

  /** A session is in the table, under its id, until its one closer removes it. */
  ghost predicate TableSound(s: Sys) {
    && (forall id | id in s.table :: s.table[id] < |s.objs| && s.objs[s.table[id]].id == id)
    && (forall o | 0 <= o < |s.objs| :: Found(s, s.objs[o].id) == Some(o) <==> Progress(s, o) != Done(true))
  }

  ghost predicate Notified(s: Sys, o: nat)
    requires o < |s.objs|
  {
    s.lobbyUp && (Progress(s, o).Removing? || Progress(s, o) == Done(true))
  }

  ghost predicate LogsSound(s: Sys) {
    && NoDuplicates(s.notices)
    && (forall o | 0 <= o < |s.objs| :: o in s.notices <==> Notified(s, o))
    && (forall o | o in s.notices :: o < |s.objs|)
    && (forall i | 0 <= i < |s.removals| :: s.removals[i].found == Some(s.removals[i].obj))
  }

  ghost predicate Inv(s: Sys) {
    ClosersSound(s) && ObjsSound(s) && TableSound(s) && LogsSound(s)
  }

  lemma AdvanceKeepsLinks(s: Sys, c: nat)
    requires Inv(s) && c < |s.closers|
    ensures ClosersSound(AdvanceCloser(s, c)) && ObjsSound(AdvanceCloser(s, c))
  {
    hide TableSound, LogsSound;
  }

  /** A step of a call moves only its own session's close, if that. */
  lemma AdvanceProgress(s: Sys, c: nat)
    requires Inv(s) && c < |s.closers| && s.closers[c].obj < |s.objs|
    ensures var s', own := AdvanceCloser(s, c), s.closers[c].obj;
      && |s'.objs| == |s.objs| && s'.lobbyUp == s.lobbyUp
      && (forall o | 0 <= o < |s.objs| :: s'.objs[o].id == s.objs[o].id)
      && (forall o | 0 <= o < |s.objs| && o != own :: Progress(s', o) == Progress(s, o))
      && (match s.closers[c].pc
          case Checking => Progress(s', own) == if s.objs[own].connected then Notifying else Progress(s, own)
          case Notifying => Progress(s, own) == Notifying && Progress(s', own) == Removing
          case Removing => Progress(s, own) == Removing && Progress(s', own) == Done(true)
          case Done(_) => s' == s)
      && (s.objs[own].connected ==> Progress(s, own) == Checking)
  {
    hide TableSound, LogsSound;
  }

  lemma AdvanceKeepsTable(s: Sys, c: nat)
    requires Inv(s) && c < |s.closers| && s.closers[c].obj < |s.objs|
    ensures TableSound(AdvanceCloser(s, c))
  {
    AdvanceProgress(s, c);
    hide ClosersSound, ObjsSound, LogsSound, Progress;
  }

  /** The session about to be removed is in the table under its id. */
  lemma RemovalFindsOwn(s: Sys, c: nat)
    requires Inv(s) && c < |s.closers| && s.closers[c].obj < |s.objs| && s.closers[c].pc.Removing?
    ensures Found(s, s.objs[s.closers[c].obj].id) == Some(s.closers[c].obj)
  {
    hide LogsSound;
  }

  lemma AdvanceKeepsLogs(s: Sys, c: nat)
    requires Inv(s) && c < |s.closers| && s.closers[c].obj < |s.objs|
    ensures LogsSound(AdvanceCloser(s, c))
  {
    hide ClosersSound, ObjsSound, TableSound, Progress, Found;
    AdvanceProgress(s, c);
    if s.closers[c].pc.Removing? {
      RemovalFindsOwn(s, c);
    }
    var s', own := AdvanceCloser(s, c), s.closers[c].obj;
    assert own in s.notices <==> Notified(s, own);
    forall o | 0 <= o < |s.objs|
      ensures o in s'.notices <==> Notified(s', o)
    {
      assert o in s.notices <==> Notified(s, o);
    }
  }

  lemma AddedProgress(s: Sys, id: uint32)
    requires Inv(s) && Enabled(s, Added(id))
    ensures var s' := Step(s, Added(id));
      && ClosersSound(s') && ObjsSound(s')
      && (forall o | 0 <= o < |s.objs| :: Progress(s', o) == Progress(s, o)) && Progress(s', |s.objs|) == Checking
  {
    hide TableSound, LogsSound;
  }

  lemma AddedKeepsInv(s: Sys, id: uint32)
    requires Inv(s) && Enabled(s, Added(id))
    ensures Inv(Step(s, Added(id)))
  {
    AddedProgress(s, id);
    hide ClosersSound, ObjsSound, Progress, NoDuplicates;
    var s' := Step(s, Added(id));
    assert TableSound(s') by {
      hide LogsSound;
    }
    hide TableSound;
  }

  lemma CalledProgress(s: Sys, obj: nat)
    requires Inv(s) && Enabled(s, CloseCalled(obj))
    ensures var s' := Step(s, CloseCalled(obj));
      && ClosersSound(s') && ObjsSound(s')
      && forall o | 0 <= o < |s.objs| :: Progress(s', o) == Progress(s, o)
  {
    hide TableSound, LogsSound;
  }

  lemma CalledKeepsInv(s: Sys, obj: nat)
    requires Inv(s) && Enabled(s, CloseCalled(obj))
    ensures Inv(Step(s, CloseCalled(obj)))
  {
    CalledProgress(s, obj);
    hide ClosersSound, ObjsSound, Progress, NoDuplicates;
    var s' := Step(s, CloseCalled(obj));
    assert TableSound(s') by {
      hide LogsSound;
    }
    hide TableSound;
  }

  lemma StepKeepsInv(s: Sys, e: Event)
    requires Inv(s) && Enabled(s, e)
    ensures Inv(Step(s, e))
  {
    match e
    case Added(id) => AddedKeepsInv(s, id);
    case CloseCalled(obj) => CalledKeepsInv(s, obj);
    case Advance(c) =>
      AdvanceKeepsLinks(s, c);
      AdvanceKeepsTable(s, c);
      AdvanceKeepsLogs(s, c);
      hide ClosersSound, ObjsSound, TableSound, LogsSound, AdvanceCloser;
  }

  lemma {:induction false} RunKeepsInv(s: Sys, es: seq<Event>)
    requires Inv(s) && CanRun(s, es)
    ensures Inv(Run(s, es))
    decreases |es|
  {
    if es != [] {
      StepKeepsInv(s, es[0]);
      hide Inv, Step, Enabled;
      RunKeepsInv(Step(s, es[0]), es[1..]);
    }
  }

  /** In every interleaving, once any call of `Close` on a session is past its check,
      exactly one of the session's callers has found it connected. */
  lemma ExactlyOnePasses(lobbyUp: bool, es: seq<Event>, c: nat)
    requires CanRun(Init(lobbyUp), es)
    requires var s := Run(Init(lobbyUp), es); c < |s.closers| && !s.closers[c].pc.Checking?
    ensures var s := Run(Init(lobbyUp), es);
      exists w: nat :: w < |s.closers| && s.closers[w].obj == s.closers[c].obj && Passed(s.closers[w])
        && forall d | 0 <= d < |s.closers| && s.closers[d].obj == s.closers[c].obj && Passed(s.closers[d]) :: d == w
  {
    RunKeepsInv(Init(lobbyUp), es);
    var s := Run(Init(lobbyUp), es);
    hide Run, CanRun;
    var w := s.objs[s.closers[c].obj].winner.value;
    assert Passed(s.closers[w]);
  }

  /** Every session is announced to the lobby at most once, and only by a caller that
      found it connected; every removal hits the very session being closed, and never a
      later one that has taken over its id. */
  lemma OneNoticeOwnRemoval(lobbyUp: bool, es: seq<Event>)
    requires CanRun(Init(lobbyUp), es)
    ensures var s := Run(Init(lobbyUp), es);
      && NoDuplicates(s.notices)
      && (forall o | o in s.notices ::
           exists c :: 0 <= c < |s.closers| && s.closers[c].obj == o && Passed(s.closers[c]))
      && (forall i | 0 <= i < |s.removals| :: s.removals[i].found == Some(s.removals[i].obj))
  {
    RunKeepsInv(Init(lobbyUp), es);
    var s := Run(Init(lobbyUp), es);
    hide Run, CanRun;
    forall o | o in s.notices
      ensures exists c :: 0 <= c < |s.closers| && s.closers[c].obj == o && Passed(s.closers[c])
    {
      assert Passed(s.closers[s.objs[o].winner.value]);
    }
  }

  /** When every call on a session that anybody closes has returned, the session is
      disconnected, out of the table, and has been announced if the lobby is there;
      a session nobody closes is connected and in the table. */
  lemma WhenAllHaveReturned(lobbyUp: bool, es: seq<Event>, o: nat)
    requires CanRun(Init(lobbyUp), es)
    requires var s := Run(Init(lobbyUp), es);
      o < |s.objs| && forall c | 0 <= c < |s.closers| && s.closers[c].obj == o :: s.closers[c].pc.Done?
    ensures var s := Run(Init(lobbyUp), es);
      var closed := exists c :: 0 <= c < |s.closers| && s.closers[c].obj == o;
      && (s.objs[o].connected <==> !closed)
      && (Found(s, s.objs[o].id) == Some(o) <==> !closed)
      && (o in s.notices <==> closed && lobbyUp)
  {
    RunKeepsInv(Init(lobbyUp), es);
    LobbyUpStays(Init(lobbyUp), es);
    var s := Run(Init(lobbyUp), es);
    hide Run, CanRun;
  }

  lemma {:induction false} LobbyUpStays(s: Sys, es: seq<Event>)
    requires CanRun(s, es)
    ensures Run(s, es).lobbyUp == s.lobbyUp
    decreases |es|
  {
    if es != [] {
      LobbyUpStays(Step(s, es[0]), es[1..]);
    }
  }
}
