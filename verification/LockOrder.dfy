/** Every mutex of the lobby and game servers, the order in which each code path takes
    them, and why no number of threads can deadlock. */
module LockOrder {
  import opened Types

  datatype Lock =
    | Database                          // DBManager
    | Online | Match | Push             // LobbyServiceImpl
    | Mapping | Rooms | Sessions        // RoomManager
    | RoomMutex(room: nat)              // one per Room
    | Writer(stream: nat)               // one per GrpcSessionStream

  const RANKS: nat := 9

  function Rank(l: Lock): nat {
    match l
    case Online => 0
    case Match => 1
    case Push => 2
    case Mapping => 3
    case Rooms => 4
    case RoomMutex(_) => 5
    case Sessions => 6
    case Writer(_) => 7
    case Database => 8
  }

  datatype Op = Acquire(lock: Lock) | Release(lock: Lock)

  // ---- The code paths ----

  function Nested(l: Lock, inner: seq<Op>): seq<Op> {
    [Acquire(l)] + inner + [Release(l)]
  }

  function Section(l: Lock): seq<Op> {
    Nested(l, [])
  }

  function Times(n: nat, ops: seq<Op>): seq<Op> {
    if n == 0 then [] else ops + Times(n - 1, ops)
  }

  function If(c: bool, ops: seq<Op>): seq<Op> {
    if c then ops else []
  }

  /** `GrpcSessionStream::Send` to each of `streams`. */
  function Writes(streams: seq<nat>): seq<Op> {
    if streams == [] then [] else Section(Writer(streams[0])) + Writes(streams[1..])
  }

  /** A room's section that broadcasts to the streams found registered. */
  function Broadcasting(o: nat, streams: seq<nat>): seq<Op> {
    Nested(RoomMutex(o), Nested(Sessions, Writes(streams)))
  }

  /** `GetRoomByUid`, which looks the room up with the mapping still locked. */
  function LookupByUid(mapped: bool): seq<Op> {
    Nested(Mapping, If(mapped, Section(Rooms)))
  }

  /** `DestroyRoom`, which may find the room gone already. */
  function Destroying(found: bool, o: nat, members: nat): seq<Op> {
    Section(Rooms) +
    If(found, Section(RoomMutex(o)) + Times(members, Section(Mapping)) + Section(Rooms))
  }

  function Creating(o: nat, players: nat): seq<Op> {
    Section(Rooms) + Times(players, Section(RoomMutex(o)))
  }

  datatype Turn =
    | NoTurn
    | TickTurn(o: nat, streams: seq<nat>)
    | CheckTurn(o: nat)
    | StartTurn(o: nat, streams: seq<nat>)

  function TurnOps(t: Turn): seq<Op> {
    match t
    case NoTurn => []
    case TickTurn(o, streams) => Broadcasting(o, streams)
    case CheckTurn(o) => Section(RoomMutex(o))
    case StartTurn(o, streams) => Section(RoomMutex(o)) + Broadcasting(o, streams)
  }

  function Turns(ts: seq<Turn>): seq<Op> {
    if ts == [] then [] else TurnOps(ts[0]) + Turns(ts[1..])
  }

  /** One call of each kind, with everything its branches depend on. */
  datatype Path =
    | OpenStream
    | EnterRoom(member: bool, o: nat, s: nat)
    | PlayerReady(member: bool, o: nat, s: nat)
    | FrameInput(mapped: bool, found: bool, o: nat)
    | GameOver(mapped: bool, found: bool, o: nat, streams: seq<nat>, there: bool, o': nat, members: nat, s: nat)
    | CloseStream(mapped: bool, gaming: bool, o: nat, streams: seq<nat>, there: bool, o': nat, members: nat)
    | CreateRoom(o: nat, players: nat)
    | LoopIteration(turns: seq<Turn>)
    | MatchGame(paired: bool, called: bool, o: nat, players: nat)
    | MatchStop
    | ClientDisconnect
    | Login(named: bool)
    | OnlineSection   // a logout, or the online count
    | DatabaseSection // making a role, or reading a player's data
    | PushSection     // the gateway's subscription
    | NoSection       // an unknown command, or a payload that does not parse

  function Code(p: Path): seq<Op> {
    match p
    case OpenStream => Section(Sessions)
    case EnterRoom(member, o, s) =>
      Section(Rooms)
      + If(member, Section(RoomMutex(o)) + Section(RoomMutex(o)) + Section(Mapping))
      + Section(Writer(s))
    case PlayerReady(member, o, s) =>
      Section(Rooms) + If(member, Section(RoomMutex(o))) + Section(Writer(s))
    case FrameInput(mapped, found, o) =>
      LookupByUid(mapped) + If(found, Section(RoomMutex(o)))
    case GameOver(mapped, found, o, streams, there, o', members, s) =>
      LookupByUid(mapped)
      + If(found, Broadcasting(o, streams) + Destroying(there, o', members))
      + Section(Writer(s))
    case CloseStream(mapped, gaming, o, streams, there, o', members) =>
      LookupByUid(mapped)
      + If(gaming, Section(RoomMutex(o)) + Broadcasting(o, streams) + Destroying(there, o', members))
      + Section(Mapping) + Section(Sessions)
    case CreateRoom(o, players) => Creating(o, players)
    case LoopIteration(turns) => Section(Rooms) + Turns(turns)
    case MatchGame(paired, called, o, players) =>
      Section(Database) + Section(Match) + If(paired, If(called, Creating(o, players)) + Section(Push) + Section(Push))
    case MatchStop => Section(Match)
    case ClientDisconnect => Nested(Online, Section(Match))
    case Login(named) => Section(Database) + If(named, Section(Online))
    case OnlineSection => Section(Online)
    case DatabaseSection => Section(Database)
    case PushSection => Section(Push)
    case NoSection => []
  }

  // ---- Ordered locking ----

  ghost predicate Below(held: set<Lock>, r: nat) {
    forall l | l in held :: Rank(l) < r
  }

  /** The locks held after `ops`, or None if some lock is taken out of order or some
      lock is released that is not held. */
  ghost function After(ops: seq<Op>, held: set<Lock>): Option<set<Lock>>
    decreases |ops|
  {
    if ops == [] then Some(held)
    else match ops[0]
      case Acquire(l) => if Below(held, Rank(l)) then After(ops[1..], held + {l}) else None
      case Release(l) => if l in held then After(ops[1..], held - {l}) else None
  }

  /** `ops` takes only locks of rank `r` or more, in order, and gives them all back. */
  ghost predicate Neutral(ops: seq<Op>, r: nat) {
    forall held | Below(held, r) :: After(ops, held) == Some(held)
  }

  lemma {:induction false} AfterConcat(a: seq<Op>, b: seq<Op>, held: set<Lock>)
    requires After(a, held).Some?
    ensures After(a + b, held) == After(b, After(a, held).value)
    decreases |a|
  {
    if a == [] {
      assert a + b == b;
    } else {
      assert (a + b)[0] == a[0] && (a + b)[1..] == a[1..] + b;
      match a[0]
      case Acquire(l) => AfterConcat(a[1..], b, held + {l});
      case Release(l) => AfterConcat(a[1..], b, held - {l});
    }
  }

  lemma NeutralConcat(a: seq<Op>, b: seq<Op>, r: nat)
    requires Neutral(a, r) && Neutral(b, r)
    ensures Neutral(a + b, r)
  {
    forall held | Below(held, r)
      ensures After(a + b, held) == Some(held)
    {
      AfterConcat(a, b, held);
    }
  }

  lemma NeutralNested(l: Lock, inner: seq<Op>, r: nat)
    requires Neutral(inner, Rank(l) + 1) && r <= Rank(l)
    ensures Neutral(Nested(l, inner), r)
  {
    forall held | Below(held, r)
      ensures After(Nested(l, inner), held) == Some(held)
    {
      var ops := Nested(l, inner);
      assert ops[0] == Acquire(l) && ops[1..] == inner + [Release(l)];
      assert Below(held, Rank(l)) && Below(held + {l}, Rank(l) + 1);
      AfterConcat(inner, [Release(l)], held + {l});
      assert [Release(l)][1..] == [];
      assert l !in held && held + {l} - {l} == held;
    }
  }

  lemma NeutralSection(l: Lock, r: nat)
    requires r <= Rank(l)
    ensures Neutral(Section(l), r)
  {
    NeutralNested(l, [], r);
  }

  lemma {:induction false} NeutralTimes(n: nat, ops: seq<Op>, r: nat)
    requires Neutral(ops, r)
    ensures Neutral(Times(n, ops), r)
  {
    if n > 0 {
      NeutralTimes(n - 1, ops, r);
      NeutralConcat(ops, Times(n - 1, ops), r);
    }
  }

  lemma {:induction false} NeutralWrites(streams: seq<nat>)
    ensures Neutral(Writes(streams), 7)
  {
    if streams != [] {
      NeutralSection(Writer(streams[0]), 7);
      NeutralWrites(streams[1..]);
      NeutralConcat(Section(Writer(streams[0])), Writes(streams[1..]), 7);
    }
  }

  lemma NeutralBroadcasting(o: nat, streams: seq<nat>)
    ensures Neutral(Broadcasting(o, streams), 0)
  {
    NeutralWrites(streams);
    NeutralNested(Sessions, Writes(streams), 6);
    NeutralNested(RoomMutex(o), Nested(Sessions, Writes(streams)), 0);
  }

  lemma NeutralLookup(mapped: bool)
    ensures Neutral(LookupByUid(mapped), 0)
  {
    NeutralSection(Rooms, 4);
    NeutralNested(Mapping, If(mapped, Section(Rooms)), 0);
  }

  /** The single sections, none of which is nested in another. */
  lemma NeutralSections()
    ensures forall l :: Neutral(Section(l), 0)
  {
    forall l
      ensures Neutral(Section(l), 0)
    {
      NeutralSection(l, 0);
    }
  }

  lemma NeutralIf(c: bool, ops: seq<Op>, r: nat)
    requires Neutral(ops, r)
    ensures Neutral(If(c, ops), r)
  {
  }

  lemma NeutralDestroying(found: bool, o: nat, members: nat)
    ensures Neutral(Destroying(found, o, members), 0)
  {
    NeutralSections();
    NeutralTimes(members, Section(Mapping), 0);
    var a, b := Section(RoomMutex(o)), Times(members, Section(Mapping));
    hide Neutral, Section, Times;
    NeutralConcat(a, b, 0);
    NeutralConcat(a + b, Section(Rooms), 0);
    NeutralIf(found, a + b + Section(Rooms), 0);
    NeutralConcat(Section(Rooms), If(found, a + b + Section(Rooms)), 0);
  }

  lemma NeutralCreating(o: nat, players: nat)
    ensures Neutral(Creating(o, players), 0)
  {
    NeutralSections();
    NeutralTimes(players, Section(RoomMutex(o)), 0);
    NeutralConcat(Section(Rooms), Times(players, Section(RoomMutex(o))), 0);
  }

  lemma {:induction false} NeutralTurns(ts: seq<Turn>)
    ensures Neutral(Turns(ts), 0)
  {
    if ts != [] {
      NeutralTurns(ts[1..]);
      NeutralSections();
      match ts[0] {
        case NoTurn =>
        case TickTurn(o, streams) => NeutralBroadcasting(o, streams);
        case CheckTurn(o) =>
        case StartTurn(o, streams) =>
          NeutralBroadcasting(o, streams);
          NeutralConcat(Section(RoomMutex(o)), Broadcasting(o, streams), 0);
      }
      NeutralConcat(TurnOps(ts[0]), Turns(ts[1..]), 0);
    }
  }

  lemma NeutralEnter(member: bool, o: nat, s: nat)
    ensures Neutral(Code(EnterRoom(member, o, s)), 0)
  {
    NeutralSections();
    var a, m, r, w := Section(RoomMutex(o)), Section(Mapping), Section(Rooms), Section(Writer(s));
    hide Neutral, Section;
    NeutralConcat(a, a, 0);
    NeutralConcat(a + a, m, 0);
    NeutralIf(member, a + a + m, 0);
    NeutralConcat(r, If(member, a + a + m), 0);
    NeutralConcat(r + If(member, a + a + m), w, 0);
  }

  lemma NeutralReady(member: bool, o: nat, s: nat)
    ensures Neutral(Code(PlayerReady(member, o, s)), 0)
  {
    NeutralSections();
    var a, r, w := Section(RoomMutex(o)), Section(Rooms), Section(Writer(s));
    hide Neutral, Section;
    NeutralIf(member, a, 0);
    NeutralConcat(r, If(member, a), 0);
    NeutralConcat(r + If(member, a), w, 0);
  }

  lemma NeutralGameOver(p: Path)
    requires p.GameOver?
    ensures Neutral(Code(p), 0)
  {
    NeutralSections();
    NeutralLookup(p.mapped);
    NeutralBroadcasting(p.o, p.streams);
    NeutralDestroying(p.there, p.o', p.members);
    var l, b, d, w := LookupByUid(p.mapped), Broadcasting(p.o, p.streams),
      Destroying(p.there, p.o', p.members), Section(Writer(p.s));
    hide Neutral, Section, LookupByUid, Broadcasting, Destroying;
    NeutralConcat(b, d, 0);
    NeutralIf(p.found, b + d, 0);
    NeutralConcat(l, If(p.found, b + d), 0);
    NeutralConcat(l + If(p.found, b + d), w, 0);
  }

  lemma NeutralClose(p: Path)
    requires p.CloseStream?
    ensures Neutral(Code(p), 0)
  {
    NeutralSections();
    NeutralLookup(p.mapped);
    NeutralBroadcasting(p.o, p.streams);
    NeutralDestroying(p.there, p.o', p.members);
    var l, a, b, d := LookupByUid(p.mapped), Section(RoomMutex(p.o)), Broadcasting(p.o, p.streams),
      Destroying(p.there, p.o', p.members);
    var m, s := Section(Mapping), Section(Sessions);
    hide Neutral, Section, LookupByUid, Broadcasting, Destroying;
    NeutralConcat(a, b, 0);
    NeutralConcat(a + b, d, 0);
    NeutralIf(p.gaming, a + b + d, 0);
    NeutralConcat(l, If(p.gaming, a + b + d), 0);
    NeutralConcat(l + If(p.gaming, a + b + d), m, 0);
    NeutralConcat(l + If(p.gaming, a + b + d) + m, s, 0);
  }

  lemma NeutralMatch(p: Path)
    requires p.MatchGame?
    ensures Neutral(Code(p), 0)
  {
    NeutralSections();
    NeutralCreating(p.o, p.players);
    var d, m, c, u := Section(Database), Section(Match), Creating(p.o, p.players), Section(Push);
    var q := d + m;
    hide Neutral, Section, Creating;
    NeutralConcat(d, m, 0);
    NeutralIf(p.called, c, 0);
    NeutralConcat(If(p.called, c), u, 0);
    NeutralConcat(If(p.called, c) + u, u, 0);
    NeutralIf(p.paired, If(p.called, c) + u + u, 0);
    NeutralConcat(q, If(p.paired, If(p.called, c) + u + u), 0);
  }

  /** Every code path, down every branch, takes its locks in the one strict order and
      gives them all back. */
  lemma EveryPathIsOrdered(p: Path)
    ensures After(Code(p), {}) == Some({})
  {
    assert Neutral(Code(p), 0) by {
      match p
      case EnterRoom(member, o, s) => NeutralEnter(member, o, s);
      case PlayerReady(member, o, s) => NeutralReady(member, o, s);
      case FrameInput(mapped, found, o) =>
        NeutralLookup(mapped);
        NeutralSections();
        NeutralIf(found, Section(RoomMutex(o)), 0);
        NeutralConcat(LookupByUid(mapped), If(found, Section(RoomMutex(o))), 0);
      case GameOver(_, _, _, _, _, _, _, _) => NeutralGameOver(p);
      case CloseStream(_, _, _, _, _, _, _) => NeutralClose(p);
      case CreateRoom(o, players) => NeutralCreating(o, players);
      case LoopIteration(turns) =>
        NeutralSections();
        NeutralTurns(turns);
        NeutralConcat(Section(Rooms), Turns(turns), 0);
      case MatchGame(_, _, _, _) => NeutralMatch(p);
      case Login(named) =>
        NeutralSections();
        NeutralIf(named, Section(Online), 0);
        NeutralConcat(Section(Database), If(named, Section(Online)), 0);
      case NoSection =>
      case ClientDisconnect =>
        NeutralSection(Match, 1);
        NeutralNested(Online, Section(Match), 0);
      case _ => NeutralSections();
    }
    assert Below({}, 0);
  }

  // ---- Threads ----

  /** A thread in the middle of a path: the locks it holds and what it still has to do. */
  datatype Thread = Thread(held: set<Lock>, todo: seq<Op>)

  type System = seq<Thread>

  ghost predicate Sound(s: System) {
    && (forall i | 0 <= i < |s| :: After(s[i].todo, s[i].held) == Some({}))
    && (forall i, j | 0 <= i < j < |s| :: s[i].held !! s[j].held)
  }

  /** Thread `i` has something to do and is not waiting for a lock. */
  ghost predicate CanStep(s: System, i: nat) {
    && i < |s| && s[i].todo != []
    && (s[i].todo[0].Acquire? ==> forall j | 0 <= j < |s| :: s[i].todo[0].lock !in s[j].held)
  }

  ghost function Advance(s: System, i: nat): System
    requires i < |s| && s[i].todo != []
  {
    var op := s[i].todo[0];
    s[i := Thread(if op.Acquire? then s[i].held + {op.lock} else s[i].held - {op.lock}, s[i].todo[1..])]
  }

  datatype Event = Steps(thread: nat) | Arrives(path: Path)

  ghost predicate Enabled(s: System, e: Event) {
    e.Steps? ==> CanStep(s, e.thread)
  }

  ghost function Next(s: System, e: Event): System
    requires Enabled(s, e)
  {
    match e
    case Steps(i) => Advance(s, i)
    case Arrives(p) => s + [Thread({}, Code(p))]
  }

  lemma NextKeepsSound(s: System, e: Event)
    requires Sound(s) && Enabled(s, e)
    ensures Sound(Next(s, e))
  {
    if e.Arrives? {
      EveryPathIsOrdered(e.path);
    }
  }

  /** A blocked thread leads, lock by lock of rising rank, to one that can step. */
  lemma {:induction false} SomeoneCanStep(s: System, i: nat)
    requires Sound(s) && i < |s| && s[i].todo != []
    ensures exists j :: CanStep(s, j)
    decreases if s[i].todo[0].Acquire? then RANKS - Rank(s[i].todo[0].lock) else 0
  {
    if CanStep(s, i) {
    } else {
      var l := s[i].todo[0].lock;
      var j :| 0 <= j < |s| && l in s[j].held;
      assert s[j].todo != [];
      if !CanStep(s, j) {
        assert Below(s[j].held, Rank(s[j].todo[0].lock));
        SomeoneCanStep(s, j);
      }
    }
  }

  /** Deadlock freedom: in every sound state, as long as any thread has unfinished
      work, some thread can step. */
  lemma DeadlockFree(s: System)
    requires Sound(s)
    ensures (exists i :: 0 <= i < |s| && s[i].todo != []) <==> (exists j :: CanStep(s, j))
    ensures !(exists j :: CanStep(s, j)) ==> forall i | 0 <= i < |s| :: s[i] == Thread({}, [])
  {
    if i :| 0 <= i < |s| && s[i].todo != [] {
      SomeoneCanStep(s, i);
    }
  }

  ghost function Work(s: System): nat {
    if s == [] then 0 else |s[0].todo| + Work(s[1..])
  }

  lemma {:induction false} WorkAdvance(s: System, i: nat)
    requires i < |s| && s[i].todo != []
    ensures Work(Advance(s, i)) + 1 == Work(s)
  {
    if i > 0 {
      assert Advance(s, i)[1..] == Advance(s[1..], i - 1);
      WorkAdvance(s[1..], i - 1);
    } else {
      assert Advance(s, i)[1..] == s[1..];
    }
  }

  lemma {:induction false} WorkAppend(s: System, t: Thread)
    ensures Work(s + [t]) == Work(s) + |t.todo|
  {
    if s != [] {
      assert (s + [t])[1..] == s[1..] + [t];
      WorkAppend(s[1..], t);
    } else {
      assert [t][1..] == [];
      assert s + [t] == [t];
    }
  }

  ghost predicate CanRun(s: System, es: seq<Event>)
    decreases |es|
  {
    es == [] || (Enabled(s, es[0]) && CanRun(Next(s, es[0]), es[1..]))
  }

  ghost function Run(s: System, es: seq<Event>): System
    requires CanRun(s, es)
    decreases |es|
  {
    if es == [] then s else Run(Next(s, es[0]), es[1..])
  }

  ghost function StepCount(es: seq<Event>): nat {
    if es == [] then 0 else (if es[0].Steps? then 1 else 0) + StepCount(es[1..])
  }

  ghost function Arrived(es: seq<Event>): nat {
    if es == [] then 0 else (if es[0].Arrives? then |Code(es[0].path)| else 0) + Arrived(es[1..])
  }

  /** Starting from no threads, after any calls have arrived and threads have stepped in
      any order: nobody is deadlocked, the steps taken and the work left add up to the
      work that arrived, and when nobody can step every call has ended and every lock
      is free. So without new arrivals every run ends, whatever the schedule. */
  lemma EveryRunIsSafe(es: seq<Event>)
    requires CanRun([], es)
    ensures var s := Run([], es);
      && Sound(s)
      && ((exists i :: 0 <= i < |s| && s[i].todo != []) ==> exists j :: CanStep(s, j))
      && StepCount(es) + Work(s) == Arrived(es)
      && (!(exists j :: CanStep(s, j)) ==> forall i | 0 <= i < |s| :: s[i] == Thread({}, []))
  {
    RunKeeps([], es);
    DeadlockFree(Run([], es));
  }

  lemma {:induction false} RunKeeps(s: System, es: seq<Event>)
    requires Sound(s) && CanRun(s, es)
    ensures Sound(Run(s, es))
    ensures StepCount(es) + Work(Run(s, es)) == Work(s) + Arrived(es)
    decreases |es|
  {
    if es != [] {
      NextKeepsSound(s, es[0]);
      match es[0] {
        case Steps(i) => WorkAdvance(s, i);
        case Arrives(p) => WorkAppend(s, Thread({}, Code(p)));
      }
      RunKeeps(Next(s, es[0]), es[1..]);
    }
  }
}
