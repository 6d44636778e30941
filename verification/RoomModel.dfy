/** One room as a value: the function each locked section of `Room` computes, and
    what a whole run of such sections broadcasts. */
module RoomModel {
  import opened Types
  import F = Framing
  import SnapshotJson

  datatype Phase = Idle | Gaming

  datatype Player = Player(uid: uint32, nickname: string, characterId: int32, gameId: int, ready: bool)

  datatype Frame = Frame(frameId: uint32, playerCount: nat, inputs: map<int, seq<byte>>)

  /** What a room sends to all its players. */
  datatype Cast =
    | GameStart(roomId: int32)
    | FrameUpdate(frame: Frame)
    | GameOver(overId: int32, winner: uint32)

  /** A room's fields; `casts` lists what it has broadcast since it was made. */
  datatype RoomView = RoomView(
    id: int32, phase: Phase, uids: seq<uint32>, players: map<uint32, Player>, frame: Frame, casts: seq<Cast>)

  function NewRoom(id: int32): RoomView {
    RoomView(id, Idle, [], map[], Frame(0, 0, map[]), [])
  }

  /** The player table and the join order describe the same players, and the seats
      follow the join order: the first player has seat 1, every later one seat 2. */
  ghost predicate WellFormed(r: RoomView) {
    && NoDuplicates(r.uids)
    && (forall u :: u in r.uids <==> u in r.players)
    && (forall u | u in r.players :: r.players[u].uid == u)
    && (forall i | 0 <= i < |r.uids| :: r.players[r.uids[i]].gameId == if i == 0 then 1 else 2)
  }

  function AssignGameId(r: RoomView): int
    requires r.uids != [] ==> r.uids[0] in r.players
  {
    if r.uids == [] then 1
    else if r.players[r.uids[0]].gameId == 1 then 2
    else 1
  }

  function AddPlayer(r: RoomView, uid: uint32, nickname: string, characterId: int32): RoomView
    requires r.uids != [] ==> r.uids[0] in r.players
  {
    if uid in r.players then r
    else
      var player := Player(uid, nickname, characterId, AssignGameId(r), false);
      r.(uids := r.uids + [uid], players := r.players[uid := player])
  }

  /** `RemovePlayer`: the player goes, and the first place that lists them. */
  function RemoveFirst(uids: seq<uint32>, uid: uint32): seq<uint32> {
    if uids == [] then [] else if uids[0] == uid then uids[1..] else [uids[0]] + RemoveFirst(uids[1..], uid)
  }

  function RemovePlayer(r: RoomView, uid: uint32): RoomView {
    r.(uids := RemoveFirst(r.uids, uid), players := r.players - {uid})
  }

  function MarkReady(r: RoomView, uid: uint32): RoomView {
    if uid in r.players then r.(players := r.players[uid := r.players[uid].(ready := true)]) else r
  }

  /** The two action bytes of an input; zeros when the input carries none. */
  function Action(raw: seq<byte>): seq<byte> {
    if |raw| >= 6 then raw[4..6] else [0, 0]
  }

  function PushInput(r: RoomView, uid: uint32, raw: seq<byte>): RoomView {
    if r.phase != Gaming || uid !in r.players || |raw| < 4 || BigEndian32(raw) < r.frame.frameId then r
    else
      var seat := r.players[uid].gameId;
      if seat in r.frame.inputs then r
      else r.(frame := r.frame.(inputs := r.frame.inputs[seat := Action(raw)]))
  }

  function Tick(r: RoomView): RoomView {
    if r.phase != Gaming then r
    else
      var sent := r.frame.(playerCount := |r.uids|);
      r.(frame := sent.(frameId := Increment32(sent.frameId), inputs := map[]),
         casts := r.casts + [FrameUpdate(sent)])
  }

  predicate AllReady(r: RoomView) {
    |r.uids| >= 2 && forall u | u in r.players :: r.players[u].ready
  }

  function StartGame(r: RoomView): RoomView {
    r.(phase := Gaming, frame := r.frame.(frameId := 0, inputs := map[]), casts := r.casts + [GameStart(r.id)])
  }

  function ClearReady(players: map<uint32, Player>): map<uint32, Player> {
    map u | u in players :: players[u].(ready := false)
  }

  function StopGame(r: RoomView, winner: uint32): RoomView {
    r.(phase := Idle, players := ClearReady(r.players), casts := r.casts + [GameOver(r.id, winner)])
  }

  function Rows(uids: seq<uint32>, players: map<uint32, Player>): (rows: seq<SnapshotJson.Row>)
    requires forall u | u in uids :: u in players
    ensures |rows| == |uids|
    ensures forall i | 0 <= i < |uids| ::
      rows[i] == SnapshotJson.Row(players[uids[i]].uid, players[uids[i]].nickname, players[uids[i]].characterId)
  {
    seq(|uids|, i requires 0 <= i < |uids| =>
      SnapshotJson.Row(players[uids[i]].uid, players[uids[i]].nickname, players[uids[i]].characterId))
  }

  function SnapshotText(r: RoomView): string
    requires forall u | u in r.uids :: u in r.players
  {
    SnapshotJson.Snapshot(Rows(r.uids, r.players))
  }

  // ---- Runs of one room ----

  datatype RoomEvent =
    | Enroll(newUid: uint32, nickname: string, characterId: int32)
    | Ready(readyUid: uint32)
    | Input(uid: uint32, raw: seq<byte>)
    | Ticked
    | Begin
    | Finish(winner: uint32)

  ghost function Apply(r: RoomView, e: RoomEvent): RoomView
    requires WellFormed(r)
  {
    match e
    case Enroll(u, n, c) => AddPlayer(r, u, n, c)
    case Ready(u) => MarkReady(r, u)
    case Input(u, raw) => PushInput(r, u, raw)
    case Ticked => Tick(r)
    case Begin => StartGame(r)
    case Finish(w) => StopGame(r, w)
  }

  /** Every section keeps the player table and the seats in order. */
  lemma ApplyKeepsWellFormed(r: RoomView, e: RoomEvent)
    requires WellFormed(r)
    ensures WellFormed(Apply(r, e))
    ensures r.uids <= Apply(r, e).uids && Apply(r, e).id == r.id
    ensures r.casts <= Apply(r, e).casts
    ensures forall u | u in r.players ::
      u in Apply(r, e).players && Apply(r, e).players[u].(ready := false) == r.players[u].(ready := false)
  {
    match e
    case Enroll(u, n, c) =>
      if u !in r.players {
        assert u !in r.uids;
      }
    case _ =>
  }

  ghost function Run(r: RoomView, es: seq<RoomEvent>): (r': RoomView)
    requires WellFormed(r)
    ensures WellFormed(r')
    decreases |es|
  {
    if es == [] then r
    else
      var before := Run(r, es[..|es| - 1]);
      ApplyKeepsWellFormed(before, es[|es| - 1]);
      Apply(before, es[|es| - 1])
  }

  lemma {:induction false} RunConcat(r: RoomView, a: seq<RoomEvent>, b: seq<RoomEvent>)
    requires WellFormed(r)
    ensures Run(r, a + b) == Run(Run(r, a), b)
    decreases |b|
  {
    if b == [] {
      assert a + b == a;
    } else {
      assert (a + b)[..|a + b| - 1] == a + b[..|b| - 1];
      RunConcat(r, a, b[..|b| - 1]);
    }
  }

  lemma {:induction false} RunKeeps(r: RoomView, es: seq<RoomEvent>)
    requires WellFormed(r)
    ensures r.uids <= Run(r, es).uids && r.casts <= Run(r, es).casts && Run(r, es).id == r.id
    ensures forall u | u in r.players ::
      u in Run(r, es).players && Run(r, es).players[u].(ready := false) == r.players[u].(ready := false)
    decreases |es|
  {
    if es != [] {
      RunKeeps(r, es[..|es| - 1]);
      ApplyKeepsWellFormed(Run(r, es[..|es| - 1]), es[|es| - 1]);
    }
  }

  // ---- The frame log as a function of the event trace ----

  /** One game's worth of events: nothing that starts or stops the room. */
  ghost predicate WithinGame(es: seq<RoomEvent>) {
    forall e | e in es :: !e.Begin? && !e.Finish?
  }

  ghost function Ticks(es: seq<RoomEvent>): nat {
    if es == [] then 0
    else Ticks(es[..|es| - 1]) + if es[|es| - 1].Ticked? then 1 else 0
  }

  /** Event `i` offers an input for `seat` that is not older than the frame being
      gathered when it arrives. */
  ghost predicate Offers(r: RoomView, es: seq<RoomEvent>, i: nat, seat: int)
    requires WellFormed(r)
  {
    && i < |es| && es[i].Input? && |es[i].raw| >= 4
    && BigEndian32(es[i].raw) >= Wrap32(Ticks(es[..i]))
    && var players := Run(r, es[..i]).players;
       es[i].uid in players && players[es[i].uid].gameId == seat
  }

  /** Event `i` is the first offer for `seat` since the tick that precedes `end`. */
  ghost predicate FirstOffer(r: RoomView, es: seq<RoomEvent>, end: nat, i: nat, seat: int): (b: bool)
    requires WellFormed(r) && end <= |es|
    ensures b ==> i < end && es[i].Input?
  {
    && i < end && Offers(r, es, i, seat) && Ticks(es[..i]) == Ticks(es[..end])
    && forall j | 0 <= j < i && Offers(r, es, j, seat) :: Ticks(es[..j]) != Ticks(es[..end])
  }

  /** What a frame carries of an input: its fifth and sixth byte, zeros if it is shorter. */
  predicate Carries(raw: seq<byte>, action: seq<byte>) {
    if |raw| < 6 then action == [0, 0] else |action| == 2 && action[0] == raw[4] && action[1] == raw[5]
  }

  lemma ActionCarries(raw: seq<byte>)
    ensures Carries(raw, Action(raw))
  {
  }

  /** A client's input: the number of the frame it is meant for, then two action bytes. */
  function ClientInput(n: uint32, j: byte, b: byte): (raw: seq<byte>)
    ensures |raw| == 6
  {
    F.Bytes32(n) + [j, b]
  }

  lemma ClientInputReads(n: uint32, j: byte, b: byte, action: seq<byte>)
    ensures BigEndian32(ClientInput(n, j, b)) == n
    ensures Carries(ClientInput(n, j, b), action) <==> action == [j, b]
  {
    F.Value32OfBytes(n, [j, b]);
    hide F.Bytes32, BigEndian32;
  }

  /** An input that is in time for an empty seat puts its two action bytes there, and
      changes nothing else. */
  lemma ClientInputStored(r: RoomView, uid: uint32, n: uint32, j: byte, b: byte)
    requires r.phase == Gaming && uid in r.players && n >= r.frame.frameId
    requires r.players[uid].gameId !in r.frame.inputs
    ensures var r' := PushInput(r, uid, ClientInput(n, j, b));
      r' == r.(frame := r.frame.(inputs := r.frame.inputs[r.players[uid].gameId := [j, b]]))
  {
    ClientInputReads(n, j, b, Action(ClientInput(n, j, b)));
    ActionCarries(ClientInput(n, j, b));
    hide BigEndian32, Carries, Action, ClientInput;
  }

  /** `inputs` holds, seat by seat, exactly the action of the first offer before `end`. */
  ghost predicate InputsOfTrace(r: RoomView, es: seq<RoomEvent>, end: nat, inputs: map<int, seq<byte>>)
    requires WellFormed(r) && end <= |es|
  {
    && (forall seat, i: nat | FirstOffer(r, es, end, i, seat) :: seat in inputs && Carries(es[i].raw, inputs[seat]))
    && (forall seat | seat in inputs :: exists i: nat :: FirstOffer(r, es, end, i, seat))
  }

  lemma {:induction false} TicksMonotone(es: seq<RoomEvent>, i: nat, j: nat)
    requires i <= j <= |es|
    ensures Ticks(es[..i]) <= Ticks(es[..j])
    decreases j
  {
    if i < j {
      TicksMonotone(es, i, j - 1);
      assert es[..j][..j - 1] == es[..j - 1];
    }
  }

  /** What an event offers depends only on the events before it. */
  lemma OffersPrefix(r: RoomView, es: seq<RoomEvent>, n: nat, i: nat, seat: int)
    requires WellFormed(r) && i < n <= |es|
    ensures Offers(r, es[..n], i, seat) <==> Offers(r, es, i, seat)
  {
    assert es[..n][..i] == es[..i];
  }

  lemma InputsPrefix(r: RoomView, es: seq<RoomEvent>, n: nat, inputs: map<int, seq<byte>>)
    requires WellFormed(r) && n <= |es|
    requires InputsOfTrace(r, es[..n], n, inputs)
    ensures InputsOfTrace(r, es, n, inputs)
  {
    var p := es[..n];
    assert p[..n] == es[..n];
    forall i: nat, seat | i < n
      ensures FirstOffer(r, p, n, i, seat) <==> FirstOffer(r, es, n, i, seat)
    {
      assert p[..i] == es[..i];
      OffersPrefix(r, es, n, i, seat);
      forall j | 0 <= j < i
        ensures Offers(r, p, j, seat) <==> Offers(r, es, j, seat)
        ensures Ticks(p[..j]) == Ticks(es[..j])
      {
        OffersPrefix(r, es, n, j, seat);
        assert p[..j] == es[..j];
      }
    }
  }

  lemma {:induction false} SomeFirstOffer(r: RoomView, es: seq<RoomEvent>, end: nat, i: nat, seat: int)
    requires WellFormed(r) && i < end <= |es|
    requires Offers(r, es, i, seat) && Ticks(es[..i]) == Ticks(es[..end])
    ensures exists k: nat :: FirstOffer(r, es, end, k, seat)
    decreases i
  {
    if j: nat :| j < i && Offers(r, es, j, seat) && Ticks(es[..j]) == Ticks(es[..end]) {
      SomeFirstOffer(r, es, end, j, seat);
    } else {
      assert FirstOffer(r, es, end, i, seat);
    }
  }

  /** Between ticks, the first offers before one position are those before the next. */
  lemma FirstOfferExtends(r: RoomView, es: seq<RoomEvent>, last: nat, end: nat, i: nat, seat: int)
    requires WellFormed(r) && end == last + 1 == |es| && i < last
    requires Ticks(es) == Ticks(es[..last])
    ensures FirstOffer(r, es, end, i, seat) <==> FirstOffer(r, es, last, i, seat)
  {
    hide Run, Ticks, Offers, WellFormed;
    assert es[..end] == es;
  }

  lemma InputsTick(r: RoomView, es: seq<RoomEvent>, last: nat, end: nat)
    requires WellFormed(r) && end == last + 1 == |es| && es[last].Ticked?
    ensures InputsOfTrace(r, es, end, map[])
  {
    hide Run, WellFormed;
    assert es[..end] == es;
    forall seat, i: nat | FirstOffer(r, es, end, i, seat)
      ensures false
    {
      TicksMonotone(es, i, last);
    }
  }

  lemma InputsUnchanged(r: RoomView, es: seq<RoomEvent>, last: nat, end: nat, inputs: map<int, seq<byte>>)
    requires WellFormed(r) && end == last + 1 == |es|
    requires Ticks(es) == Ticks(es[..last])
    requires InputsOfTrace(r, es, last, inputs)
    requires forall seat | FirstOffer(r, es, end, last, seat) :: seat in inputs && Carries(es[last].raw, inputs[seat])
    ensures InputsOfTrace(r, es, end, inputs)
  {
    hide Run, Ticks, FirstOffer, WellFormed, Action, Carries;
    forall seat, i: nat | i < last
      ensures FirstOffer(r, es, end, i, seat) <==> FirstOffer(r, es, last, i, seat)
    {
      FirstOfferExtends(r, es, last, end, i, seat);
    }
    forall seat, i: nat | FirstOffer(r, es, end, i, seat)
      ensures seat in inputs && Carries(es[i].raw, inputs[seat])
    {
      if i < last {
        assert FirstOffer(r, es, last, i, seat);
      }
    }
  }

  /** An offer for a seat that is already filled is not a first offer. */
  lemma OfferForFilledSeat(r: RoomView, es: seq<RoomEvent>, last: nat, end: nat, inputs: map<int, seq<byte>>, seat: int)
    requires WellFormed(r) && end == last + 1 == |es|
    requires Ticks(es) == Ticks(es[..last])
    requires InputsOfTrace(r, es, last, inputs)
    requires seat in inputs
    ensures !FirstOffer(r, es, end, last, seat)
  {
    hide Run, Ticks, Offers, WellFormed;
    var i: nat :| FirstOffer(r, es, last, i, seat);
    assert es[..end] == es;
  }

  lemma OfferForEmptySeat(r: RoomView, es: seq<RoomEvent>, last: nat, end: nat, inputs: map<int, seq<byte>>, seat: int)
    requires WellFormed(r) && end == last + 1 == |es|
    requires Ticks(es) == Ticks(es[..last])
    requires InputsOfTrace(r, es, last, inputs)
    requires Offers(r, es, last, seat) && seat !in inputs
    ensures FirstOffer(r, es, end, last, seat)
  {
    hide Run, Ticks, Offers, WellFormed;
    assert es[..end] == es;
    forall j: nat | j < last && Offers(r, es, j, seat)
      ensures Ticks(es[..j]) != Ticks(es[..end])
    {
      if Ticks(es[..j]) == Ticks(es[..last]) {
        SomeFirstOffer(r, es, last, j, seat);
      }
    }
  }

  ghost predicate OnlyOfferFor(r: RoomView, es: seq<RoomEvent>, end: nat, i: nat, seat: int)
    requires WellFormed(r) && end <= |es|
  {
    forall g | FirstOffer(r, es, end, i, g) :: g == seat
  }

  lemma InputsTaken(r: RoomView, es: seq<RoomEvent>, last: nat, end: nat, inputs: map<int, seq<byte>>, seat: int)
    requires WellFormed(r) && end == last + 1 == |es|
    requires Ticks(es) == Ticks(es[..last])
    requires InputsOfTrace(r, es, last, inputs)
    requires FirstOffer(r, es, end, last, seat)
    requires OnlyOfferFor(r, es, end, last, seat)
    requires es[last].Input? && seat !in inputs
    ensures InputsOfTrace(r, es, end, inputs[seat := Action(es[last].raw)])
  {
    hide Run, Ticks, FirstOffer, WellFormed, Action, Carries, OnlyOfferFor, InputsOfTrace;
    var inputs' := inputs[seat := Action(es[last].raw)];
    forall g, i: nat | FirstOffer(r, es, end, i, g)
      ensures g in inputs' && Carries(es[i].raw, inputs'[g])
    {
      TakenOffer(r, es, last, end, inputs, seat, g, i);
    }
    forall g | g in inputs'
      ensures exists i: nat :: FirstOffer(r, es, end, i, g)
    {
      if g in inputs {
        TakenEarlier(r, es, last, end, inputs, g);
      }
    }
    InputsFromOffers(r, es, end, inputs');
  }

  lemma InputsFromOffers(r: RoomView, es: seq<RoomEvent>, end: nat, inputs: map<int, seq<byte>>)
    requires WellFormed(r) && end <= |es|
    requires forall g, i: nat | FirstOffer(r, es, end, i, g) :: g in inputs && Carries(es[i].raw, inputs[g])
    requires forall g | g in inputs :: exists i: nat :: FirstOffer(r, es, end, i, g)
    ensures InputsOfTrace(r, es, end, inputs)
  {
    hide FirstOffer, WellFormed, Carries;
  }

  lemma TakenOffer(r: RoomView, es: seq<RoomEvent>, last: nat, end: nat, inputs: map<int, seq<byte>>, seat: int,
    g: int, i: nat)
    requires WellFormed(r) && end == last + 1 == |es|
    requires Ticks(es) == Ticks(es[..last]) && InputsOfTrace(r, es, last, inputs)
    requires OnlyOfferFor(r, es, end, last, seat) && es[last].Input? && seat !in inputs
    requires FirstOffer(r, es, end, i, g)
    ensures var inputs' := inputs[seat := Action(es[last].raw)]; g in inputs' && Carries(es[i].raw, inputs'[g])
  {
    ActionCarries(es[last].raw);
    hide Run, Ticks, FirstOffer, WellFormed, Action, Carries;
    if i < last {
      FirstOfferExtends(r, es, last, end, i, g);
    }
  }

  lemma TakenEarlier(r: RoomView, es: seq<RoomEvent>, last: nat, end: nat, inputs: map<int, seq<byte>>, g: int)
    requires WellFormed(r) && end == last + 1 == |es|
    requires Ticks(es) == Ticks(es[..last]) && InputsOfTrace(r, es, last, inputs) && g in inputs
    ensures exists i: nat :: FirstOffer(r, es, end, i, g)
  {
    hide Run, Ticks, FirstOffer, WellFormed, Action, Carries;
    var i: nat :| FirstOffer(r, es, last, i, g);
    FirstOfferExtends(r, es, last, end, i, g);
  }

  /** A room that has just started: frame 0, nothing gathered. */
  ghost predicate AtStart(r: RoomView) {
    WellFormed(r) && r.phase == Gaming && r.frame.frameId == 0 && r.frame.inputs == map[]
  }

  lemma StartGameIsAtStart(r: RoomView)
    requires WellFormed(r)
    ensures AtStart(StartGame(r)) && StartGame(r).casts == r.casts + [GameStart(r.id)]
  {
  }

  /** One event moves the gathered inputs along with the trace. */
  lemma InputsFollow(r: RoomView, es: seq<RoomEvent>, last: nat, end: nat, before: RoomView)
    requires WellFormed(r) && end == last + 1 == |es| && !es[last].Begin? && !es[last].Finish?
    requires before == Run(r, es[..last]) && before.phase == Gaming
    requires before.frame.frameId == Wrap32(Ticks(es[..last]))
    requires InputsOfTrace(r, es, last, before.frame.inputs)
    ensures InputsOfTrace(r, es, end, Apply(before, es[last]).frame.inputs)
  {
    hide Run, WellFormed, InputsOfTrace;
    var e, inputs := es[last], before.frame.inputs;
    if e.Ticked? {
      InputsTick(r, es, last, end);
    } else if e.Input? && e.uid in before.players && |e.raw| >= 4 && BigEndian32(e.raw) >= before.frame.frameId {
      var seat := before.players[e.uid].gameId;
      if seat in inputs {
        OfferForFilledSeat(r, es, last, end, inputs, seat);
        InputsUnchanged(r, es, last, end, inputs);
      } else {
        OfferForEmptySeat(r, es, last, end, inputs, seat);
        InputsTaken(r, es, last, end, inputs, seat);
      }
    } else {
      InputsUnchanged(r, es, last, end, inputs);
    }
  }

  lemma GameStep(before: RoomView, e: RoomEvent)
    requires WellFormed(before) && before.phase == Gaming && !e.Begin? && !e.Finish?
    ensures var after := Apply(before, e);
      var ticked := if e.Ticked? then 1 else 0;
      && after.phase == Gaming && |after.casts| == |before.casts| + ticked
      && after.frame.frameId == if e.Ticked? then Increment32(before.frame.frameId) else before.frame.frameId
  {
  }

  /** `s` is a room in mid-game whose frame number counts the ticks. */
  ghost predicate Counting(r: RoomView, es: seq<RoomEvent>, s: RoomView) {
    s.phase == Gaming && s.frame.frameId == Wrap32(Ticks(es)) && |s.casts| == |r.casts| + Ticks(es)
  }

  lemma {:induction false} GameCounts(r: RoomView, es: seq<RoomEvent>)
    requires AtStart(r) && WithinGame(es)
    ensures Counting(r, es, Run(r, es))
    decreases |es|
  {
    if es != [] {
      hide WellFormed, Apply;
      var p, e := es[..|es| - 1], es[|es| - 1];
      GameCounts(r, p);
      GameStep(Run(r, p), e);
      IncrementWraps(Ticks(p), Run(r, p).frame.frameId, Ticks(es), Run(r, es).frame.frameId);
    }
  }

  /** The frame being gathered is the trace's, at every point of a game. */
  lemma {:induction false} CurrentFrame(r: RoomView, es: seq<RoomEvent>)
    requires AtStart(r) && WithinGame(es)
    ensures InputsOfTrace(r, es, |es|, Run(r, es).frame.inputs)
    decreases |es|
  {
    if es != [] {
      var last := |es| - 1;
      var before := Run(r, es[..last]);
      assert Run(r, es) == Apply(before, es[last]);
      hide WellFormed, Apply, Run, FirstOffer, Action, Carries, Ticks;
      GameCounts(r, es[..last]);
      CurrentFrame(r, es[..last]);
      InputsPrefix(r, es, last, before.frame.inputs);
      InputsFollow(r, es, last, last + 1, before);
    }
  }

  /** The broadcast made by the tick at position `t`. */
  lemma FrameAt(r: RoomView, es: seq<RoomEvent>, t: nat)
    requires AtStart(r) && WithinGame(es) && t < |es| && es[t].Ticked?
    ensures Ticks(es[..t]) < Ticks(es)
    ensures |Run(r, es).casts| == |r.casts| + Ticks(es)
    ensures Run(r, es).casts[|r.casts| + Ticks(es[..t])]
         == FrameUpdate(Run(r, es[..t]).frame.(playerCount := |Run(r, es[..t]).uids|))
  {
    hide WellFormed, InputsOfTrace;
    var p, q := es[..t + 1], es[t + 1..];
    assert es == p + q && p[..t] == es[..t] && es[..|es|] == es;
    GameCounts(r, es);
    GameCounts(r, es[..t]);
    RunConcat(r, p, q);
    RunKeeps(Run(r, p), q);
    TicksMonotone(es, t + 1, |es|);
    var before := Run(r, es[..t]);
    assert Run(r, p) == Tick(before);
    assert Run(r, p).casts == before.casts + [FrameUpdate(before.frame.(playerCount := |before.uids|))];
  }

  /** `f` is the `k`-th frame of a game, sent by the tick at position `t`. */
  ghost predicate IsFrame(r: RoomView, es: seq<RoomEvent>, t: nat, k: nat, f: Frame)
    requires WellFormed(r) && t <= |es|
  {
    && f.frameId == Wrap32(k)
    && f.playerCount == |Run(r, es[..t]).uids|
    && InputsOfTrace(r, es, t, f.inputs)
  }

  /** `casts`, which grew from `r.casts` during `es`, holds the frame of the tick at `t`
      as its k-th frame, where k ticks precede it. */
  ghost predicate FrameLogged(r: RoomView, es: seq<RoomEvent>, t: nat, casts: seq<Cast>)
    requires WellFormed(r) && t <= |es|
  {
    var k := Ticks(es[..t]);
    && |casts| == |r.casts| + Ticks(es) && r.casts <= casts
    && k < Ticks(es) && casts[|r.casts| + k].FrameUpdate?
    && IsFrame(r, es, t, k, casts[|r.casts| + k].frame)
  }

  /** The frame of the tick at `t` gives every seat the two action bytes of the client input
      that was the first offer for it. */
  ghost predicate CarriesClients(r: RoomView, es: seq<RoomEvent>, t: nat, casts: seq<Cast>)
    requires WellFormed(r) && t <= |es|
  {
    var k := |r.casts| + Ticks(es[..t]);
    k < |casts| && casts[k].FrameUpdate? &&
    forall i: nat, seat, n: uint32, j: byte, b: byte |
      FirstOffer(r, es, t, i, seat) && es[i].raw == ClientInput(n, j, b) ::
      seat in casts[k].frame.inputs && casts[k].frame.inputs[seat] == [j, b]
  }

  lemma LoggedCarriesClients(r: RoomView, es: seq<RoomEvent>, t: nat, casts: seq<Cast>)
    requires WellFormed(r) && t <= |es| && FrameLogged(r, es, t, casts)
    ensures CarriesClients(r, es, t, casts)
  {
    hide WellFormed, FirstOffer, Carries, Run, Ticks, ClientInput;
    var inputs := casts[|r.casts| + Ticks(es[..t])].frame.inputs;
    forall i: nat, seat, n: uint32, j: byte, b: byte |
      FirstOffer(r, es, t, i, seat) && es[i].raw == ClientInput(n, j, b)
      ensures seat in inputs && inputs[seat] == [j, b]
    {
      ClientInputReads(n, j, b, inputs[seat]);
    }
  }

  /** The frame log is a function of the event trace. In any game, for any number of
      players and ticks, the tick at position `t` broadcasts as its k-th frame (k ticks
      precede it) the number k modulo 2^32, the size of the room, and for each seat
      the action bytes of the first offer since the previous tick, if there is one. */
  lemma FrameLogIsTraceFunction(r: RoomView, es: seq<RoomEvent>, t: nat)
    requires AtStart(r) && WithinGame(es) && t < |es| && es[t].Ticked?
    ensures FrameLogged(r, es, t, Run(r, es).casts) && CarriesClients(r, es, t, Run(r, es).casts)
  {
    hide WellFormed, FirstOffer, Action, Carries, Run, Ticks;
    FrameAt(r, es, t);
    GameCounts(r, es[..t]);
    CurrentFrame(r, es[..t]);
    InputsPrefix(r, es, t, Run(r, es[..t]).frame.inputs);
    RunKeeps(r, es);
    LoggedCarriesClients(r, es, t, Run(r, es).casts);
  }

  /** In a two-player room the offers for seat 1 are the first player's and those for
      seat 2 the second player's, and no other seat is ever filled. */
  lemma TwoSeatOffers(r: RoomView, es: seq<RoomEvent>, i: nat, seat: int)
    requires WellFormed(r) && |r.uids| == 2
    requires forall e | e in es :: !e.Enroll?
    ensures Offers(r, es, i, seat) <==>
      && i < |es| && es[i].Input? && |es[i].raw| >= 4
      && BigEndian32(es[i].raw) >= Wrap32(Ticks(es[..i]))
      && 1 <= seat <= 2 && es[i].uid == r.uids[seat - 1]
  {
    if i < |es| {
      RunKeeps(r, es[..i]);
      NobodyJoins(r, es[..i]);
      var s := Run(r, es[..i]);
      assert forall u :: u in s.players ==> u in s.uids;
      assert s.uids == [r.uids[0], r.uids[1]];
    }
  }

  lemma {:induction false} NobodyJoins(r: RoomView, es: seq<RoomEvent>)
    requires WellFormed(r)
    requires forall e | e in es :: !e.Enroll?
    ensures Run(r, es).uids == r.uids
    decreases |es|
  {
    if es != [] {
      NobodyJoins(r, es[..|es| - 1]);
    }
  }

  /** Exactly the inputs that are out of game, unknown, short, stale or late for their
      seat are dropped; a dropped input changes nothing at all. */
  lemma DroppedInputs(r: RoomView, uid: uint32, raw: seq<byte>)
    ensures PushInput(r, uid, raw) == r <==>
      || r.phase != Gaming || uid !in r.players || |raw| < 4
      || BigEndian32(raw) < r.frame.frameId || r.players[uid].gameId in r.frame.inputs
    ensures PushInput(r, uid, raw).casts == r.casts
  {
    if r.phase == Gaming && uid in r.players && |raw| >= 4 && BigEndian32(raw) >= r.frame.frameId {
      var seat := r.players[uid].gameId;
      assert seat !in r.frame.inputs ==> seat in PushInput(r, uid, raw).frame.inputs;
    }
  }

  // ---- Ready flags ----

  predicate IsReady(r: RoomView, u: uint32) {
    u in r.players && r.players[u].ready
  }

  lemma ReadyStep(r: RoomView, e: RoomEvent, u: uint32)
    requires WellFormed(r)
    ensures IsReady(Apply(r, e), u) <==> !e.Finish? && (IsReady(r, u) || (e == Ready(u) && u in r.players))
  {
    hide WellFormed;
  }

  /** The ready request at position `i` of a room's run is one that counts for `u`: they
      were in the room, and no game has ended since. */
  ghost predicate ReadyAt(r: RoomView, es: seq<RoomEvent>, i: nat, u: uint32)
    requires WellFormed(r)
  {
    && i < |es| && es[i] == Ready(u) && u in Run(r, es[..i]).players
    && forall j | i < j < |es| :: !es[j].Finish?
  }

  lemma ReadyAtPrefix(r: RoomView, es: seq<RoomEvent>, i: nat, u: uint32)
    requires WellFormed(r) && es != []
    ensures ReadyAt(r, es, i, u) <==>
      var p, e := es[..|es| - 1], es[|es| - 1];
      !e.Finish? && (ReadyAt(r, p, i, u) || (i == |es| - 1 && e == Ready(u) && u in Run(r, p).players))
  {
    hide Run, WellFormed;
    var p := es[..|es| - 1];
    if i < |es| {
      assert p[..if i < |p| then i else |p|] == es[..i];
    }
  }

  /** A player is ready exactly if they have asked for it, once in the room, since the
      last game ended; so a room starts exactly when that holds of everybody in it. */
  lemma {:induction false} ReadyFlags(r: RoomView, es: seq<RoomEvent>, u: uint32)
    requires WellFormed(r) && !IsReady(r, u)
    ensures IsReady(Run(r, es), u) <==> exists i: nat :: ReadyAt(r, es, i, u)
    decreases |es|
  {
    if es != [] {
      var p, e := es[..|es| - 1], es[|es| - 1];
      ReadyFlags(r, p, u);
      ReadyStep(Run(r, p), e, u);
      forall i: nat
        ensures ReadyAt(r, es, i, u) <==>
          !e.Finish? && (ReadyAt(r, p, i, u) || (i == |p| && e == Ready(u) && u in Run(r, p).players))
      {
        ReadyAtPrefix(r, es, i, u);
      }
      assert Run(r, es) == Apply(Run(r, p), e);
      hide Run, Apply, ReadyAt, WellFormed, IsReady;
      if e == Ready(u) && u in Run(r, p).players {
        assert ReadyAt(r, es, |p|, u);
      }
    }
  }

  // ---- Seats ----

  /** The two player tables agree. */
  ghost predicate Tables(r: RoomView) {
    && NoDuplicates(r.uids)
    && (forall u :: u in r.uids <==> u in r.players)
    && (forall u | u in r.players :: r.players[u].uid == u)
  }

  /** Everybody sits on seat 1 or 2, and nobody shares a seat. */
  ghost predicate SeatsDistinct(r: RoomView) {
    && (forall u | u in r.players :: 1 <= r.players[u].gameId <= 2)
    && (forall u, v | u in r.players && v in r.players && u != v :: r.players[u].gameId != r.players[v].gameId)
  }

  /** Joining checks for a known player but not for a full room: the seats stay distinct
      exactly when the player was already in or fewer than two were. */
  lemma AddPlayerSeats(r: RoomView, uid: uint32, nickname: string, characterId: int32)
    requires Tables(r) && SeatsDistinct(r)
    ensures Tables(AddPlayer(r, uid, nickname, characterId))
    ensures SeatsDistinct(AddPlayer(r, uid, nickname, characterId)) <==> uid in r.players || |r.uids| < 2
  {
    var r' := AddPlayer(r, uid, nickname, characterId);
    if uid !in r.players {
      assert uid !in r.uids;
      if |r.uids| < 2 {
        NewcomerFits(r, uid, nickname, characterId);
      } else {
        assert r.uids[0] in r.uids && r.uids[1] in r.uids && r.uids[0] != r.uids[1];
        assert r'.players[r.uids[0]] == r.players[r.uids[0]] && r'.players[r.uids[1]] == r.players[r.uids[1]];
        assert uid in r'.players && 1 <= r'.players[uid].gameId <= 2;
      }
    }
  }

  lemma NewcomerFits(r: RoomView, uid: uint32, nickname: string, characterId: int32)
    requires Tables(r) && SeatsDistinct(r) && uid !in r.players && |r.uids| < 2
    ensures SeatsDistinct(AddPlayer(r, uid, nickname, characterId))
  {
    if r.uids != [] {
      var first := r.uids[0];
      assert first in r.uids;
      assert forall u | u in r.players :: u in r.uids && u == first;
    } else {
      assert forall u :: u in r.players ==> u in r.uids;
    }
  }

  lemma {:induction false} RemoveFirstElements(uids: seq<uint32>, uid: uint32)
    requires NoDuplicates(uids)
    ensures NoDuplicates(RemoveFirst(uids, uid))
    ensures forall u :: u in RemoveFirst(uids, uid) <==> u in uids && u != uid
  {
    if uids != [] {
      RemoveFirstElements(uids[1..], uid);
      assert uids[0] !in uids[1..];
      assert forall u :: u in uids <==> u == uids[0] || u in uids[1..];
    }
  }

  /** Leaving keeps the tables and the seats, and makes room for a player with the
      seat that was given up. */
  lemma RemovePlayerSeats(r: RoomView, uid: uint32)
    requires Tables(r) && SeatsDistinct(r)
    ensures Tables(RemovePlayer(r, uid)) && SeatsDistinct(RemovePlayer(r, uid))
    ensures uid !in RemovePlayer(r, uid).players
    ensures forall u | u in r.players && u != uid ::
      u in RemovePlayer(r, uid).uids && RemovePlayer(r, uid).players[u] == r.players[u]
    ensures uid in r.players && |r.uids| == 2 ==> AssignGameId(RemovePlayer(r, uid)) == r.players[uid].gameId
  {
    RemoveFirstElements(r.uids, uid);
    if uid in r.players && |r.uids| == 2 {
      var other := if r.uids[0] == uid then r.uids[1] else r.uids[0];
      assert other in r.uids && other != uid;
      assert RemovePlayer(r, uid).uids != [] by {
        assert other in RemovePlayer(r, uid).uids;
      }
      var first := RemovePlayer(r, uid).uids[0];
      assert first in RemovePlayer(r, uid).uids;
    }
  }
}
