/** Which interleavings keep every mapped player in the room they are mapped to. */
module Mappings {
  import opened Types
  import R = RoomModel
  import G = GameModel
  import opened LockAtomic
  import opened Executions
  import Granularity

  /** The table has a room under this id that lists the player. */
  ghost predicate Listed(s: Sys, id: int32, u: uint32)
    requires Sound(s)
  {
    id in s.rooms && u in s.objs[s.rooms[id]].players
  }

  /** Every mapped player is in the room of the table that they are mapped to. */
  ghost predicate MappingsSound(s: Sys)
    requires Sound(s)
  {
    forall u | u in s.uidToRoom :: Listed(s, s.uidToRoom[u], u)
  }

  /** The section maps a player to an id under which the table does not list them: the room
      has gone since it was found, or its id has been given to another one. */
  ghost predicate MapsUnlisted(s: Sys, e: Event)
    requires Sound(s)
  {
    e.CallStep? && e.c < |s.calls| && s.calls[e.c].pc.EnterMap? && !Listed(s, s.calls[e.c].pc.id, s.calls[e.c].pc.u)
  }

  /** The section removes a room to which somebody is still mapped. */
  ghost predicate RemovesMapped(s: Sys, e: Event) {
    e.CallStep? && e.c < |s.calls| && s.calls[e.c].pc.DestroyRemove?
    && exists u :: u in s.uidToRoom && s.uidToRoom[u] == s.calls[e.c].pc.id
  }

  /** What a section does to the mapping. */
  lemma MappingStep(s: Sys, e: Event)
    requires Sound(s) && Enabled(s, e)
    ensures Step(s, e).uidToRoom ==
      if !e.CallStep? then s.uidToRoom
      else match s.calls[e.c].pc
        case EnterMap(u, id, _, _) => s.uidToRoom[u := id]
        case DestroyUnmap(_, uids, _) => if uids == [] then s.uidToRoom else s.uidToRoom - {uids[0]}
        case LeaveUnmap => s.uidToRoom - {s.calls[e.c].uid}
        case _ => s.uidToRoom
  {
    match e
    case CallStep(c) =>
      hide NextPc, R.WellFormed, PcSound, Held, R.StopGame, R.PushInput, R.MarkReady, G.Sends;
    case LoopStep =>
      hide R.WellFormed, PcSound, R.AllReady, R.Tick, R.StartGame, G.Sends;
    case _ =>
      hide R.WellFormed, PcSound, Held, R.AddPlayer;
  }

  /** Rooms are entered in the table under free ids, and leave it only by a removal. */
  lemma TableStep(s: Sys, e: Event)
    requires Sound(s) && Enabled(s, e)
    ensures var t := Step(s, e);
      forall id | id in s.rooms ::
        if e.CallStep? && s.calls[e.c].pc.DestroyRemove? && s.calls[e.c].pc.id == id then id !in t.rooms
        else id in t.rooms && t.rooms[id] == s.rooms[id]
  {
    match e
    case CallStep(c) =>
      EffectShrinksRooms(s, c);
      hide Effect, NextPc, Sound;
    case LoopStep =>
      LoopKeepsTable(s);
      hide Sound, StepLoop;
    case _ =>
      hide R.WellFormed, PcSound, Held, R.AddPlayer;
  }

  lemma PlayersStay(s: Sys, e: Event, o: nat, u: uint32)
    requires Sound(s) && Enabled(s, e) && o < |s.objs| && u in s.objs[o].players
    ensures o < |Step(s, e).objs| && u in Step(s, e).objs[o].players
  {
    StepIsRoomStep(s, e, o);
    var x := RoomStep(s, e, o);
    if x.Some? {
      R.ApplyKeepsWellFormed(s.objs[o], x.value);
    }
    hide Sound, Step, RoomStep, Enabled, R.Apply, R.WellFormed;
  }

  /** Listed players stay listed, unless their room is removed. */
  lemma ListedStays(s: Sys, e: Event, id: int32, u: uint32)
    requires Sound(s) && Enabled(s, e) && Listed(s, id, u)
    requires !(e.CallStep? && s.calls[e.c].pc.DestroyRemove? && s.calls[e.c].pc.id == id)
    ensures Sound(Step(s, e)) && Listed(Step(s, e), id, u)
  {
    StepKeepsSound(s, e);
    TableStep(s, e);
    Granularity.TableOf(s, id);
    hide Step, Sound;
    PlayersStay(s, e, s.rooms[id], u);
  }

  lemma StepKeepsMappings(s: Sys, e: Event)
    requires Sound(s) && Enabled(s, e) && MappingsSound(s)
    ensures Sound(Step(s, e))
    ensures MappingsSound(Step(s, e)) <==> !MapsUnlisted(s, e) && !RemovesMapped(s, e)
  {
    StepKeepsSound(s, e);
    MappingStep(s, e);
    TableStep(s, e);
    if MapsUnlisted(s, e) {
      UnlistedStays(s, e);
    } else {
      hide Step, Sound;
      if RemovesMapped(s, e) {
        var u :| u in s.uidToRoom && s.uidToRoom[u] == s.calls[e.c].pc.id;
        assert !Listed(Step(s, e), s.uidToRoom[u], u);
      } else {
        MappedStay(s, e);
      }
    }
  }

  lemma UnlistedStays(s: Sys, e: Event)
    requires Sound(s) && Enabled(s, e) && MapsUnlisted(s, e) && Sound(Step(s, e))
    ensures !MappingsSound(Step(s, e))
  {
    MappingStep(s, e);
    var pc := s.calls[e.c].pc;
    assert Step(s, e).rooms == s.rooms && Step(s, e).objs == s.objs;
    hide Step, Sound;
    assert pc.u in Step(s, e).uidToRoom && !Listed(Step(s, e), pc.id, pc.u);
  }

  lemma MappedStay(s: Sys, e: Event)
    requires Sound(s) && Enabled(s, e) && MappingsSound(s) && !MapsUnlisted(s, e) && !RemovesMapped(s, e)
    ensures Sound(Step(s, e)) && MappingsSound(Step(s, e))
  {
    StepKeepsSound(s, e);
    MappingStep(s, e);
    var t := Step(s, e);
    hide Step, Sound;
    forall u | u in t.uidToRoom
      ensures Listed(t, t.uidToRoom[u], u)
    {
      assert Listed(s, t.uidToRoom[u], u);
      ListedStays(s, e, t.uidToRoom[u], u);
    }
  }

  /** Every state of the execution has sound mappings if and only if no section of it maps a
      player to an id under which the table does not list them, and none removes a room to
      which somebody is still mapped. */
  lemma {:induction false} MappingsSoundExactly(ss: seq<Sys>, es: seq<Event>, n: nat)
    requires FromStart(ss, es) && n <= |es|
    ensures (forall k | 0 <= k <= n :: Sound(ss[k]) && MappingsSound(ss[k])) <==>
      (forall k | 0 <= k < n :: Sound(ss[k]) && !MapsUnlisted(ss[k], es[k]) && !RemovesMapped(ss[k], es[k]))
    decreases n
  {
    hide Sound, Step, Enabled, MapsUnlisted, RemovesMapped, MappingsSound;
    if n == 0 {
      StateSound(ss, es, 0);
      NobodyMapped();
    } else {
      MappingsSoundExactly(ss, es, n - 1);
      NextState(ss, es, n - 1);
      if MappingsSound(ss[n - 1]) {
        StepKeepsMappings(ss[n - 1], es[n - 1]);
      }
    }
  }

  lemma NobodyMapped()
    ensures Sound(Init()) && MappingsSound(Init())
  {
  }

  // ---- Who is mapped at a removal ----

  /** Section `q` maps player `u` to `id`. */
  ghost predicate MapsAt(ss: seq<Sys>, es: seq<Event>, q: nat, u: uint32, id: int32)
    requires Execution(ss, es)
  {
    q < |es| && es[q].CallStep? && es[q].c < |ss[q].calls|
    && ss[q].calls[es[q].c].pc.EnterMap? && ss[q].calls[es[q].c].pc.u == u && ss[q].calls[es[q].c].pc.id == id
  }

  ghost predicate MappedTo(s: Sys, u: uint32, id: int32) {
    u in s.uidToRoom && s.uidToRoom[u] == id
  }

  /** `u` was mapped to `id` at `q` and has been ever since. */
  ghost predicate MappedSince(ss: seq<Sys>, es: seq<Event>, q: nat, k: nat, u: uint32, id: int32)
    requires Execution(ss, es) && k <= |es|
  {
    q < k && MapsAt(ss, es, q, u, id) && forall j | q < j <= k :: MappedTo(ss[j], u, id)
  }

  lemma {:induction false} WhoMapped(ss: seq<Sys>, es: seq<Event>, k: nat, u: uint32, id: int32) returns (q: nat)
    requires FromStart(ss, es) && k <= |es| && MappedTo(ss[k], u, id)
    ensures MappedSince(ss, es, q, k, u, id)
    decreases k
  {
    hide Sound, Step, Enabled;
    q := k - 1;
    NextState(ss, es, q);
    MappingStep(ss[q], es[q]);
    if MappedTo(ss[q], u, id) && !MapsAt(ss, es, q, u, id) {
      q := WhoMapped(ss, es, k - 1, u, id);
    }
  }

  /** Call `d` looks room `id` up at `p` to destroy it, and by `k` is about to remove it. */
  ghost predicate RemovalOf(ss: seq<Sys>, es: seq<Event>, p: nat, k: nat, d: nat, id: int32)
    requires Execution(ss, es) && k <= |es|
  {
    && p < k && es[p] == CallStep(d) && d < |ss[p].calls|
    && ss[p].calls[d].pc.DestroyLookup? && ss[p].calls[d].pc.id == id && id in ss[p].rooms
    && forall j | p < j <= k :: IsRemoving(ss[j], d, id)
  }

  predicate IsRemoving(s: Sys, d: nat, id: int32) {
    d < |s.calls| &&
    var pc := s.calls[d].pc;
    (pc.DestroyMembers? || pc.DestroyUnmap? || pc.DestroyRemove?) && pc.id == id
  }

  lemma WhereRemovalsComeFrom(s: Sys, e: Event, d: nat, id: int32)
    requires Sound(s) && Enabled(s, e) && IsRemoving(Step(s, e), d, id) && !IsRemoving(s, d, id)
    ensures e == CallStep(d) && s.calls[d].pc.DestroyLookup? && s.calls[d].pc.id == id && id in s.rooms
  {
    match e
    case CallStep(c) =>
      EffectKeepsSound(s, c);
      hide Effect;
      if c == d {
        NextRemoving(s, d, id);
      }
      hide NextPc, Sound;
    case LoopStep =>
      LoopKeepsTable(s);
      hide StepLoop, Sound;
      assert false;
    case _ =>
      hide Sound, StepCreate;
      OtherCallsStay(s, e, d);
  }

  lemma NextRemoving(s: Sys, d: nat, id: int32)
    requires Sound(s) && d < |s.calls|
    ensures var pc := NextPc(s, d);
      (pc.DestroyMembers? || pc.DestroyUnmap? || pc.DestroyRemove?) && pc.id == id && !IsRemoving(s, d, id) ==>
        s.calls[d].pc.DestroyLookup? && s.calls[d].pc.id == id && id in s.rooms
  {
    hide R.WellFormed, PcSound, Held, R.SnapshotText, G.OtherMember;
  }

  lemma OtherCallsStay(s: Sys, e: Event, d: nat)
    requires Sound(s) && Enabled(s, e) && !e.CallStep? && !e.LoopStep? && d < |Step(s, e).calls|
    ensures var pc := Step(s, e).calls[d].pc;
      (d < |s.calls| && pc == s.calls[d].pc) || !(pc.DestroyMembers? || pc.DestroyUnmap? || pc.DestroyRemove?)
  {
    hide R.WellFormed, PcSound, Held, R.AddPlayer;
  }

  lemma {:induction false} RemovalBegan(ss: seq<Sys>, es: seq<Event>, k: nat, d: nat, id: int32) returns (p: nat)
    requires FromStart(ss, es) && k <= |es| && IsRemoving(ss[k], d, id)
    ensures RemovalOf(ss, es, p, k, d, id)
    decreases k
  {
    hide Sound, Step, Enabled;
    p := k - 1;
    NextState(ss, es, p);
    if IsRemoving(ss[p], d, id) {
      p := RemovalBegan(ss, es, k - 1, d, id);
    } else {
      WhereRemovalsComeFrom(ss[p], es[p], d, id);
    }
  }

  /** A call that is removing room `id` still has to unmap `u`. */
  ghost predicate WillUnmap(s: Sys, d: nat, u: uint32) {
    d < |s.calls| &&
    var pc := s.calls[d].pc;
    if pc.DestroyMembers? then pc.o < |s.objs| && u in s.objs[pc.o].players
    else pc.DestroyUnmap? && u in pc.uids
  }

  /** While a removal goes on, a player mapped all along who was to be unmapped still is. */
  lemma RemovalStep(s: Sys, e: Event, d: nat, id: int32, u: uint32)
    requires Sound(s) && Enabled(s, e) && IsRemoving(s, d, id) && IsRemoving(Step(s, e), d, id)
    requires WillUnmap(s, d, u) && MappedTo(Step(s, e), u, id)
    requires !(e.CallStep? && s.calls[e.c].pc.EnterMap? && s.calls[e.c].pc.u == u)
    ensures WillUnmap(Step(s, e), d, u)
  {
    if s.calls[d].pc.DestroyMembers? {
      Granularity.PcOf(s, d);
      PlayersStay(s, e, s.calls[d].pc.o, u);
    }
    MappingStep(s, e);
    if e == CallStep(d) {
      EffectKeepsSound(s, d);
      if s.calls[d].pc.DestroyMembers? {
        Granularity.PcOf(s, d);
        RoomOf(s, s.calls[d].pc.o);
      }
      hide Effect, Sound;
    } else {
      OtherCallStays(s, e, d);
      hide Step, Sound;
    }
  }

  lemma OtherCallStays(s: Sys, e: Event, d: nat)
    requires Sound(s) && Enabled(s, e) && d < |s.calls| && e != CallStep(d) && !s.calls[d].pc.Reading?
    ensures d < |Step(s, e).calls| && Step(s, e).calls[d] == s.calls[d]
  {
    match e
    case CallStep(c) =>
      EffectKeepsSound(s, c);
      hide Effect, NextPc, Sound;
    case LoopStep =>
      LoopKeepsTable(s);
      hide StepLoop, Sound;
    case _ =>
      hide R.WellFormed, PcSound, Held, R.AddPlayer;
  }

  /** A player mapped before a removal began, and listed then, is unmapped by it before the
      room goes. */
  lemma {:induction false} StillToUnmap(ss: seq<Sys>, es: seq<Event>, q: nat, p: nat, k: nat, d: nat,
    u: uint32, id: int32)
    requires FromStart(ss, es) && k <= |es| && RemovalOf(ss, es, p, k, d, id)
    requires q < p && (forall j | q < j <= k :: MappedTo(ss[j], u, id))
    requires forall j: nat | p < j < k :: !MapsAt(ss, es, j, u, id)
    requires Sound(ss[p]) && Listed(ss[p], id, u)
    ensures WillUnmap(ss[k], d, u)
    decreases k
  {
    hide Sound, Step, Enabled;
    if k == p + 1 {
      NextState(ss, es, p);
      FirstOfRemoval(ss[p], d, id, u);
    } else {
      StillToUnmap(ss, es, q, p, k - 1, d, u, id);
      NextState(ss, es, k - 1);
      MapsElsewhere(ss, es, k - 1, u, id);
      RemovalStep(ss[k - 1], es[k - 1], d, id, u);
    }
  }

  lemma MapsElsewhere(ss: seq<Sys>, es: seq<Event>, k: nat, u: uint32, id: int32)
    requires Execution(ss, es) && k < |es| && MappedTo(ss[k + 1], u, id) && !MapsAt(ss, es, k, u, id)
    ensures Sound(ss[k]) && Enabled(ss[k], es[k])
    ensures !(es[k].CallStep? && ss[k].calls[es[k].c].pc.EnterMap? && ss[k].calls[es[k].c].pc.u == u)
  {
    NextState(ss, es, k);
    MappingStep(ss[k], es[k]);
    hide Sound, Step;
  }

  lemma FirstOfRemoval(s: Sys, d: nat, id: int32, u: uint32)
    requires Sound(s) && d < |s.calls| && s.calls[d].pc.DestroyLookup? && s.calls[d].pc.id == id && Listed(s, id, u)
    ensures WillUnmap(Step(s, CallStep(d)), d, u)
  {
    EffectOnTables(s, d);
    hide Effect, R.WellFormed, Held;
  }

  /** In an execution whose mappings have been sound so far, a room is removed with a player
      still mapped to it only if that player's mapping took effect while the very call that
      removes the room was destroying it. */
  lemma MappedDuringRemoval(ss: seq<Sys>, es: seq<Event>, k: nat, u: uint32)
    requires FromStart(ss, es) && k < |es| && (forall j | 0 <= j <= k :: Sound(ss[j]) && MappingsSound(ss[j]))
    requires es[k].CallStep? && es[k].c < |ss[k].calls| && ss[k].calls[es[k].c].pc.DestroyRemove?
    requires MappedTo(ss[k], u, ss[k].calls[es[k].c].pc.id)
    ensures var d, id := es[k].c, ss[k].calls[es[k].c].pc.id;
      exists p: nat, q: nat :: p < q < k && RemovalOf(ss, es, p, k, d, id) && MapsAt(ss, es, q, u, id)
  {
    hide Sound, Step, Enabled, MapsAt, RemovalOf, MappedSince, MappingsSound, Listed, StepsTo;
    var d, id := es[k].c, ss[k].calls[es[k].c].pc.id;
    var p := RemovalBegan(ss, es, k, d, id);
    var q := WhoMapped(ss, es, k, u, id);
    MappedInTime(ss, es, q, p, k, d, u, id);
  }

  lemma MappedInTime(ss: seq<Sys>, es: seq<Event>, q: nat, p: nat, k: nat, d: nat, u: uint32, id: int32)
    requires FromStart(ss, es) && k < |es| && (forall j | 0 <= j <= k :: Sound(ss[j]) && MappingsSound(ss[j]))
    requires es[k] == CallStep(d) && d < |ss[k].calls| && ss[k].calls[d].pc.DestroyRemove?
    requires RemovalOf(ss, es, p, k, d, id) && MappedSince(ss, es, q, k, u, id)
    ensures exists p: nat, q: nat :: p < q < k && RemovalOf(ss, es, p, k, d, id) && MapsAt(ss, es, q, u, id)
  {
    hide Sound, MapsAt, Execution, MappingsSound, Listed, FromStart;
    AllStates(ss, es);
    if q == p {
      NotBoth(ss, es, p, u, id);
    } else if q < p {
      assert Sound(ss[p]) && MappingsSound(ss[p]) && MappedTo(ss[p], u, id);
      MappedIsListed(ss[p], u, id);
      hide RemovalOf;
      if !(exists j: nat :: p < j < k && MapsAt(ss, es, j, u, id)) {
        StillToUnmap(ss, es, q, p, k, d, u, id);
      }
    }
  }

  lemma MappedIsListed(s: Sys, u: uint32, id: int32)
    requires Sound(s) && MappingsSound(s) && MappedTo(s, u, id)
    ensures Listed(s, id, u)
  {
    hide Sound, Listed;
  }

  lemma NotBoth(ss: seq<Sys>, es: seq<Event>, p: nat, u: uint32, id: int32)
    requires Execution(ss, es) && p < |es| && es[p].CallStep? && es[p].c < |ss[p].calls|
    requires ss[p].calls[es[p].c].pc.DestroyLookup?
    ensures !MapsAt(ss, es, p, u, id)
  {
  }

  /** Every mapping takes effect while the table lists the player under the id, and while no
      call is past looking that id up to destroy it. */
  ghost predicate Guarded(ss: seq<Sys>, es: seq<Event>, n: nat)
    requires Execution(ss, es) && n <= |es|
  {
    forall q: nat, u, id | q < n && MapsAt(ss, es, q, u, id) ::
      Sound(ss[q]) && Listed(ss[q], id, u) && forall d :: !IsRemoving(ss[q], d, id)
  }

  /** So an execution with guarded mappings keeps them sound throughout. */
  lemma {:induction false} GuardedMappingsStaySound(ss: seq<Sys>, es: seq<Event>, n: nat)
    requires FromStart(ss, es) && n <= |es| && Guarded(ss, es, n)
    ensures forall k | 0 <= k <= n :: Sound(ss[k]) && MappingsSound(ss[k])
    decreases n
  {
    hide Sound, Step, Enabled, Listed, MappingsSound;
    if n == 0 {
      StateSound(ss, es, 0);
      NobodyMapped();
    } else {
      GuardedMappingsStaySound(ss, es, n - 1);
      NextState(ss, es, n - 1);
      StepKeepsMappings(ss[n - 1], es[n - 1]);
      assert !MapsUnlisted(ss[n - 1], es[n - 1]) by {
        GuardedListed(ss, es, n, n - 1);
      }
      assert !RemovesMapped(ss[n - 1], es[n - 1]) by {
        GuardedRemoval(ss, es, n, n - 1);
      }
    }
  }

  lemma GuardedListed(ss: seq<Sys>, es: seq<Event>, n: nat, k: nat)
    requires Execution(ss, es) && k < n <= |es| && Guarded(ss, es, n) && Sound(ss[k])
    ensures !MapsUnlisted(ss[k], es[k])
  {
    hide Sound, Listed;
    if es[k].CallStep? && es[k].c < |ss[k].calls| && ss[k].calls[es[k].c].pc.EnterMap? {
      assert MapsAt(ss, es, k, ss[k].calls[es[k].c].pc.u, ss[k].calls[es[k].c].pc.id);
    }
  }

  lemma GuardedRemoval(ss: seq<Sys>, es: seq<Event>, n: nat, k: nat)
    requires FromStart(ss, es) && k < n <= |es| && Guarded(ss, es, n)
    requires forall j | 0 <= j <= k :: Sound(ss[j]) && MappingsSound(ss[j])
    ensures !RemovesMapped(ss[k], es[k])
  {
    hide Sound, Listed, MappingsSound, Guarded;
    if RemovesMapped(ss[k], es[k]) {
      var u :| u in ss[k].uidToRoom && ss[k].uidToRoom[u] == ss[k].calls[es[k].c].pc.id;
      MappedDuringRemoval(ss, es, k, u);
      UnguardedMapping(ss, es, n, k, es[k].c, u, ss[k].calls[es[k].c].pc.id);
    }
  }

  lemma UnguardedMapping(ss: seq<Sys>, es: seq<Event>, n: nat, k: nat, d: nat, u: uint32, id: int32)
    requires Execution(ss, es) && k < n <= |es|
    requires exists p: nat, q: nat :: p < q < k && RemovalOf(ss, es, p, k, d, id) && MapsAt(ss, es, q, u, id)
    ensures !Guarded(ss, es, n)
  {
    hide Sound, Listed, MapsAt;
    var p: nat, q: nat :| p < q < k && RemovalOf(ss, es, p, k, d, id) && MapsAt(ss, es, q, u, id);
    assert IsRemoving(ss[q], d, id);
  }
}
