/** A room's whole life when sections interleave: exactly which schedules make a room start
    after its verdict or announce two verdicts, and that nothing else can go wrong. */
module Verdicts {
  import opened Types
  import R = RoomModel
  import G = GameModel
  import opened LockAtomic
  import opened Executions
  import Granularity

  // ---- What took effect when ----

  ghost predicate Does(ss: seq<Sys>, es: seq<Event>, k: nat, o: nat, e: R.RoomEvent)
    requires Execution(ss, es)
  {
    k < |es| && (NextState(ss, es, k); RoomStep(ss[k], es[k], o) == Some(e))
  }

  /** Section `k` is room `o`'s start. */
  ghost predicate StartsAt(ss: seq<Sys>, es: seq<Event>, k: nat, o: nat)
    requires Execution(ss, es)
  {
    Does(ss, es, k, o, R.Begin)
  }

  /** Section `k` is a call's stop of room `o`. */
  ghost predicate StopsAt(ss: seq<Sys>, es: seq<Event>, k: nat, o: nat)
    requires Execution(ss, es)
  {
    k < |es| && es[k].CallStep? && es[k].c < |ss[k].calls|
    && ss[k].calls[es[k].c].pc.Stopping? && ss[k].calls[es[k].c].pc.o == o
  }

  ghost predicate ReadiesAt(ss: seq<Sys>, es: seq<Event>, k: nat, o: nat, u: uint32)
    requires Execution(ss, es)
  {
    Does(ss, es, k, o, R.Ready(u))
  }

  predicate AboutToStart(l: LoopPc, o: nat) {
    l.WillStart? && l.o == o
  }

  /** The loop's ready check at `k` finds room `o` ready. */
  ghost predicate ChecksAt(ss: seq<Sys>, es: seq<Event>, k: nat, o: nat)
    requires Execution(ss, es)
  {
    && k < |es| && es[k].LoopStep? && ss[k].loop.WillCheckReady? && ss[k].loop.o == o
    && o < |ss[k].objs| && R.AllReady(ss[k].objs[o])
  }

  ghost predicate AboutToStartFrom(ss: seq<Sys>, r: nat, t: nat, o: nat)
    requires t < |ss|
  {
    forall j | r < j <= t :: AboutToStart(ss[j].loop, o)
  }

  lemma StopIsFinish(ss: seq<Sys>, es: seq<Event>, k: nat, o: nat)
    requires Execution(ss, es) && k < |es| && o < |ss[k].objs|
    ensures Sound(ss[k]) && Enabled(ss[k], es[k])
    ensures StopsAt(ss, es, k, o) <==> RoomStep(ss[k], es[k], o).Some? && RoomStep(ss[k], es[k], o).value.Finish?
  {
    NextState(ss, es, k);
    hide Sound;
  }

  // ---- Verdicts and starts among the broadcasts ----

  ghost predicate HasVerdict(casts: seq<R.Cast>) {
    exists i :: 0 <= i < |casts| && casts[i].GameOver?
  }

  /** A start follows a verdict. */
  ghost predicate LateStart(casts: seq<R.Cast>) {
    exists i, j :: 0 <= i < j < |casts| && casts[i].GameOver? && casts[j].GameStart?
  }

  ghost predicate TwoVerdicts(casts: seq<R.Cast>) {
    exists i, j :: 0 <= i < j < |casts| && casts[i].GameOver? && casts[j].GameOver?
  }

  lemma Snoc(casts: seq<R.Cast>, c: R.Cast)
    ensures HasVerdict(casts + [c]) <==> HasVerdict(casts) || c.GameOver?
    ensures LateStart(casts + [c]) <==> LateStart(casts) || (HasVerdict(casts) && c.GameStart?)
    ensures TwoVerdicts(casts + [c]) <==> TwoVerdicts(casts) || (HasVerdict(casts) && c.GameOver?)
  {
    var all := casts + [c];
    assert all[|casts|] == c;
    if i :| 0 <= i < |casts| && casts[i].GameOver? {
      assert all[i] == casts[i];
    }
    if i, j :| 0 <= i < j < |casts| && casts[i].GameOver? && casts[j].GameStart? {
      assert all[i] == casts[i] && all[j] == casts[j];
    }
    if i, j :| 0 <= i < j < |casts| && casts[i].GameOver? && casts[j].GameOver? {
      assert all[i] == casts[i] && all[j] == casts[j];
    }
  }

  lemma AppliedVerdicts(r: R.RoomView, x: Option<R.RoomEvent>)
    requires R.WellFormed(r)
    ensures var casts := Applied(r, x).casts;
      && (HasVerdict(casts) <==> HasVerdict(r.casts) || (x.Some? && x.value.Finish?))
      && (LateStart(casts) <==> LateStart(r.casts) || (HasVerdict(r.casts) && x == Some(R.Begin)))
      && (TwoVerdicts(casts) <==> TwoVerdicts(r.casts) || (HasVerdict(r.casts) && x.Some? && x.value.Finish?))
  {
    AppliedCasts(r, x);
    hide R.WellFormed, R.Apply, Applied, HasVerdict, LateStart, TwoVerdicts;
    Snoc(r.casts, R.FrameUpdate(r.frame.(playerCount := |r.uids|)));
    Snoc(r.casts, R.GameStart(r.id));
    if x.Some? && x.value.Finish? {
      Snoc(r.casts, R.GameOver(r.id, x.value.winner));
    }
    assert r.casts + [] == r.casts;
  }

  /** One section, and what it adds to the broadcasts of `o`. */
  lemma VerdictStep(ss: seq<Sys>, es: seq<Event>, n: nat, o: nat)
    requires Execution(ss, es) && n < |es| && o < |ss[n].objs|
    ensures o < |ss[n + 1].objs|
    ensures var before, after := ss[n].objs[o].casts, ss[n + 1].objs[o].casts;
      && (HasVerdict(after) <==> HasVerdict(before) || StopsAt(ss, es, n, o))
      && (LateStart(after) <==> LateStart(before) || (HasVerdict(before) && StartsAt(ss, es, n, o)))
      && (TwoVerdicts(after) <==> TwoVerdicts(before) || (HasVerdict(before) && StopsAt(ss, es, n, o)))
  {
    NextState(ss, es, n);
    StepIsRoomStep(ss[n], es[n], o);
    StopIsFinish(ss, es, n, o);
    hide Execution, Sound, Step, R.WellFormed, R.Apply, Applied, HasVerdict, LateStart, TwoVerdicts, StopsAt, RoomStep;
    AppliedVerdicts(ss[n].objs[o], RoomStep(ss[n], es[n], o));
  }

  lemma NewRoomVerdicts(ss: seq<Sys>, es: seq<Event>, n: nat, o: nat)
    requires Execution(ss, es) && n < |es| && |ss[n].objs| <= o < |ss[n + 1].objs|
    ensures ss[n + 1].objs[o].casts == []
    ensures !HasVerdict(ss[n + 1].objs[o].casts) && !LateStart(ss[n + 1].objs[o].casts)
    ensures !TwoVerdicts(ss[n + 1].objs[o].casts)
  {
    NextState(ss, es, n);
    hide Execution, Sound, Step, Enabled;
    NewObject(ss[n], es[n], o);
  }

  /** A section of a room needs the room to exist. */
  lemma DoesNeedsObject(ss: seq<Sys>, es: seq<Event>, k: nat, o: nat)
    requires Execution(ss, es) && k < |es|
    requires StopsAt(ss, es, k, o) || StartsAt(ss, es, k, o)
    ensures o < |ss[k].objs|
  {
    NextState(ss, es, k);
    if StopsAt(ss, es, k, o) {
      Granularity.PcOf(ss[k], es[k].c);
    } else {
      assert Held(ss[k].loop)[0] == o;
    }
  }

  /** Room `o` has been stopped before state `n`. */
  ghost predicate StoppedBefore(ss: seq<Sys>, es: seq<Event>, n: nat, o: nat)
    requires Execution(ss, es)
  {
    exists k: nat :: k < n && StopsAt(ss, es, k, o)
  }

  lemma StoppedBeforeNext(ss: seq<Sys>, es: seq<Event>, p: nat, o: nat)
    requires Execution(ss, es)
    ensures StoppedBefore(ss, es, p + 1, o) <==> StoppedBefore(ss, es, p, o) || StopsAt(ss, es, p, o)
  {
    hide Execution, StopsAt;
    if StopsAt(ss, es, p, o) {
      assert p < p + 1;
    }
    if k: nat :| k < p && StopsAt(ss, es, k, o) {
      assert k < p + 1;
    }
  }

  /** A room has a verdict exactly after a stop. */
  lemma {:induction false} VerdictMeansStop(ss: seq<Sys>, es: seq<Event>, n: nat, o: nat)
    requires FromStart(ss, es) && n <= |es| && o < |ss[n].objs|
    ensures HasVerdict(ss[n].objs[o].casts) <==> StoppedBefore(ss, es, n, o)
    decreases n
  {
    assert |ss| == |es| + 1;
    hide Execution, HasVerdict, StopsAt, LateStart, TwoVerdicts, StartsAt, StoppedBefore;
    if n == 0 {
      NoRooms(ss, es, o);
    } else {
      var p := n - 1;
      StoppedBeforeNext(ss, es, p, o);
      if o < |ss[p].objs| {
        VerdictMeansStop(ss, es, p, o);
        VerdictStep(ss, es, p, o);
      } else {
        NewRoomVerdicts(ss, es, p, o);
        NotYetThere(ss, es, p, o);
      }
    }
  }

  lemma NoRooms(ss: seq<Sys>, es: seq<Event>, o: nat)
    requires FromStart(ss, es)
    ensures |ss[0].objs| <= o
  {
  }

  /** No section before a room's making is its own. */
  lemma NotYetThere(ss: seq<Sys>, es: seq<Event>, n: nat, o: nat)
    requires Execution(ss, es) && n < |es| && |ss[n].objs| <= o
    ensures forall k: nat | k <= n :: !StopsAt(ss, es, k, o) && !StartsAt(ss, es, k, o)
    ensures !StoppedBefore(ss, es, n + 1, o) && !StartedLate(ss, es, n + 1, o) && !StoppedAgain(ss, es, n + 1, o)
    ensures !StoppedBefore(ss, es, n, o)
  {
    forall k: nat | k <= n
      ensures !StopsAt(ss, es, k, o) && !StartsAt(ss, es, k, o)
    {
      if StopsAt(ss, es, k, o) || StartsAt(ss, es, k, o) {
        DoesNeedsObject(ss, es, k, o);
        ObjectsStay(ss, es, k, n);
        assert false;
      }
    }
    hide Execution, StopsAt, StartsAt;
  }

  lemma {:induction false} ObjectsStay(ss: seq<Sys>, es: seq<Event>, m: nat, n: nat)
    requires Execution(ss, es) && m <= n <= |es|
    ensures |ss[m].objs| <= |ss[n].objs|
    decreases n
  {
    hide Sound, Step, Enabled;
    if n > m {
      ObjectsStay(ss, es, m, n - 1);
      NextState(ss, es, n - 1);
      hide Execution;
      if |ss[n - 1].objs| > 0 {
        StepIsRoomStep(ss[n - 1], es[n - 1], 0);
      }
    }
  }

  /** Once there, a late start or a second verdict stays. */
  lemma {:induction false} FlawsStay(ss: seq<Sys>, es: seq<Event>, m: nat, n: nat, o: nat)
    requires Execution(ss, es) && m <= n <= |es| && o < |ss[m].objs|
    ensures o < |ss[n].objs|
    ensures LateStart(ss[m].objs[o].casts) ==> LateStart(ss[n].objs[o].casts)
    ensures TwoVerdicts(ss[m].objs[o].casts) ==> TwoVerdicts(ss[n].objs[o].casts)
    ensures HasVerdict(ss[m].objs[o].casts) ==> HasVerdict(ss[n].objs[o].casts)
    decreases n
  {
    if n > m {
      FlawsStay(ss, es, m, n - 1, o);
      VerdictStep(ss, es, n - 1, o);
      hide Execution, HasVerdict, LateStart, TwoVerdicts, StopsAt, StartsAt;
    }
  }

  ghost predicate StartedAfterStop(ss: seq<Sys>, es: seq<Event>, k: nat, t: nat, o: nat)
    requires Execution(ss, es)
  {
    k < t && StopsAt(ss, es, k, o) && StartsAt(ss, es, t, o)
  }

  ghost predicate StoppedTwice(ss: seq<Sys>, es: seq<Event>, k1: nat, k2: nat, o: nat)
    requires Execution(ss, es)
  {
    k1 < k2 && StopsAt(ss, es, k1, o) && StopsAt(ss, es, k2, o)
  }

  ghost predicate StartedLate(ss: seq<Sys>, es: seq<Event>, n: nat, o: nat)
    requires Execution(ss, es)
  {
    exists k: nat, t: nat :: t < n && StartedAfterStop(ss, es, k, t, o)
  }

  ghost predicate StoppedAgain(ss: seq<Sys>, es: seq<Event>, n: nat, o: nat)
    requires Execution(ss, es)
  {
    exists k1: nat, k2: nat :: k2 < n && StoppedTwice(ss, es, k1, k2, o)
  }

  lemma StartedLateNext(ss: seq<Sys>, es: seq<Event>, p: nat, o: nat)
    requires Execution(ss, es)
    ensures StartedLate(ss, es, p + 1, o) <==>
      StartedLate(ss, es, p, o) || (StoppedBefore(ss, es, p, o) && StartsAt(ss, es, p, o))
  {
    hide Execution, StopsAt, StartsAt;
    if StartsAt(ss, es, p, o) {
      if k: nat :| k < p && StopsAt(ss, es, k, o) {
        assert StartedAfterStop(ss, es, k, p, o);
      }
    }
    if k: nat, t: nat :| t < p && StartedAfterStop(ss, es, k, t, o) {
      assert t < p + 1;
    }
    if k: nat, t: nat :| t < p + 1 && StartedAfterStop(ss, es, k, t, o) {
      assert t < p || t == p;
    }
  }

  lemma StoppedAgainNext(ss: seq<Sys>, es: seq<Event>, p: nat, o: nat)
    requires Execution(ss, es)
    ensures StoppedAgain(ss, es, p + 1, o) <==>
      StoppedAgain(ss, es, p, o) || (StoppedBefore(ss, es, p, o) && StopsAt(ss, es, p, o))
  {
    hide Execution, StopsAt;
    if StopsAt(ss, es, p, o) {
      if k: nat :| k < p && StopsAt(ss, es, k, o) {
        assert StoppedTwice(ss, es, k, p, o);
      }
    }
    if k1: nat, k2: nat :| k2 < p && StoppedTwice(ss, es, k1, k2, o) {
      assert k2 < p + 1;
    }
    if k1: nat, k2: nat :| k2 < p + 1 && StoppedTwice(ss, es, k1, k2, o) {
      assert k2 < p || k2 == p;
    }
  }

  /** A start follows a verdict exactly if the room is started after a stop, and there are two
      verdicts exactly if it is stopped twice. */
  lemma {:induction false} FlawsFromSections(ss: seq<Sys>, es: seq<Event>, n: nat, o: nat)
    requires FromStart(ss, es) && n <= |es| && o < |ss[n].objs|
    ensures LateStart(ss[n].objs[o].casts) <==> StartedLate(ss, es, n, o)
    ensures TwoVerdicts(ss[n].objs[o].casts) <==> StoppedAgain(ss, es, n, o)
    decreases n
  {
    hide FromStart, Execution, HasVerdict, StopsAt, LateStart, TwoVerdicts, StartsAt, StoppedBefore, StartedLate,
      StoppedAgain;
    AllStates(ss, es);
    if n == 0 {
      NoRooms(ss, es, o);
    } else {
      var p := n - 1;
      if o < |ss[p].objs| {
        FlawsFromSections(ss, es, p, o);
        VerdictMeansStop(ss, es, p, o);
        VerdictStep(ss, es, p, o);
        StartedLateNext(ss, es, p, o);
        StoppedAgainNext(ss, es, p, o);
      } else {
        NewRoomVerdicts(ss, es, p, o);
        NotYetThere(ss, es, p, o);
      }
    }
  }

  // ---- Starts after a verdict ----

  /** The loop about to start `o` has checked it, and has not moved since. */
  lemma {:induction false} CheckBefore(ss: seq<Sys>, es: seq<Event>, t: nat, o: nat) returns (r: nat)
    requires FromStart(ss, es) && t <= |es| && AboutToStart(ss[t].loop, o)
    ensures r < t && ChecksAt(ss, es, r, o) && AboutToStartFrom(ss, r, t, o)
    decreases t
  {
    hide Sound, StepLoop, StepCall, StepCreate;
    r := t - 1;
    NextState(ss, es, r);
    if es[r].LoopStep? {
      WhereStartsComeFrom(ss[r], o);
    } else {
      if !es[r].TakeSnapshot? {
        LoopStays(ss[r], es[r]);
      }
      hide Step, Enabled;
      r := CheckBefore(ss, es, t - 1, o);
    }
  }

  lemma WhereStartsComeFrom(s: Sys, o: nat)
    requires Sound(s) && AboutToStart(StepLoop(s).loop, o)
    ensures s.loop.WillCheckReady? && s.loop.o == o && o < |s.objs| && R.AllReady(s.objs[o])
  {
    assert Held(s.loop) != [] ==> Held(s.loop)[0] < |s.objs|;
    hide R.WellFormed, PcSound, R.AllReady, R.Tick, R.StartGame, G.Sends;
  }

  lemma LoopStays(s: Sys, e: Event)
    requires Sound(s) && Enabled(s, e) && !e.LoopStep? && !e.TakeSnapshot?
    ensures Step(s, e).loop == s.loop
  {
    match e
    case CallStep(c) =>
      TableShrinks(s, c);
      hide Effect, NextPc, Sound;
    case _ =>
      hide R.WellFormed, PcSound, Held, R.AddPlayer;
  }

  /** A stop takes effect while the loop is past its ready check of the room and has not
      started it yet. */
  ghost predicate StoppedSinceCheck(ss: seq<Sys>, es: seq<Event>, k: nat, t: nat, o: nat)
    requires Execution(ss, es)
  {
    && k < t < |es| && StopsAt(ss, es, k, o) && StartsAt(ss, es, t, o)
    && forall j | k <= j <= t :: AboutToStart(ss[j].loop, o)
  }

  /** After a stop at `k` every member of the room is made ready again, and then the loop's
      ready check at `r` leads to a start. */
  ghost predicate ReadiedSinceStop(ss: seq<Sys>, es: seq<Event>, k: nat, r: nat, t: nat, o: nat)
    requires Execution(ss, es)
  {
    && k < r < t < |es| && StopsAt(ss, es, k, o) && StartsAt(ss, es, t, o)
    && ChecksAt(ss, es, r, o) && AboutToStartFrom(ss, r, t, o)
    && forall u | u in ss[r].objs[o].players :: ReadiedBetween(ss, es, k, r, o, u)
  }

  ghost predicate ReadiedBetween(ss: seq<Sys>, es: seq<Event>, k: nat, r: nat, o: nat, u: uint32)
    requires Execution(ss, es)
  {
    exists q: nat :: k < q < r && ReadiesAt(ss, es, q, o, u)
  }

  /** Whoever is ready some time after a stop has been made ready since. */
  lemma {:induction false} ReadyAfterStop(ss: seq<Sys>, es: seq<Event>, k: nat, r: nat, o: nat, u: uint32)
    requires Execution(ss, es) && k < r <= |es| && o < |ss[k].objs| && StopsAt(ss, es, k, o)
    requires o < |ss[r].objs| && R.IsReady(ss[r].objs[o], u)
    ensures ReadiedBetween(ss, es, k, r, o, u)
    decreases r
  {
    var p := r - 1;
    hide Sound, Step, Enabled, R.IsReady, R.Apply, R.WellFormed;
    FlawsStay(ss, es, k, p, o);
    NextState(ss, es, p);
    StepIsRoomStep(ss[p], es[p], o);
    StopIsFinish(ss, es, p, o);
    var x := RoomStep(ss[p], es[p], o);
    if x.Some? {
      R.ReadyStep(ss[p].objs[o], x.value, u);
    }
    if x == Some(R.Ready(u)) {
      assert ReadiesAt(ss, es, p, o, u) && p > k;
    } else {
      hide RoomStep, StopsAt;
      ReadyAfterStop(ss, es, k, p, o, u);
      var q: nat :| k < q < p && ReadiesAt(ss, es, q, o, u);
      assert k < q < r;
    }
  }

  /** In every interleaving, a start of room `o` follows its verdict exactly if some stop of
      it takes effect between the loop's ready check and the start, or all its members are
      made ready again between a stop and the ready check that leads to the start. */
  lemma StartAfterVerdictExactly(ss: seq<Sys>, es: seq<Event>, n: nat, o: nat)
    requires FromStart(ss, es) && n <= |es| && o < |ss[n].objs|
    ensures LateStart(ss[n].objs[o].casts) <==>
      || (exists k: nat, t: nat :: t < n && StoppedSinceCheck(ss, es, k, t, o))
      || (exists k: nat, r: nat, t: nat :: t < n && ReadiedSinceStop(ss, es, k, r, t, o))
  {
    FlawsFromSections(ss, es, n, o);
    hide Execution, LateStart, StoppedAgain, StopsAt, StartsAt, ChecksAt, AboutToStartFrom, ReadiedBetween;
    if k: nat, t: nat :| t < n && StartedAfterStop(ss, es, k, t, o) {
      LateStartIsOneOfTwo(ss, es, k, t, o);
    }
    if k: nat, t: nat :| t < n && StoppedSinceCheck(ss, es, k, t, o) {
      assert StartedAfterStop(ss, es, k, t, o);
    }
    if k: nat, r: nat, t: nat :| t < n && ReadiedSinceStop(ss, es, k, r, t, o) {
      assert StartedAfterStop(ss, es, k, t, o);
    }
  }

  lemma StartNeedsLoop(ss: seq<Sys>, es: seq<Event>, t: nat, o: nat)
    requires Execution(ss, es) && StartsAt(ss, es, t, o)
    ensures t < |es| && AboutToStart(ss[t].loop, o)
  {
  }

  lemma LateStartIsOneOfTwo(ss: seq<Sys>, es: seq<Event>, k: nat, t: nat, o: nat)
    requires FromStart(ss, es) && StartedAfterStop(ss, es, k, t, o)
    ensures StoppedSinceCheck(ss, es, k, t, o) || exists r: nat :: ReadiedSinceStop(ss, es, k, r, t, o)
  {
    StartNeedsLoop(ss, es, t, o);
    DoesNeedsObject(ss, es, k, o);
    var r := CheckBefore(ss, es, t, o);
    if k > r {
      assert StoppedSinceCheck(ss, es, k, t, o);
    } else {
      CheckIsNoStop(ss, es, k, r, o);
      hide Execution, StopsAt, StartsAt;
      forall u | u in ss[r].objs[o].players
        ensures ReadiedBetween(ss, es, k, r, o, u)
      {
        ReadyAfterStop(ss, es, k, r, o, u);
      }
      assert ReadiedSinceStop(ss, es, k, r, t, o);
    }
  }

  lemma CheckIsNoStop(ss: seq<Sys>, es: seq<Event>, k: nat, r: nat, o: nat)
    requires Execution(ss, es) && StopsAt(ss, es, k, o) && ChecksAt(ss, es, r, o)
    ensures k != r
  {
  }

  /** No stop takes effect between the loop's ready check and the start, and nobody is made
      ready in a room that has been stopped. */
  ghost predicate Orderly(ss: seq<Sys>, es: seq<Event>, n: nat, o: nat)
    requires Execution(ss, es) && n <= |es|
  {
    && (forall k: nat | k < n && StopsAt(ss, es, k, o) :: !AboutToStart(ss[k].loop, o))
    && (forall k: nat, q: nat, u | k < q < n && StopsAt(ss, es, k, o) :: !ReadiesAt(ss, es, q, o, u))
  }

  lemma StoppedSinceCheckIsDisorder(ss: seq<Sys>, es: seq<Event>, n: nat, o: nat, k: nat, t: nat)
    requires Execution(ss, es) && t < n <= |es| && StoppedSinceCheck(ss, es, k, t, o)
    ensures !Orderly(ss, es, n, o)
  {
  }

  lemma ReadiedSinceStopIsDisorder(ss: seq<Sys>, es: seq<Event>, n: nat, o: nat, k: nat, r: nat, t: nat)
    requires Execution(ss, es) && t < n <= |es| && ReadiedSinceStop(ss, es, k, r, t, o)
    ensures !Orderly(ss, es, n, o)
  {
    SomebodyIsThere(ss, es, r, o);
    hide StopsAt, StartsAt, ChecksAt, AboutToStartFrom, ReadiesAt;
    var u :| u in ss[r].objs[o].players;
    assert ReadiedBetween(ss, es, k, r, o, u);
  }

  /** So in an orderly execution no start ever follows a verdict. */
  lemma OrderlyNeverStartsLate(ss: seq<Sys>, es: seq<Event>, n: nat, o: nat)
    requires FromStart(ss, es) && n <= |es| && o < |ss[n].objs| && Orderly(ss, es, n, o)
    ensures !LateStart(ss[n].objs[o].casts)
  {
    StartAfterVerdictExactly(ss, es, n, o);
    hide Orderly, StoppedSinceCheck, ReadiedSinceStop, LateStart;
    if LateStart(ss[n].objs[o].casts) {
      if k: nat, t: nat :| t < n && StoppedSinceCheck(ss, es, k, t, o) {
        StoppedSinceCheckIsDisorder(ss, es, n, o, k, t);
      } else {
        var k: nat, r: nat, t: nat :| t < n && ReadiedSinceStop(ss, es, k, r, t, o);
        ReadiedSinceStopIsDisorder(ss, es, n, o, k, r, t);
      }
    }
  }

  lemma SomebodyIsThere(ss: seq<Sys>, es: seq<Event>, r: nat, o: nat)
    requires Execution(ss, es) && ChecksAt(ss, es, r, o)
    ensures o < |ss[r].objs| && exists u :: u in ss[r].objs[o].players
  {
    RoomOf(ss[r], o);
    assert ss[r].objs[o].uids[0] in ss[r].objs[o].uids;
  }

  // ---- Second verdicts ----

  /** The room that a call has found and is going to stop. */
  function GoingToStop(pc: Pc): Option<nat> {
    match pc
    case Stopping(o, _, _) => Some(o)
    case LeaveCheck(o) => Some(o)
    case LeaveMembers(o) => Some(o)
    case _ => None
  }

  predicate IsGoingToStop(s: Sys, d: nat, o: nat) {
    d < |s.calls| && GoingToStop(s.calls[d].pc) == Some(o)
  }

  predicate IsDestroying(s: Sys, c: nat) {
    c < |s.calls| &&
    var pc := s.calls[c].pc;
    pc.DestroyLookup? || pc.DestroyMembers? || pc.DestroyUnmap? || pc.DestroyRemove?
  }

  /** Call `d` looks its player's room up at `p` and finds `o` in the table. */
  ghost predicate FindsAt(ss: seq<Sys>, es: seq<Event>, p: nat, d: nat, o: nat)
    requires Execution(ss, es)
  {
    && p < |es| && es[p] == CallStep(d) && d < |ss[p].calls|
    && (ss[p].calls[d].pc.OverLookup? || ss[p].calls[d].pc.LeaveLookup?)
    && o in ss[p].rooms.Values && IsGoingToStop(ss[p + 1], d, o)
  }

  /** The call that stops `o` at `k2` found it at `p`, and has been going to stop it since. */
  ghost predicate FoundFor(ss: seq<Sys>, es: seq<Event>, p: nat, k2: nat, d: nat, o: nat)
    requires Execution(ss, es)
  {
    p < k2 < |ss| && FindsAt(ss, es, p, d, o) && forall j | p < j <= k2 :: IsGoingToStop(ss[j], d, o)
  }

  lemma WhereStopsComeFrom(s: Sys, e: Event, d: nat, o: nat)
    requires Sound(s) && Enabled(s, e) && IsGoingToStop(Step(s, e), d, o) && !IsGoingToStop(s, d, o)
    ensures e == CallStep(d) && (s.calls[d].pc.OverLookup? || s.calls[d].pc.LeaveLookup?) && o in s.rooms.Values
  {
    match e
    case CallStep(c) =>
      EffectKeepsCalls(s, c);
      hide Effect;
      if c == d {
        NextGoingToStop(s, d, o);
      }
    case LoopStep =>
      LoopKeepsTable(s);
      hide StepLoop, Sound;
      assert false;
    case _ =>
      hide R.WellFormed, PcSound, Held, R.AddPlayer;
  }

  lemma EffectKeepsCalls(s: Sys, c: nat)
    requires Sound(s) && c < |s.calls|
    ensures Effect(s, c).calls == s.calls
  {
    EffectKeepsSound(s, c);
  }

  lemma NextGoingToStop(s: Sys, d: nat, o: nat)
    requires Sound(s) && d < |s.calls| && GoingToStop(NextPc(s, d)) == Some(o)
    ensures GoingToStop(s.calls[d].pc) == Some(o) || s.calls[d].pc.OverLookup? || s.calls[d].pc.LeaveLookup?
    ensures GoingToStop(s.calls[d].pc) != Some(o) ==> o in s.rooms.Values
  {
    hide R.WellFormed, PcSound, Held, R.SnapshotText, G.OtherMember;
  }

  lemma {:induction false} FoundBefore(ss: seq<Sys>, es: seq<Event>, k: nat, d: nat, o: nat) returns (p: nat)
    requires FromStart(ss, es) && k <= |es| && IsGoingToStop(ss[k], d, o)
    ensures FoundFor(ss, es, p, k, d, o)
    decreases k
  {
    hide Sound, Step, Enabled, GoingToStop;
    p := k - 1;
    NextState(ss, es, p);
    if IsGoingToStop(ss[p], d, o) {
      p := FoundBefore(ss, es, k - 1, d, o);
    } else {
      WhereStopsComeFrom(ss[p], es[p], d, o);
    }
  }

  /** Call `c` is in the course of destroying the room with this id. */
  predicate IsDestroyingId(s: Sys, c: nat, id: int32) {
    IsDestroying(s, c) && s.calls[c].pc.id == id
  }

  /** A stop is followed by the room's destruction: a call that has left it has seen the
      room out of the table. */
  lemma DestroyStep(s: Sys, e: Event, c: nat, o: nat)
    requires Sound(s) && Enabled(s, e) && o < |s.objs| && IsDestroyingId(s, c, s.objs[o].id)
    requires !IsDestroyingId(Step(s, e), c, s.objs[o].id)
    ensures Removed(Step(s, e), o)
  {
    match e
    case CallStep(d) =>
      EffectKeepsCalls(s, d);
      if c == d {
        DestroyEnds(s, c, o);
      } else {
        hide Effect, NextPc, Sound;
        assert false;
      }
    case LoopStep =>
      LoopKeepsTable(s);
      hide StepLoop, Sound;
      assert false;
    case _ =>
      hide R.WellFormed, PcSound, Held, R.AddPlayer;
      assert false;
  }

  lemma DestroyEnds(s: Sys, c: nat, o: nat)
    requires Sound(s) && o < |s.objs| && IsDestroyingId(s, c, s.objs[o].id)
    requires !IsDestroyingId(StepCall(s, c), c, s.objs[o].id)
    ensures Removed(StepCall(s, c), o)
  {
    hide R.WellFormed, PcSound, Held;
  }

  lemma StopBeginsDestroy(ss: seq<Sys>, es: seq<Event>, k: nat, o: nat)
    requires Execution(ss, es) && StopsAt(ss, es, k, o)
    ensures o < |ss[k].objs| && IsDestroyingId(ss[k + 1], es[k].c, ss[k].objs[o].id)
    ensures o < |ss[k + 1].objs| && ss[k + 1].objs[o].id == ss[k].objs[o].id
  {
    NextState(ss, es, k);
    DoesNeedsObject(ss, es, k, o);
    StepIsRoomStep(ss[k], es[k], o);
    EffectKeepsCalls(ss[k], es[k].c);
    hide Effect, Sound;
    IdStays(ss[k].objs[o], RoomStep(ss[k], es[k], o));
  }

  lemma IdStays(r: R.RoomView, x: Option<R.RoomEvent>)
    requires R.WellFormed(r)
    ensures Applied(r, x).id == r.id
  {
    if x.Some? {
      R.ApplyKeepsWellFormed(r, x.value);
    }
    hide R.WellFormed, R.Apply;
  }

  /** From a stop on, its call is still destroying the room, or the room is gone. */
  lemma {:induction false} DestroyingSince(ss: seq<Sys>, es: seq<Event>, k: nat, j: nat, o: nat)
    requires Execution(ss, es) && StopsAt(ss, es, k, o) && k < j <= |es|
    ensures o < |ss[j].objs| && o < |ss[k].objs| && ss[j].objs[o].id == ss[k].objs[o].id
    ensures Removed(ss[j], o) || forall i | k < i <= j :: IsDestroyingId(ss[i], es[k].c, ss[k].objs[o].id)
    decreases j
  {
    hide Sound, Step, Enabled, IsDestroyingId, RoomStep, Applied;
    StopBeginsDestroy(ss, es, k, o);
    if j > k + 1 {
      var p := j - 1;
      DestroyingSince(ss, es, k, p, o);
      NextState(ss, es, p);
      StepIsRoomStep(ss[p], es[p], o);
      IdStays(ss[p].objs[o], RoomStep(ss[p], es[p], o));
      hide Execution, StopsAt;
      if Removed(ss[p], o) {
        RemovedStays(ss[p], es[p], o);
      } else if !IsDestroyingId(ss[j], es[k].c, ss[k].objs[o].id) {
        DestroyStep(ss[p], es[p], es[k].c, o);
      }
    }
  }

  /** Two calls stop room `o`, at `k1` and `k2`, and the second found the room before the
      first had finished destroying it. */
  ghost predicate OverlappingStops(ss: seq<Sys>, es: seq<Event>, k1: nat, k2: nat, o: nat)
    requires Execution(ss, es)
  {
    && k1 < k2 && StopsAt(ss, es, k1, o) && StopsAt(ss, es, k2, o) && es[k1].c != es[k2].c
    && exists p: nat :: FoundFor(ss, es, p, k2, es[k2].c, o) && forall j | k1 < j <= p :: IsDestroying(ss[j], es[k1].c)
  }

  lemma StopNeedsCall(ss: seq<Sys>, es: seq<Event>, k: nat, o: nat)
    requires Execution(ss, es) && StopsAt(ss, es, k, o)
    ensures k < |es| && es[k].CallStep? && IsGoingToStop(ss[k], es[k].c, o) && !IsDestroying(ss[k], es[k].c)
  {
  }

  lemma StoppedTwiceOverlaps(ss: seq<Sys>, es: seq<Event>, k1: nat, k2: nat, o: nat)
    requires FromStart(ss, es) && StoppedTwice(ss, es, k1, k2, o)
    ensures OverlappingStops(ss, es, k1, k2, o)
  {
    StopNeedsCall(ss, es, k1, o);
    StopNeedsCall(ss, es, k2, o);
    StopBeginsDestroy(ss, es, k1, o);
    var c, d := es[k1].c, es[k2].c;
    var p := FoundBefore(ss, es, k2, d, o);
    hide Execution, StopsAt;
    if p > k1 {
      DestroyingSince(ss, es, k1, p, o);
      assert !Removed(ss[p], o);
    }
    assert c != d;
  }

  /** In every interleaving, a room announces two verdicts exactly if two different calls stop
      it and the second found it before the first had finished destroying it. */
  lemma SecondVerdictExactly(ss: seq<Sys>, es: seq<Event>, n: nat, o: nat)
    requires FromStart(ss, es) && n <= |es| && o < |ss[n].objs|
    ensures TwoVerdicts(ss[n].objs[o].casts) <==>
      exists k1: nat, k2: nat :: k2 < n && OverlappingStops(ss, es, k1, k2, o)
  {
    FlawsFromSections(ss, es, n, o);
    hide Execution, TwoVerdicts, StopsAt, StartedLate;
    if k1: nat, k2: nat :| k2 < n && StoppedTwice(ss, es, k1, k2, o) {
      StoppedTwiceOverlaps(ss, es, k1, k2, o);
    }
    if k1: nat, k2: nat :| k2 < n && OverlappingStops(ss, es, k1, k2, o) {
      assert StoppedTwice(ss, es, k1, k2, o);
    }
  }

  // ---- The whole life of a room ----

  /** A game's opening, possibly empty, and then at most one verdict of the room. */
  ghost predicate LegalLife(casts: seq<R.Cast>, id: int32) {
    G.Opening(casts, id) ||
    (casts[|casts| - 1].GameOver? && casts[|casts| - 1].overId == id && G.Opening(casts[..|casts| - 1], id))
  }

  /** A room without a verdict has broadcast its opening; one with a verdict that came once
      and was not followed by a start is idle and has said nothing since. */
  ghost predicate LifeSoFar(r: R.RoomView) {
    && (!HasVerdict(r.casts) ==>
         && G.Opening(r.casts, r.id)
         && (r.phase == R.Idle ==> r.casts == [])
         && (r.phase == R.Gaming ==> r.casts != [] && r.frame.frameId == Wrap32(|r.casts| - 1)))
    && (HasVerdict(r.casts) && !LateStart(r.casts) && !TwoVerdicts(r.casts) ==>
         && r.phase == R.Idle && r.casts != []
         && r.casts[|r.casts| - 1].GameOver? && r.casts[|r.casts| - 1].overId == r.id
         && G.Opening(r.casts[..|r.casts| - 1], r.id))
  }

  lemma LifeTick(r: R.RoomView)
    requires R.WellFormed(r) && LifeSoFar(r)
    ensures LifeSoFar(R.Tick(r))
  {
    var r' := R.Tick(r);
    hide R.WellFormed;
    if r.phase == R.Gaming {
      Snoc(r.casts, r'.casts[|r.casts|]);
      if !HasVerdict(r.casts) {
        IncrementWraps(|r.casts| - 1, r.frame.frameId, |r.casts|, r'.frame.frameId);
      }
    }
    hide HasVerdict, LateStart, TwoVerdicts;
  }

  lemma LifeBegin(r: R.RoomView)
    requires R.WellFormed(r) && LifeSoFar(r) && r.phase == R.Idle
    ensures LifeSoFar(R.StartGame(r))
  {
    Snoc(r.casts, R.GameStart(r.id));
    hide R.WellFormed, HasVerdict, LateStart, TwoVerdicts;
    assert r.casts == [] ==> r.casts + [R.GameStart(r.id)] == [R.GameStart(r.id)];
  }

  lemma LifeFinish(r: R.RoomView, winner: uint32)
    requires R.WellFormed(r) && LifeSoFar(r)
    ensures LifeSoFar(R.StopGame(r, winner))
  {
    var r' := R.StopGame(r, winner);
    Snoc(r.casts, R.GameOver(r.id, winner));
    assert r'.casts[..|r'.casts| - 1] == r.casts;
    hide R.WellFormed, HasVerdict, LateStart, TwoVerdicts, G.Opening;
  }

  lemma LifeStep(r: R.RoomView, x: Option<R.RoomEvent>)
    requires R.WellFormed(r) && LifeSoFar(r) && (x == Some(R.Begin) ==> r.phase == R.Idle)
    ensures LifeSoFar(Applied(r, x))
  {
    if x == Some(R.Ticked) {
      LifeTick(r);
    } else if x == Some(R.Begin) {
      LifeBegin(r);
    } else if x.Some? && x.value.Finish? {
      LifeFinish(r, x.value.winner);
    } else {
      hide R.WellFormed, HasVerdict, LateStart, TwoVerdicts, G.Opening;
    }
  }

  /** The loop has seen room `o` idle and has not left it. */
  predicate SeenIdle(l: LoopPc, o: nat) {
    (l.WillCheckFull? || l.WillCheckReady? || l.WillStart?) && l.o == o
  }

  /** Only the loop starts rooms, one at a time: what it has seen idle still is. */
  lemma IdleStays(s: Sys, e: Event, o: nat)
    requires Sound(s) && Enabled(s, e) && o < |s.objs| && (SeenIdle(s.loop, o) ==> s.objs[o].phase == R.Idle)
    ensures o < |Step(s, e).objs| && (SeenIdle(Step(s, e).loop, o) ==> Step(s, e).objs[o].phase == R.Idle)
  {
    StepIsRoomStep(s, e, o);
    var x := RoomStep(s, e, o);
    PhaseStep(s.objs[o], x);
    if e.LoopStep? {
      LoopSeesIdle(s, o);
    } else if !e.TakeSnapshot? {
      LoopStays(s, e);
      NoBegin(s, e, o);
      hide Step;
    }
    hide Sound, R.WellFormed, R.Apply, Applied, StepLoop, StepCall, StepCreate;
  }

  lemma NoBegin(s: Sys, e: Event, o: nat)
    requires Enabled(s, e) && !e.LoopStep?
    ensures RoomStep(s, e, o) != Some(R.Begin)
  {
  }

  lemma PhaseStep(r: R.RoomView, x: Option<R.RoomEvent>)
    requires R.WellFormed(r)
    ensures x != Some(R.Begin) && r.phase == R.Idle ==> Applied(r, x).phase == R.Idle
  {
    hide R.WellFormed;
  }

  lemma LoopSeesIdle(s: Sys, o: nat)
    requires Sound(s) && o < |s.objs| && (SeenIdle(s.loop, o) ==> s.objs[o].phase == R.Idle)
    ensures SeenIdle(StepLoop(s).loop, o) ==> s.objs[o].phase == R.Idle && RoomStep(s, LoopStep, o) == None
  {
    assert Held(s.loop) != [] ==> Held(s.loop)[0] < |s.objs|;
    hide Sound, R.AllReady, R.Tick, R.StartGame, G.Sends;
  }

  lemma {:induction false} LifeHolds(ss: seq<Sys>, es: seq<Event>, n: nat, o: nat)
    requires FromStart(ss, es) && n <= |es| && o < |ss[n].objs|
    ensures LifeSoFar(ss[n].objs[o]) && (SeenIdle(ss[n].loop, o) ==> ss[n].objs[o].phase == R.Idle)
    decreases n
  {
    hide Sound, Step, Enabled, LifeSoFar;
    if n > 0 {
      var p := n - 1;
      NextState(ss, es, p);
      if o < |ss[p].objs| {
        LifeHolds(ss, es, p, o);
        StepIsRoomStep(ss[p], es[p], o);
        IdleStays(ss[p], es[p], o);
        BeginNeedsIdle(ss[p], es[p], o);
        LifeStep(ss[p].objs[o], RoomStep(ss[p], es[p], o));
      } else {
        NewObject(ss[p], es[p], o);
        Unborn(ss[n].objs[o]);
      }
    }
  }

  lemma BeginNeedsIdle(s: Sys, e: Event, o: nat)
    requires Enabled(s, e)
    ensures RoomStep(s, e, o) == Some(R.Begin) ==> SeenIdle(s.loop, o)
  {
  }

  lemma Unborn(r: R.RoomView)
    requires r.casts == [] && r.phase == R.Idle
    ensures LifeSoFar(r)
  {
  }

  lemma FlawedLife(casts: seq<R.Cast>, id: int32)
    requires LateStart(casts) || TwoVerdicts(casts)
    ensures !LegalLife(casts, id)
  {
    var i, j :| 0 <= i < j < |casts| && casts[i].GameOver? && !casts[j].FrameUpdate?;
    var p := casts[..|casts| - 1];
    assert p[i] == casts[i];
  }

  /** In every interleaving a room's broadcasts are an opening and at most one verdict exactly
      if no start follows a verdict and no second verdict is announced: nothing else can go
      wrong. With StartAfterVerdictExactly and SecondVerdictExactly this says which schedules
      keep the life that request-atomic runs always have. */
  lemma WholeLifeExactly(ss: seq<Sys>, es: seq<Event>, n: nat, o: nat)
    requires FromStart(ss, es) && n <= |es| && o < |ss[n].objs|
    ensures LegalLife(ss[n].objs[o].casts, ss[n].objs[o].id) <==>
      && !(exists k: nat, t: nat :: t < n && StoppedSinceCheck(ss, es, k, t, o))
      && !(exists k: nat, r: nat, t: nat :: t < n && ReadiedSinceStop(ss, es, k, r, t, o))
      && !(exists k1: nat, k2: nat :: k2 < n && OverlappingStops(ss, es, k1, k2, o))
  {
    StartAfterVerdictExactly(ss, es, n, o);
    SecondVerdictExactly(ss, es, n, o);
    LifeHolds(ss, es, n, o);
    var r := ss[n].objs[o];
    hide Execution, StoppedSinceCheck, ReadiedSinceStop, OverlappingStops;
    if LateStart(r.casts) || TwoVerdicts(r.casts) {
      FlawedLife(r.casts, r.id);
    }
    hide LateStart, TwoVerdicts, G.Opening;
  }
}
