/** The room-id counter of `CreateRoom`, whose `fetch_add` and reset are two separate
    atomic steps. */
module RoomIds {
  import opened Types

  const FIRST_ID: int := 1000
  const LAST_ID: int := 1_000_000_001
  const PERIOD: int := LAST_ID - FIRST_ID + 1

  /** The counter, the draws that owe a reset, and every id drawn so far. */
  datatype Counter = Counter(next: int32, pending: nat, drawn: seq<int32>)

  datatype Step = Draw | Reset

  /** Atomic increment of a 32-bit integer, which wraps. */
  function FetchAdd(c: int32): int32 {
    if c == 0x7FFF_FFFF then -0x8000_0000 else c + 1
  }

  predicate Possible(c: Counter, s: Step) {
    s.Reset? ==> c.pending > 0
  }

  function Next(c: Counter, s: Step): Counter
    requires Possible(c, s)
  {
    match s
    case Draw =>
      Counter(FetchAdd(c.next), if c.next > 1_000_000_000 then c.pending + 1 else c.pending, c.drawn + [c.next])
    case Reset => Counter(1000, c.pending - 1, c.drawn)
  }

  ghost predicate Bounded(c: Counter) {
    FIRST_ID <= c.next <= LAST_ID + c.pending
  }

  /** The most resets that can be owed before the counter could overflow. */
  const MAX_PENDING: int := 1_147_483_646

  /** Every state of the run is possible and owes at most `MAX_PENDING` resets. */
  ghost predicate CanRun(c: Counter, ss: seq<Step>)
    decreases |ss|
  {
    c.pending <= MAX_PENDING && (ss == [] || (Possible(c, ss[0]) && CanRun(Next(c, ss[0]), ss[1..])))
  }

  ghost function Run(c: Counter, ss: seq<Step>): Counter
    requires CanRun(c, ss)
    decreases |ss|
  {
    if ss == [] then c else Run(Next(c, ss[0]), ss[1..])
  }

  /** In every interleaving the counter stays between 1000 and 1000000001 plus the
      resets still owed, and so do the ids drawn: no increment ever wraps. */
  lemma {:induction false} CounterBounded(c: Counter, ss: seq<Step>)
    requires Bounded(c) && CanRun(c, ss)
    ensures Bounded(Run(c, ss))
    ensures c.drawn <= Run(c, ss).drawn
    ensures forall i | |c.drawn| <= i < |Run(c, ss).drawn| :: FIRST_ID <= Run(c, ss).drawn[i] <= LAST_ID + MAX_PENDING
    decreases |ss|
  {
    if ss != [] {
      var c1 := Next(c, ss[0]);
      if ss[0].Draw? {
        assert c1.pending <= MAX_PENDING;
        assert c1.next == c.next + 1;
      }
      CounterBounded(c1, ss[1..]);
    }
  }

  /** Without a reset in between, the ids drawn are consecutive, hence distinct. */
  lemma {:induction false} DrawsBetweenResets(c: Counter, ss: seq<Step>)
    requires Bounded(c) && CanRun(c, ss) && Reset !in ss
    ensures var d := Run(c, ss).drawn;
      && |d| == |c.drawn| + |ss| && c.drawn <= d
      && forall i | |c.drawn| <= i < |d| :: d[i] == c.next + (i - |c.drawn|)
    decreases |ss|
  {
    if ss != [] {
      assert ss[0] in ss;
      var c1 := Next(c, ss[0]);
      assert c1.pending <= MAX_PENDING && c1.next == c.next + 1;
      DrawsBetweenResets(c1, ss[1..]);
      assert c1.drawn[|c.drawn|] == c.next;
    }
  }

  // ---- Which ids are drawn, and when one is drawn twice ----

  const START: Counter := Counter(FIRST_ID, 0, [])

  /** The draws since the last reset. */
  ghost function SinceReset(ss: seq<Step>): nat {
    if ss == [] || ss[|ss| - 1].Reset? then 0 else SinceReset(ss[..|ss| - 1]) + 1
  }

  ghost function Draws(ss: seq<Step>): nat {
    if ss == [] then 0 else Draws(ss[..|ss| - 1]) + if ss[|ss| - 1].Draw? then 1 else 0
  }

  lemma {:induction false} RunConcat(c: Counter, a: seq<Step>, b: seq<Step>)
    ensures CanRun(c, a + b) <==> CanRun(c, a) && CanRun(Run(c, a), b)
    ensures CanRun(c, a + b) ==> Run(c, a + b) == Run(Run(c, a), b)
    decreases |a|
  {
    if a == [] {
      assert a + b == b;
    } else {
      assert (a + b)[1..] == a[1..] + b;
      if Possible(c, a[0]) {
        RunConcat(Next(c, a[0]), a[1..], b);
      }
    }
  }

  lemma RunSnoc(c: Counter, ss: seq<Step>)
    requires ss != [] && CanRun(c, ss)
    ensures var p, s := ss[..|ss| - 1], ss[|ss| - 1];
      CanRun(c, p) && Possible(Run(c, p), s) && Run(c, ss) == Next(Run(c, p), s)
  {
    var p, s := ss[..|ss| - 1], ss[|ss| - 1];
    assert ss == p + [s] && [s][1..] == [];
    RunConcat(c, p, [s]);
  }

  /** The counter in closed form, in every interleaving: 1000, or where it began if it was
      never reset, plus the draws since then. */
  lemma {:induction false} CounterClosedForm(c: Counter, ss: seq<Step>)
    requires Bounded(c) && CanRun(c, ss)
    ensures Run(c, ss).next == (if Reset in ss then FIRST_ID else c.next) + SinceReset(ss)
    decreases |ss|
  {
    if ss != [] {
      var p, s := ss[..|ss| - 1], ss[|ss| - 1];
      RunSnoc(c, ss);
      CounterClosedForm(c, p);
      assert ss == p + [s];
      NoWrap(c, ss);
    }
  }

  /** No increment of a run wraps. */
  lemma NoWrap(c: Counter, ss: seq<Step>)
    requires Bounded(c) && ss != [] && CanRun(c, ss)
    ensures var p := ss[..|ss| - 1];
      CanRun(c, p) && (ss[|ss| - 1].Draw? ==> FetchAdd(Run(c, p).next) == Run(c, p).next + 1)
  {
    RunSnoc(c, ss);
    CounterBounded(c, ss);
    CounterBounded(c, ss[..|ss| - 1]);
    EndPending(c, ss);
  }

  lemma {:induction false} EndPending(c: Counter, ss: seq<Step>)
    requires CanRun(c, ss)
    ensures Run(c, ss).pending <= MAX_PENDING
    decreases |ss|
  {
    if ss != [] {
      EndPending(Next(c, ss[0]), ss[1..]);
    }
  }

  /** The id that the draw at position `i` of a run from the start returns. */
  ghost function IdAt(ss: seq<Step>, i: nat): int
    requires CanRun(START, ss) && i < |ss|
  {
    RunConcat(START, ss[..i], ss[i..]);
    assert ss == ss[..i] + ss[i..];
    Run(START, ss[..i]).next
  }

  /** The log of a run lists the ids of its draws in order. */
  lemma {:induction false} DrawnInOrder(ss: seq<Step>, i: nat)
    requires CanRun(START, ss) && i < |ss| && ss[i].Draw?
    ensures Draws(ss[..i]) < |Run(START, ss).drawn| == Draws(ss)
    ensures Run(START, ss).drawn[Draws(ss[..i])] == IdAt(ss, i)
    decreases |ss|
  {
    var n := |ss| - 1;
    RunSnoc(START, ss);
    DrawnCount(ss[..n]);
    if i < n {
      DrawnInOrder(ss[..n], i);
      assert ss[..n][..i] == ss[..i];
    }
  }

  lemma {:induction false} DrawnCount(ss: seq<Step>)
    requires CanRun(START, ss)
    ensures |Run(START, ss).drawn| == Draws(ss)
    decreases |ss|
  {
    if ss != [] {
      RunSnoc(START, ss);
      DrawnCount(ss[..|ss| - 1]);
    }
  }

  /** In every interleaving of any number of calls, two draws return the same id exactly
      when a reset takes effect between them and equally many draws stand between each of
      them and its last reset, or the start. */
  lemma SameIdExactly(ss: seq<Step>, i: nat, j: nat)
    requires CanRun(START, ss) && i < j < |ss| && ss[i].Draw? && ss[j].Draw?
    ensures IdAt(ss, i) == FIRST_ID + SinceReset(ss[..i])
    ensures IdAt(ss, i) == IdAt(ss, j) <==> Reset in ss[i..j] && SinceReset(ss[..i]) == SinceReset(ss[..j])
  {
    PrefixRuns(ss, i);
    PrefixRuns(ss, j);
    CounterClosedForm(START, ss[..i]);
    CounterClosedForm(START, ss[..j]);
    if Reset !in ss[i..j] {
      DrawsAddUp(ss, i, j);
    }
  }

  lemma PrefixRuns(ss: seq<Step>, i: nat)
    requires CanRun(START, ss) && i <= |ss|
    ensures CanRun(START, ss[..i])
  {
    assert ss == ss[..i] + ss[i..];
    RunConcat(START, ss[..i], ss[i..]);
  }

  lemma {:induction false} DrawsAddUp(ss: seq<Step>, i: nat, j: nat)
    requires i <= j <= |ss| && Reset !in ss[i..j]
    ensures SinceReset(ss[..j]) == SinceReset(ss[..i]) + (j - i)
    decreases j
  {
    if i < j {
      assert ss[..j][..j - 1] == ss[..j - 1] && ss[j - 1] == ss[..j][j - 1] && ss[j - 1] in ss[i..j];
      assert forall s | s in ss[i..j - 1] :: s in ss[i..j];
      DrawsAddUp(ss, i, j - 1);
    }
  }

  // ---- What draws alone reach ----

  ghost function DrawsAlone(n: nat): seq<Step> {
    seq(n, _ => Draw)
  }

  /** From the start, `n` overlapping draws before any reset leave the counter at
      1000 + n, with a reset owed for every draw beyond 1000000000. */
  lemma {:induction false} OnlyDraws(n: nat)
    requires FIRST_ID + n <= 0x7FFF_FFFF
    ensures CanRun(START, DrawsAlone(n))
    ensures var c := Run(START, DrawsAlone(n));
      c.next == FIRST_ID + n && c.pending == (if c.next > LAST_ID then c.next - LAST_ID else 0)
  {
    if n > 0 {
      OnlyDraws(n - 1);
      assert DrawsAlone(n) == DrawsAlone(n - 1) + [Draw] && [Draw][1..] == [];
      var c := Run(START, DrawsAlone(n - 1));
      assert CanRun(Next(c, Draw), []);
      assert CanRun(c, [Draw]) && Run(c, [Draw]) == Next(c, Draw);
      RunConcat(START, DrawsAlone(n - 1), [Draw]);
    }
  }

  /** The bound is tight: draws alone reach a state that owes as many resets as allowed,
      and the next draw wraps. */
  lemma OneMoreWraps()
    ensures var ss := DrawsAlone(0x7FFF_FFFF - FIRST_ID);
      CanRun(START, ss) && Run(START, ss).pending == MAX_PENDING
      && Next(Run(START, ss), Draw).pending == MAX_PENDING + 1 && Next(Run(START, ss), Draw).next < 0
  {
    OnlyDraws(0x7FFF_FFFF - FIRST_ID);
  }

  /** Two late resets around a draw, in a run from the start: the last two ids drawn
      are the same. */
  lemma OverlappingResetsRepeatAnId()
    ensures var ss := DrawsAlone(LAST_ID - FIRST_ID) + [Draw, Draw, Reset, Draw, Reset, Draw];
      CanRun(START, ss) && IdAt(ss, |ss| - 3) == IdAt(ss, |ss| - 1) == FIRST_ID
  {
    var n: nat := LAST_ID - FIRST_ID;
    var tail := [Draw, Draw, Reset, Draw, Reset, Draw];
    var ss := DrawsAlone(n) + tail;
    OnlyDraws(n);
    TailRuns(Run(START, DrawsAlone(n)));
    RunConcat(START, DrawsAlone(n), tail);
    hide CanRun, Run;
    IdAfterReset(ss, n + 3);
    IdAfterReset(ss, n + 5);
  }

  lemma IdAfterReset(ss: seq<Step>, k: nat)
    requires CanRun(START, ss) && 0 < k < |ss| && ss[k - 1].Reset?
    ensures IdAt(ss, k) == FIRST_ID
  {
    PrefixRuns(ss, k);
    assert ss[..k][k - 1] == Reset;
    CounterClosedForm(START, ss[..k]);
  }

  lemma TailRuns(c: Counter)
    requires c.next == LAST_ID && c.pending == 0
    ensures CanRun(c, [Draw, Draw, Reset, Draw, Reset, Draw])
  {
    var ss := [Draw, Draw, Reset, Draw, Reset, Draw];
    assert ss[1..] == [Draw, Reset, Draw, Reset, Draw];
    assert ss[1..][1..] == [Reset, Draw, Reset, Draw];
    assert ss[1..][1..][1..] == [Draw, Reset, Draw];
    var c3 := Next(Next(Next(c, Draw), Draw), Reset);
    var t := [Draw, Reset, Draw];
    assert t[1..] == [Reset, Draw] && t[1..][1..] == [Draw] && t[1..][1..][1..] == [];
    assert CanRun(c3, t);
  }

  // ---- Calls that are not interleaved ----

  /** A whole call: the draw and, if it is due, its reset. */
  function WholeCall(next: int32): int32 {
    if next > 1_000_000_000 then 1000 else next + 1
  }

  lemma WholeCallIsDrawThenReset(next: int32, drawn: seq<int32>)
    requires FIRST_ID <= next <= LAST_ID
    ensures var c := Next(Counter(next, 0, drawn), Draw);
      WholeCall(next) == (if c.pending > 0 then Next(c, Reset).next else c.next)
  {
  }

  /** The id drawn by the `n`-th of a sequence of whole calls, the first drawing `first`. */
  function NthId(first: int32, n: nat): (id: int32)
    requires FIRST_ID <= first <= LAST_ID
    ensures FIRST_ID <= id <= LAST_ID
  {
    if n == 0 then first else WholeCall(NthId(first, n - 1))
  }

  /** Whole calls run through the 999999002 ids in a circle. */
  lemma {:induction false} NthIdCircle(first: int32, n: nat)
    requires FIRST_ID <= first <= LAST_ID
    ensures exists k: nat :: NthId(first, n) == first + n - k * PERIOD
  {
    if n == 0 {
      assert NthId(first, 0) == first + 0 - 0 * PERIOD;
    } else {
      NthIdCircle(first, n - 1);
      var k: nat :| NthId(first, n - 1) == first + (n - 1) - k * PERIOD;
      var k' := if NthId(first, n - 1) == LAST_ID then k + 1 else k;
      assert NthId(first, n) == first + n - k' * PERIOD;
    }
  }

  /** Two whole calls draw the same id exactly when they are a multiple of 999999002
      calls apart; so any 999999002 consecutive ids are pairwise distinct. */
  lemma IdsRepeatWithPeriod(first: int32, i: nat, j: nat)
    requires FIRST_ID <= first <= LAST_ID && i < j
    ensures NthId(first, i) == NthId(first, j) <==> (j - i) % PERIOD == 0
    ensures j - i < PERIOD ==> NthId(first, i) != NthId(first, j)
  {
    NthIdCircle(first, i);
    NthIdCircle(first, j);
    var a: nat :| NthId(first, i) == first + i - a * PERIOD;
    var b: nat :| NthId(first, j) == first + j - b * PERIOD;
    var q, r := (j - i) / PERIOD, (j - i) % PERIOD;
    assert j - i == q * PERIOD + r;
    assert NthId(first, j) - NthId(first, i) == r + (q - (b - a)) * PERIOD;
  }
}
