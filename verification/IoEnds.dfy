/** The count of unwritten conversions in flight, kept by several threads at once.

    Setting or clearing the flag of an io_end is not one step: the flag changes first and
    the inode's counter after it.  Each io_end is owned by one thread at a time; steps of
    different io_ends interleave freely, and each step is atomic. */
module IoEnds {

  const UNWRITTEN: bv32 := 0x0001

  /** Where the owner of an io_end stands: between calls, or between the change of the
      flag and the change of the counter.  A call that sets remembers the inode it was
      given, which need not be the io_end's own. */
  datatype Phase = Quiet | Setting(given: nat) | Clearing

  datatype IoEnd = IoEnd(inode: nat, flag: bv32, phase: Phase)

  /** `unwritten` is i_unwritten of each inode; `wakeups` the inodes woken, in order. */
  datatype World = World(ends: seq<IoEnd>, unwritten: seq<int>, wakeups: seq<nat>)

  datatype Step =
    | TestAndSet(e: nat, inode: nat)   // the test of ext4_set_io_unwritten_flag, and the flag
    | Increment(e: nat)                // atomic_inc
    | TestAndClear(e: nat)             // the test of ext4_clear_io_unwritten_flag, and the flag
    | Decrement(e: nat)                // atomic_dec_and_test, and the wakeup

  predicate Marked(end: IoEnd) {
    end.flag & UNWRITTEN != 0
  }

  predicate Shape(w: World) {
    forall e :: 0 <= e < |w.ends| ==>
      && w.ends[e].inode < |w.unwritten|
      && (w.ends[e].phase.Setting? ==> Marked(w.ends[e]) && w.ends[e].phase.given < |w.unwritten|)
      && (w.ends[e].phase.Clearing? ==> !Marked(w.ends[e]))
  }

  /** A step of the owner; one its owner cannot take at this point changes nothing. */
  function Take(w: World, s: Step): (r: World)
    ensures |r.ends| == |w.ends| && |r.unwritten| == |w.unwritten|
  {
    if s.e >= |w.ends| || w.ends[s.e].inode >= |w.unwritten| then w else
    var end := w.ends[s.e];
    match s
    case TestAndSet(e, inode) =>
      if end.phase.Quiet? && !Marked(end) && inode < |w.unwritten|
      then w.(ends := w.ends[e := end.(flag := end.flag | UNWRITTEN, phase := Setting(inode))]) else w
    case Increment(e) =>
      if end.phase.Setting? && end.phase.given < |w.unwritten|
      then w.(ends := w.ends[e := end.(phase := Quiet)],
              unwritten := w.unwritten[end.phase.given := w.unwritten[end.phase.given] + 1]) else w
    case TestAndClear(e) =>
      if end.phase.Quiet? && Marked(end)
      then w.(ends := w.ends[e := end.(flag := end.flag & !UNWRITTEN, phase := Clearing)]) else w
    case Decrement(e) =>
      if end.phase.Clearing?
      then
        var left := w.unwritten[end.inode] - 1;
        w.(ends := w.ends[e := end.(phase := Quiet)], unwritten := w.unwritten[end.inode := left],
           wakeups := if left == 0 then w.wakeups + [end.inode] else w.wakeups) else w
  }

  /** Does an io_end weigh on the counter of an inode?  Its mark does, but for the step in
      which the counter lags behind. */
  predicate Counted(end: IoEnd, inode: nat) {
    end.inode == inode && (end.phase.Clearing? || (end.phase.Quiet? && Marked(end)))
  }

  function Count(ends: seq<IoEnd>, inode: nat): nat {
    if ends == [] then 0
    else Count(ends[..|ends| - 1], inode) + (if Counted(ends[|ends| - 1], inode) then 1 else 0)
  }

  ghost predicate Balanced(w: World) {
    Shape(w) && forall i: nat :: i < |w.unwritten| ==> w.unwritten[i] == Count(w.ends, i)
  }

  lemma {:induction false} CountUpdate(ends: seq<IoEnd>, e: nat, end: IoEnd, inode: nat)
    requires e < |ends|
    ensures Count(ends[e := end], inode) == Count(ends, inode)
      - (if Counted(ends[e], inode) then 1 else 0) + (if Counted(end, inode) then 1 else 0)
  {
    var last := |ends| - 1;
    if e == last {
      assert ends[e := end][..last] == ends[..last];
    } else {
      assert ends[e := end][..last] == ends[..last][e := end];
      CountUpdate(ends[..last], e, end, inode);
    }
  }

  lemma FlagBit(flag: bv32)
    ensures (flag | UNWRITTEN) & UNWRITTEN != 0 && (flag & !UNWRITTEN) & UNWRITTEN == 0
  {
  }

  lemma TakeKeepsShape(w: World, s: Step)
    requires Shape(w)
    ensures Shape(Take(w, s))
  {
    if s.e < |w.ends| {
      FlagBit(w.ends[s.e].flag);
    }
  }

  /** How far one step moves an inode's counter off the io_ends that weigh on it: an
      increment that goes to another inode adds to that one and is missed at its own. */
  function Misdirected(w: World, s: Step, i: nat): int {
    if s.Increment? && s.e < |w.ends| && w.ends[s.e].phase.Setting?
    then (if w.ends[s.e].phase.given == i then 1 else 0) - (if w.ends[s.e].inode == i then 1 else 0)
    else 0
  }

  /** Counter and weight move together but for misdirected increments. */
  lemma TakeMovesBoth(w: World, s: Step, i: nat)
    requires Shape(w) && i < |w.unwritten|
    ensures Take(w, s).unwritten[i] - w.unwritten[i]
         == Count(Take(w, s).ends, i) - Count(w.ends, i) + Misdirected(w, s, i)
  {
    if s.e < |w.ends| {
      var end := Take(w, s).ends[s.e];
      FlagBit(w.ends[s.e].flag);
      CountUpdate(w.ends, s.e, end, i);
      assert Take(w, s).ends == w.ends[s.e := end];
    }
  }

  /** A step keeps each counter equal to the io_ends that weigh on it, exactly unless it
      is the increment of an inode that is not the io_end's own. */
  lemma TakeKeepsBalanceIff(w: World, s: Step)
    requires Balanced(w)
    ensures Balanced(Take(w, s)) <==>
      !(s.Increment? && s.e < |w.ends| && w.ends[s.e].phase.Setting? && w.ends[s.e].phase.given != w.ends[s.e].inode)
  {
    TakeKeepsShape(w, s);
    forall i: nat | i < |w.unwritten|
      ensures Take(w, s).unwritten[i] - Count(Take(w, s).ends, i) == Misdirected(w, s, i)
    {
      TakeMovesBoth(w, s, i);
    }
    if s.Increment? && s.e < |w.ends| && w.ends[s.e].phase.Setting? {
      var own := w.ends[s.e].inode;
      assert Take(w, s).unwritten[own] - Count(Take(w, s).ends, own) == Misdirected(w, s, own);
    }
  }

  function Run(w: World, steps: seq<Step>): (r: World)
    ensures |r.ends| == |w.ends| && |r.unwritten| == |w.unwritten|
  {
    if steps == [] then w else Take(Run(w, steps[..|steps| - 1]), steps[|steps| - 1])
  }

  /** Over a run: how often the inode was given for an io_end of another, less how often
      another was given for one of its own. */
  function Drift(w: World, steps: seq<Step>, i: nat): int {
    if steps == [] then 0
    else
      var before := steps[..|steps| - 1];
      Drift(w, before, i) + Misdirected(Run(w, before), steps[|steps| - 1], i)
  }

  /** Over every interleaving, whatever inodes the calls are given: what a counter is off
      by is what its inode has drifted. */
  lemma {:induction false} RunDrifts(w: World, steps: seq<Step>, i: nat)
    requires Balanced(w) && i < |w.unwritten|
    ensures Shape(Run(w, steps))
    ensures Run(w, steps).unwritten[i] == Count(Run(w, steps).ends, i) + Drift(w, steps, i)
  {
    if steps != [] {
      var before, s := steps[..|steps| - 1], steps[|steps| - 1];
      RunDrifts(w, before, i);
      TakeKeepsShape(Run(w, before), s);
      TakeMovesBoth(Run(w, before), s, i);
    }
  }

  /** So a run ends in balance if and only if no inode has drifted. */
  lemma RunBalancedIff(w: World, steps: seq<Step>)
    requires Balanced(w)
    ensures Balanced(Run(w, steps)) <==> forall i: nat :: i < |w.unwritten| ==> Drift(w, steps, i) == 0
  {
    var r := Run(w, steps);
    RunKeepsShape(w, steps);
    if Balanced(r) {
      forall i: nat | i < |w.unwritten|
        ensures Drift(w, steps, i) == 0
      {
        RunDrifts(w, steps, i);
      }
    } else {
      var i: nat :| i < |r.unwritten| && r.unwritten[i] != Count(r.ends, i);
      RunDrifts(w, steps, i);
    }
  }

  lemma {:induction false} RunKeepsShape(w: World, steps: seq<Step>)
    requires Shape(w)
    ensures Shape(Run(w, steps))
  {
    if steps != [] {
      RunKeepsShape(w, steps[..|steps| - 1]);
      TakeKeepsShape(Run(w, steps[..|steps| - 1]), steps[|steps| - 1]);
    }
  }

  /** Every call between its halves was given the io_end's own inode. */
  predicate Matched(w: World) {
    forall e :: 0 <= e < |w.ends| && w.ends[e].phase.Setting? ==> w.ends[e].phase.given == w.ends[e].inode
  }

  /** What the callers of ext4_set_io_unwritten_flag have to do: give the inode of the
      io_end. */
  predicate OwnInodes(w: World, steps: seq<Step>) {
    forall s :: s in steps && s.TestAndSet? && s.e < |w.ends| ==> s.inode == w.ends[s.e].inode
  }

  lemma {:induction false} MatchedRun(w: World, steps: seq<Step>)
    requires Matched(w) && OwnInodes(w, steps)
    ensures Matched(Run(w, steps))
    ensures forall e :: 0 <= e < |w.ends| ==> Run(w, steps).ends[e].inode == w.ends[e].inode
  {
    if steps != [] {
      MatchedRun(w, steps[..|steps| - 1]);
      assert steps[|steps| - 1] in steps;
    }
  }

  /** With callers that do, nothing drifts. */
  lemma {:induction false} RunKeepsBalance(w: World, steps: seq<Step>)
    requires Balanced(w) && Matched(w) && OwnInodes(w, steps)
    ensures Balanced(Run(w, steps))
  {
    if steps != [] {
      MatchedRun(w, steps[..|steps| - 1]);
      RunKeepsBalance(w, steps[..|steps| - 1]);
      TakeKeepsBalanceIff(Run(w, steps[..|steps| - 1]), steps[|steps| - 1]);
    }
  }

  function MarkedOf(ends: seq<IoEnd>, inode: nat): nat {
    if ends == [] then 0
    else
      var last := ends[|ends| - 1];
      MarkedOf(ends[..|ends| - 1], inode) + (if last.inode == inode && Marked(last) then 1 else 0)
  }

  lemma {:induction false} QuietCount(ends: seq<IoEnd>, inode: nat)
    requires forall e :: 0 <= e < |ends| ==> ends[e].phase.Quiet?
    ensures Count(ends, inode) == MarkedOf(ends, inode)
  {
    if ends != [] {
      QuietCount(ends[..|ends| - 1], inode);
    }
  }

  /** Over every interleaving of calls that are given the io_end's own inode: no counter
      ever falls below zero, and whenever no call is between its two halves, the counter
      of an inode is the number of its io_ends with the flag set. */
  lemma RunCounts(w: World, steps: seq<Step>, inode: nat)
    requires Balanced(w) && inode < |w.unwritten|
    requires Matched(w) && OwnInodes(w, steps)
    ensures var r := Run(w, steps);
      && r.unwritten[inode] >= 0
      && ((forall e :: 0 <= e < |r.ends| ==> r.ends[e].phase.Quiet?) ==> r.unwritten[inode] == MarkedOf(r.ends, inode))
  {
    RunKeepsBalance(w, steps);
    var r := Run(w, steps);
    if forall e :: 0 <= e < |r.ends| ==> r.ends[e].phase.Quiet? {
      QuietCount(r.ends, inode);
    }
  }

  /** A step wakes the waiters of an inode if and only if it takes the inode's counter
      from above zero to zero, and it wakes them once. */
  lemma WakesIff(w: World, s: Step, inode: nat)
    requires Shape(w) && inode < |w.unwritten|
    ensures var w' := Take(w, s);
      && (w'.wakeups == w.wakeups + [inode] <==> w.unwritten[inode] > 0 && w'.unwritten[inode] == 0)
      && (w'.wakeups == w.wakeups || exists i :: w'.wakeups == w.wakeups + [i])
  {
    TakeKeepsShape(w, s);
    if s.e < |w.ends| && s.Decrement? && w.ends[s.e].phase.Clearing? {
      if Take(w, s).wakeups == w.wakeups + [inode] && Take(w, s).wakeups != w.wakeups {
        assert Take(w, s).wakeups[|w.wakeups|] == inode;
      }
    }
  }

  /** No step touches another bit of a flag word, or another io_end. */
  lemma TakeKeepsOthers(w: World, s: Step, e: nat)
    requires e < |w.ends|
    ensures e != s.e ==> Take(w, s).ends[e] == w.ends[e]
    ensures var flag, flag' := w.ends[e].flag, Take(w, s).ends[e].flag;
      flag' == flag || flag' == flag | UNWRITTEN || flag' == flag & !UNWRITTEN
  {
  }

  /** The two calls, uninterrupted. */
  function SetCall(w: World, e: nat, inode: nat): World {
    Take(Take(w, TestAndSet(e, inode)), Increment(e))
  }

  function ClearCall(w: World, e: nat): World {
    Take(Take(w, TestAndClear(e)), Decrement(e))
  }

  /** A whole call that sets keeps the balance if and only if it is given the io_end's own
      inode or finds the flag set already. */
  lemma SetCallKeepsBalanceIff(w: World, e: nat, inode: nat)
    requires Balanced(w) && e < |w.ends| && w.ends[e].phase.Quiet? && inode < |w.unwritten|
    ensures Balanced(SetCall(w, e, inode)) <==> inode == w.ends[e].inode || Marked(w.ends[e])
  {
    TakeKeepsBalanceIff(w, TestAndSet(e, inode));
    TakeKeepsBalanceIff(Take(w, TestAndSet(e, inode)), Increment(e));
  }

  lemma WrongInode(w: World)
    requires w == World([IoEnd(0, 0, Quiet)], [0, 0], [])
    ensures Balanced(w) && !Balanced(SetCall(w, 0, 1))
  {
    assert w.ends[..0] == [];
    assert Count(w.ends, 0) == 0 && Count(w.ends, 1) == 0;
    SetCallKeepsBalanceIff(w, 0, 1);
  }

  /** A call whose test finds nothing to do changes nothing, so repeating one is harmless,
      whatever inode it is given. */
  lemma RepeatedCallsAreHarmless(w: World, e: nat, inode: nat, other: nat)
    requires Shape(w) && e < |w.ends| && w.ends[e].phase.Quiet? && inode < |w.unwritten|
    ensures SetCall(SetCall(w, e, inode), e, other) == SetCall(w, e, inode)
    ensures ClearCall(ClearCall(w, e), e) == ClearCall(w, e)
  {
    AfterSet(w, e, inode);
    AfterClear(w, e);
  }

  lemma AfterSet(w: World, e: nat, inode: nat)
    requires Shape(w) && e < |w.ends| && w.ends[e].phase.Quiet? && inode < |w.unwritten|
    ensures SetCall(w, e, inode).ends[e].phase.Quiet? && Marked(SetCall(w, e, inode).ends[e])
    ensures Shape(SetCall(w, e, inode))
  {
    TakeKeepsShape(w, TestAndSet(e, inode));
    TakeKeepsShape(Take(w, TestAndSet(e, inode)), Increment(e));
    FlagBit(w.ends[e].flag);
  }

  lemma AfterClear(w: World, e: nat)
    requires Shape(w) && e < |w.ends| && w.ends[e].phase.Quiet?
    ensures ClearCall(w, e).ends[e].phase.Quiet? && !Marked(ClearCall(w, e).ends[e])
  {
    FlagBit(w.ends[e].flag);
  }

  /** The two functions as one thread runs them, each half of a call one atomic step. */
  class Inflight {
    var ends: seq<IoEnd>
    var unwritten: seq<int>
    var wakeups: seq<nat>

    ghost function State(): World
      reads this
    {
      World(ends, unwritten, wakeups)
    }

    /** ext4_set_io_unwritten_flag */
    method SetUnwrittenFlag(inode: nat, e: nat)
      requires Shape(State()) && e < |ends| && ends[e].phase.Quiet? && inode < |unwritten|
      modifies this
      ensures State() == SetCall(old(State()), e, inode)
    {
      var end := ends[e];
      if !Marked(end) {
        ghost var half := Take(State(), TestAndSet(e, inode));
        TakeKeepsShape(State(), TestAndSet(e, inode));
        assert half.ends[e].phase == Setting(inode) && half.unwritten == unwritten;
        ends := ends[e := end.(flag := end.flag | UNWRITTEN)];
        unwritten := unwritten[inode := unwritten[inode] + 1];
        assert ends == Take(half, Increment(e)).ends;
      }
    }

    /** ext4_clear_io_unwritten_flag */
    method ClearUnwrittenFlag(e: nat)
      requires Shape(State()) && e < |ends| && ends[e].phase.Quiet?
      modifies this
      ensures State() == ClearCall(old(State()), e)
    {
      var end := ends[e];
      if Marked(end) {
        FlagBit(end.flag);
        var left := unwritten[end.inode] - 1;
        ghost var half := Take(State(), TestAndClear(e));
        assert half.ends[e].phase.Clearing? && half.unwritten == unwritten;
        ends := ends[e := end.(flag := end.flag & !UNWRITTEN)];
        unwritten := unwritten[end.inode := left];
        if left == 0 {
          wakeups := wakeups + [end.inode];
        }
        assert ends == Take(half, Decrement(e)).ends;
      }
    }
  }
}
