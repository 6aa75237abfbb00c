/** What a superblock update answers, for every enumeration of the backup groups and every
    pattern of failures. */
module SuperblockResults {
  import opened Errno
  import opened JournalMonitor
  import opened Superblocks
  import opened SuperblockRuns
  import opened SuperblockJournal
  import opened SuperblockCredits

  /** One copy answers with its first failure; what comes after a bad checksum is not
      reached, and the result is 1 where nothing failed. */
  lemma BackupAnswers(m: Mount, a: CopyAnswers, journalled: bool, g: nat, sb: Superblock)
    requires g < m.Groups()
    ensures BackupCode(m, a, journalled, g, sb)
         == if !m.hasSuper[g] then 0
            else
              FirstOf(a.readErr,
              FirstOf(if journalled then a.accessErr else 0,
              FirstOf(if m.metadataCsum && sb.checksum != m.csum(sb.fields) then 1 else 0,
              FirstOf(if journalled then a.dirtyErr else 0,
              FirstOf(a.syncErr, 1)))))
  {
  }

  /** The copy of group g is met under the handle and counted. */
  ghost predicate Counts(m: Mount, a: Answers, list: nat -> nat, f: Callback, p: Pass, g: nat)
    requires Contract(m, a) && PassOk(m, list, p) && p.exit.Looping?
  {
    && g < m.Groups() && Met(m, a, list, f, p, g).UnderHandle?
    && BackupCode(m, a.copies[g], true, g, p.backups[g]) == 1
  }

  /** The loop stops the handle: it counts two copies in all. */
  ghost predicate Closes(m: Mount, a: Answers, list: nat -> nat, f: Callback, p: Pass)
    requires Contract(m, a) && PassOk(m, list, p) && p.exit.Looping?
  {
    p.handle && if p.counted == 0
                then exists x, y :: x < y && Counts(m, a, list, f, p, x) && Counts(m, a, list, f, p, y)
                else exists x :: Counts(m, a, list, f, p, x)
  }

  predicate CountOk(p: Pass) {
    p.exit.Looping? && p.err == 0 && (p.handle ==> 0 <= p.counted <= 1)
  }

  /** A turn meets one copy and leaves the meetings of the others to the turns to come. */
  lemma TurnCounts(m: Mount, a: Answers, list: nat -> nat, f: Callback, p: Pass, g: nat)
    requires Contract(m, a) && PassOk(m, list, p) && CountOk(p) && p.grp < m.Groups()
    requires Turn(m, a, list, f, p).exit.Looping?
    ensures var q := Turn(m, a, list, f, p);
      && PassOk(m, list, q) && p.grp < q.grp
      && (Counts(m, a, list, f, q, g) <==> g != p.grp && Counts(m, a, list, f, p, g))
  {
    hide BackupCode, BackupMonitor, BackupAfter;
    var q := Turn(m, a, list, f, p);
    RemainingStep(m, a, list, f, p, g);
    if g < m.Groups() {
      TurnContents(m, a, list, f, p, g);
      if g == p.grp {
        Past(list, q, m, g);
        NotMet(m, a, list, f, q, g);
      }
    }
  }

  /** What the group at hand reports, 0 for the primary's. */
  function HereCode(m: Mount, a: Answers, p: Pass): int
    requires Contract(m, a) && p.grp < m.Groups() && |p.backups| == m.Groups()
  {
    if p.grp == m.primaryGroup then 0 else BackupCode(m, a.copies[p.grp], p.handle, p.grp, p.backups[p.grp])
  }

  lemma MetHere(m: Mount, a: Answers, list: nat -> nat, f: Callback, p: Pass)
    requires Contract(m, a) && PassOk(m, list, p) && p.exit.Looping? && p.grp < m.Groups()
    ensures MetCode(m, a, Met(m, a, list, f, p, p.grp), p.grp, p.backups[p.grp]) == HereCode(m, a, p)
    ensures Counts(m, a, list, f, p, p.grp) <==> p.handle && HereCode(m, a, p) == 1
  {
    hide BackupCode;
  }

  /** How a turn ends, by what its copy reports. */
  lemma TurnEnds(m: Mount, a: Answers, list: nat -> nat, f: Callback, p: Pass)
    requires Contract(m, a) && PassOk(m, list, p) && CountOk(p) && p.grp < m.Groups()
    ensures var q, code := Turn(m, a, list, f, p), HereCode(m, a, p);
      if !Forgiven(code) then q.exit.OutJournal? && q.err == code && q.handle == p.handle
      else if p.handle && code == 1 && p.counted == 1 then
        if a.midStopErr != 0 then q.exit.Out? && q.err == a.midStopErr
        else q.exit.Looping? && q.err == 0 && !q.handle
      else
        && q.exit.Looping? && q.err == 0 && q.handle == p.handle
        && (p.handle ==> q.counted == if code == 1 then p.counted + 1 else p.counted)
  {
    CodeRange(m, a, p);
    hide BackupCode, BackupAfter, BackupMonitor;
  }

  lemma CodeRange(m: Mount, a: Answers, p: Pass)
    requires Contract(m, a) && p.grp < m.Groups() && |p.backups| == m.Groups()
    ensures HereCode(m, a, p) <= 1
  {
  }

  /** A turn after which the handle is still there leaves the question open. */
  lemma StillOpen(m: Mount, a: Answers, list: nat -> nat, f: Callback, p: Pass)
    requires Contract(m, a) && PassOk(m, list, p) && CountOk(p) && p.grp < m.Groups()
    requires Turn(m, a, list, f, p).exit.Looping? && Turn(m, a, list, f, p).handle
    ensures var q := Turn(m, a, list, f, p);
      PassOk(m, list, q) && CountOk(q) && (Closes(m, a, list, f, p) <==> Closes(m, a, list, f, q))
  {
    var q := Turn(m, a, list, f, p);
    MetHere(m, a, list, f, p);
    TurnEnds(m, a, list, f, p);
    forall g: nat
      ensures Counts(m, a, list, f, q, g) <==> g != p.grp && Counts(m, a, list, f, p, g)
    {
      TurnCounts(m, a, list, f, p, g);
    }
    hide Counts, Turn;
  }

  /** What the copy of group g reports when the loop meets it. */
  ghost function CodeAt(m: Mount, a: Answers, list: nat -> nat, f: Callback, p: Pass, g: nat): int
    requires Contract(m, a) && PassOk(m, list, p) && p.exit.Looping?
  {
    if g < m.Groups() then MetCode(m, a, Met(m, a, list, f, p, g), g, p.backups[g]) else 0
  }

  /** The loop ends at the copy of group g. */
  ghost predicate FailsAt(m: Mount, a: Answers, list: nat -> nat, f: Callback, p: Pass, g: nat)
    requires Contract(m, a) && PassOk(m, list, p) && p.exit.Looping?
  {
    !Forgiven(CodeAt(m, a, list, f, p, g))
  }

  /** The copies other than the one at hand are left to the turns to come. */
  lemma TurnFails(m: Mount, a: Answers, list: nat -> nat, f: Callback, p: Pass)
    requires Contract(m, a) && PassOk(m, list, p) && CountOk(p) && p.grp < m.Groups()
    requires Turn(m, a, list, f, p).exit.Looping?
    ensures PassOk(m, list, Turn(m, a, list, f, p)) && !FailsAt(m, a, list, f, p, p.grp)
    ensures forall g :: g != p.grp ==> CodeAt(m, a, list, f, Turn(m, a, list, f, p), g) == CodeAt(m, a, list, f, p, g)
    ensures CodeAt(m, a, list, f, Turn(m, a, list, f, p), p.grp) == 0
  {
    var q := Turn(m, a, list, f, p);
    MetHere(m, a, list, f, p);
    TurnEnds(m, a, list, f, p);
    RemainingStep(m, a, list, f, p, p.grp);
    Past(list, q, m, p.grp);
    NotMet(m, a, list, f, q, p.grp);
    forall g: nat | g != p.grp
      ensures CodeAt(m, a, list, f, q, g) == CodeAt(m, a, list, f, p, g)
    {
      if g < m.Groups() {
        TurnContents(m, a, list, f, p, g);
      }
    }
  }

  /** Nothing is met after the last turn. */
  lemma LastTurn(m: Mount, a: Answers, list: nat -> nat, f: Callback, p: Pass)
    requires Contract(m, a) && PassOk(m, list, p) && CountOk(p) && p.grp < m.Groups()
    requires !Turn(m, a, list, f, p).exit.Looping?
    ensures forall g :: g != p.grp ==> CodeAt(m, a, list, f, p, g) == 0 && !Counts(m, a, list, f, p, g)
  {
  }

  /** The loop's result.  A copy that fails in a way that is not forgiven ends it; failing
      that, the stop of the handle does, if the loop comes to it and the stop fails. */
  lemma {:induction false} LoopResult(m: Mount, a: Answers, list: nat -> nat, f: Callback, p: Pass)
    requires Contract(m, a) && PassOk(m, list, p) && CountOk(p)
    ensures var r := Loop(m, a, list, f, p);
      && (r.exit.OutJournal? ==> exists g :: FailsAt(m, a, list, f, p, g) && r.err == CodeAt(m, a, list, f, p, g))
      && (forall g :: FailsAt(m, a, list, f, p, g) ==> r.exit.OutJournal? && r.err == CodeAt(m, a, list, f, p, g))
      && (r.exit.Out? <==> Closes(m, a, list, f, p) && a.midStopErr != 0)
      && (r.exit.Out? ==> r.err == a.midStopErr) && (r.exit.Looping? ==> r.err == 0)
      && (!r.exit.Out? ==> (r.handle <==> p.handle && !Closes(m, a, list, f, p)))
    decreases m.Groups() - p.grp
  {
    if p.grp < m.Groups() {
      var q := Turn(m, a, list, f, p);
      TurnEnds(m, a, list, f, p);
      MetHere(m, a, list, f, p);
      if q.exit.Looping? {
        RemainingStep(m, a, list, f, p, 0);
        LoopResult(m, a, list, f, q);
        TurnFails(m, a, list, f, p);
        if q.handle {
          StillOpen(m, a, list, f, p);
        }
        if g: nat :| FailsAt(m, a, list, f, q, g) {
          assert FailsAt(m, a, list, f, p, g);
        }
      } else {
        LastTurn(m, a, list, f, p);
        assert q.exit.OutJournal? ==> FailsAt(m, a, list, f, p, p.grp);
      }
    }
  }

  // ---- the whole call

  /** What the copy of group g reports in an update that gets as far as its loop. */
  ghost function UpdateCode(m: Mount, a: Answers, list: nat -> nat, f: Callback,
                            backups: seq<Superblock>, n: Monitor, g: nat): int
    requires Contract(m, a) && Increasing(list) && |backups| == m.Groups() && g < m.Groups()
  {
    MetCode(m, a, UpdateMet(m, a, list, f, backups, n, g), g, backups[g])
  }

  /** Two copies are met under the handle and counted. */
  ghost predicate TwoCounted(m: Mount, a: Answers, list: nat -> nat, f: Callback, backups: seq<Superblock>, n: Monitor)
    requires Contract(m, a) && Increasing(list) && |backups| == m.Groups()
  {
    exists x, y :: x < y && Counted(m, a, list, f, backups, n, x) && Counted(m, a, list, f, backups, n, y)
  }

  ghost predicate Counted(m: Mount, a: Answers, list: nat -> nat, f: Callback,
                          backups: seq<Superblock>, n: Monitor, g: nat)
    requires Contract(m, a) && Increasing(list) && |backups| == m.Groups()
  {
    && g < m.Groups() && UpdateMet(m, a, list, f, backups, n, g).UnderHandle?
    && UpdateCode(m, a, list, f, backups, n, g) == 1
  }

  /** The answer of the stop that closes the handle: the one in the loop once two copies
      are counted, the one after it otherwise. */
  ghost function StopAnswer(m: Mount, a: Answers, list: nat -> nat, f: Callback,
                            backups: seq<Superblock>, n: Monitor): int
    requires Contract(m, a) && Increasing(list) && |backups| == m.Groups()
  {
    if TwoCounted(m, a, list, f, backups, n) then a.midStopErr else a.lastStopErr
  }

  /** The result of every call, whatever fails: the first failure of the start and of the
      primary's calls; then the failure of the copy that ends the loop; then the answer of
      the stop that closed the handle, whichever of the two it was. */
  lemma UpdateResult(m: Mount, a: Answers, list: nat -> nat, f: Callback,
                     primary: Superblock, backups: seq<Superblock>, n: Monitor)
    requires Contract(m, a) && Increasing(list) && |backups| == m.Groups()
    ensures var err := Update(m, a, list, f, primary, backups, n).err;
      var early := FirstOf(a.startErr, FirstOf(a.primary.accessErr, FirstOf(a.primary.dirtyErr, a.primary.syncErr)));
      && (early != 0 ==> err == early)
      && (early == 0 ==> forall g: nat :: g < m.Groups() && !Forgiven(UpdateCode(m, a, list, f, backups, n, g)) ==>
            err == UpdateCode(m, a, list, f, backups, n, g))
      && (early == 0 && (forall g: nat :: g < m.Groups() ==> Forgiven(UpdateCode(m, a, list, f, backups, n, g))) ==>
            err == StopAnswer(m, a, list, f, backups, n))
  {
    if a.startErr == 0 && PrimaryCode(a.primary) == 0 {
      var p := Begun(a, backups, n);
      LoopResult(m, a, list, f, p);
      SameCounts(m, a, list, f, backups, n);
      hide Loop, Met, MetCode, BackupCode;
    }
  }

  lemma SameCounts(m: Mount, a: Answers, list: nat -> nat, f: Callback, backups: seq<Superblock>, n: Monitor)
    requires Contract(m, a) && Increasing(list) && |backups| == m.Groups()
    requires a.startErr == 0 && PrimaryCode(a.primary) == 0
    ensures PassOk(m, list, Begun(a, backups, n)) && CountOk(Begun(a, backups, n))
    ensures TwoCounted(m, a, list, f, backups, n) <==> Closes(m, a, list, f, Begun(a, backups, n))
    ensures forall g: nat :: g < m.Groups() ==>
      UpdateCode(m, a, list, f, backups, n, g) == CodeAt(m, a, list, f, Begun(a, backups, n), g)
  {
    forall g: nat
      ensures Counted(m, a, list, f, backups, n, g) <==> Counts(m, a, list, f, Begun(a, backups, n), g)
    {
    }
  }

  /** A result of 0 vouches for the stop as well. */
  lemma ZeroMeansStopped(m: Mount, a: Answers, list: nat -> nat, f: Callback,
                         primary: Superblock, backups: seq<Superblock>, n: Monitor)
    requires Contract(m, a) && Increasing(list) && |backups| == m.Groups()
    requires Update(m, a, list, f, primary, backups, n).err == 0
    ensures StopAnswer(m, a, list, f, backups, n) == 0
  {
    UpdateResult(m, a, list, f, primary, backups, n);
  }

  // ---- when nothing but a stop fails

  predicate AllFine(a: CopyAnswers) {
    a.readErr == a.accessErr == a.dirtyErr == a.syncErr == 0
  }

  lemma FineCode(m: Mount, a: Answers, met: Meeting, g: nat, sb: Superblock)
    requires Contract(m, a) && g < m.Groups() && AllFine(a.copies[g])
    ensures MetCode(m, a, met, g, sb) == if met.Never? || !m.hasSuper[g] then 0 else 1
  {
  }

  /** If no call on the primary or on a copy fails, the result is the answer of one stop:
      the last one where the loop visits at most one copy, the one in the loop otherwise.
      A call in which nothing fails returns 0. */
  lemma FineUpdate(m: Mount, a: Answers, list: nat -> nat, f: Callback,
                   primary: Superblock, backups: seq<Superblock>, n: Monitor)
    requires Contract(m, a) && Increasing(list) && |backups| == m.Groups()
    requires a.startErr == a.primary.accessErr == a.primary.dirtyErr == a.primary.syncErr == 0
    requires forall g :: 0 <= g < m.Groups() ==> AllFine(a.copies[g])
    ensures Update(m, a, list, f, primary, backups, n).err
         == if |Copies(m, list)| <= 1 then a.lastStopErr else a.midStopErr
  {
    UpdateResult(m, a, list, f, primary, backups, n);
    forall g: nat | g < m.Groups()
      ensures Forgiven(UpdateCode(m, a, list, f, backups, n, g))
    {
      FineCode(m, a, UpdateMet(m, a, list, f, backups, n, g), g, backups[g]);
    }
    FineCounts(m, a, list, f, backups, n);
  }

  lemma FineCounts(m: Mount, a: Answers, list: nat -> nat, f: Callback, backups: seq<Superblock>, n: Monitor)
    requires Contract(m, a) && Increasing(list) && |backups| == m.Groups()
    requires a.startErr == 0 && PrimaryCode(a.primary) == 0
    requires forall g :: 0 <= g < m.Groups() ==> AllFine(a.copies[g])
    ensures TwoCounted(m, a, list, f, backups, n) <==> |Copies(m, list)| > 1
  {
    hide BackupCode, BackupAfter, BackupMonitor, Loop, Met;
    if TwoCounted(m, a, list, f, backups, n) {
      var x, y :| x < y && Counted(m, a, list, f, backups, n, x) && Counted(m, a, list, f, backups, n, y);
      CountedIsCopy(m, a, list, f, backups, n, x);
      CountedIsCopy(m, a, list, f, backups, n, y);
      Subset({x, y}, Copies(m, list));
    } else if |Copies(m, list)| > 1 {
      var x := Least(Copies(m, list));
      assert |Copies(m, list) - {x}| == |Copies(m, list)| - 1;
      var y := Least(Copies(m, list) - {x});
      CopyIsCounted(m, a, list, f, backups, n, x);
      CopyIsCounted(m, a, list, f, backups, n, y);
    }
  }

  lemma CountedIsCopy(m: Mount, a: Answers, list: nat -> nat, f: Callback,
                      backups: seq<Superblock>, n: Monitor, g: nat)
    requires Contract(m, a) && Increasing(list) && |backups| == m.Groups()
    requires Counted(m, a, list, f, backups, n, g)
    ensures g in Copies(m, list)
  {
    var p := Begun(a, backups, n);
    if !Visited(list, g) {
      assert !Remaining(list, p, g);
      NotMet(m, a, list, f, p, g);
    } else if g == m.primaryGroup {
      PrimaryNotMet(m, a, list, f, p);
    }
  }

  /** With a handle that is never stopped in the loop every copy is met under it. */
  lemma CopyIsCounted(m: Mount, a: Answers, list: nat -> nat, f: Callback,
                      backups: seq<Superblock>, n: Monitor, g: nat)
    requires Contract(m, a) && Increasing(list) && |backups| == m.Groups()
    requires a.startErr == 0 && PrimaryCode(a.primary) == 0
    requires forall h :: 0 <= h < m.Groups() ==> AllFine(a.copies[h])
    requires !TwoCounted(m, a, list, f, backups, n) && g in Copies(m, list)
    ensures Counted(m, a, list, f, backups, n, g)
  {
    var p := Begun(a, backups, n);
    SameCounts(m, a, list, f, backups, n);
    LoopResult(m, a, list, f, p);
    forall h: nat
      ensures !FailsAt(m, a, list, f, p, h)
    {
      if h < m.Groups() {
        FineCode(m, a, Met(m, a, list, f, p, h), h, backups[h]);
      }
    }
    assert Loop(m, a, list, f, p).exit.Looping?;
    LoopContents(m, a, list, f, p, g);
    assert Remaining(list, p, g);
    MetAfterStop(m, a, list, f, p, g);
    FineCode(m, a, Met(m, a, list, f, p, g), g, backups[g]);
  }

  /** Only a loop that stops the handle meets a copy without it. */
  lemma {:induction false} MetAfterStop(m: Mount, a: Answers, list: nat -> nat, f: Callback, p: Pass, g: nat)
    requires Contract(m, a) && PassOk(m, list, p) && CountOk(p) && p.handle
    ensures Met(m, a, list, f, p, g).AfterStop? ==> Closes(m, a, list, f, p)
    decreases m.Groups() - p.grp
  {
    if p.grp < m.Groups() && p.grp != g && Turn(m, a, list, f, p).exit.Looping? {
      var q := Turn(m, a, list, f, p);
      RemainingStep(m, a, list, f, p, g);
      TurnEnds(m, a, list, f, p);
      if q.handle {
        StillOpen(m, a, list, f, p);
        MetAfterStop(m, a, list, f, q, g);
      } else {
        MetHere(m, a, list, f, p);
      }
    }
  }
}
