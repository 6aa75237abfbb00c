/** When the three credits of a superblock update suffice, and for how many backups. */
module SuperblockCredits {
  import opened Errno
  import opened JournalMonitor
  import opened Superblocks
  import opened SuperblockRuns
  import opened SuperblockJournal

  predicate FitsCredits(s: Monitor) {
    s.Running? && forall t :: t in s.finished ==> WithinCredits(t)
  }

  /** Three copies the loop visits, in that order, not both of the first two bad. */
  ghost predicate Triple(m: Mount, list: nat -> nat, backups: seq<Superblock>, x: nat, y: nat, z: nat)
    requires |backups| == m.Groups()
  {
    && x < y < z && IsCopy(m, list, x) && IsCopy(m, list, y) && IsCopy(m, list, z)
    && !(ChecksumBad(m, backups[x]) && ChecksumBad(m, backups[y]))
  }

  // ---- three such copies can overdraw the handle

  const LATE := CopyAnswers(0, 0, 0, -EFSBADCRC)
  const UNREAD := CopyAnswers(-EFSBADCRC, 0, 0, 0)

  /** The three copies are synced in vain, the others cannot be read; all in a way the
      loop passes over. */
  function LureAnswers(m: Mount, x: nat, y: nat, z: nat): (a: Answers)
    ensures Contract(m, a)
    ensures forall g :: 0 <= g < m.Groups() ==> a.copies[g] == if g in {x, y, z} then LATE else UNREAD
  {
    Answers(0, CopyAnswers(0, 0, 0, 0),
            seq(m.Groups(), g requires 0 <= g < m.Groups() => if g in {x, y, z} then LATE else UNREAD), 0, 0)
  }

  /** Which of x and y lie before group g, and how many bad ones. */
  function GrantedBefore(x: nat, y: nat, g: nat): seq<Buffer> {
    [PrimarySuper] + (if x < g then [BackupSuper(x)] else []) + (if y < g then [BackupSuper(y)] else [])
  }

  function CountedBefore(m: Mount, backups: seq<Superblock>, x: nat, y: nat, g: nat): nat
    requires x < |backups| && y < |backups|
  {
    (if x < g && ChecksumBad(m, backups[x]) then 1 else 0) + (if y < g && ChecksumBad(m, backups[y]) then 1 else 0)
  }

  /** Each of the three is behind or still to come, z at least to come. */
  ghost predicate Ahead(list: nat -> nat, x: nat, y: nat, z: nat, p: Pass) {
    p.grp <= z && (x < p.grp || Remaining(list, p, x)) && (y < p.grp || Remaining(list, p, y)) && Remaining(list, p, z)
  }

  /** On the way to z, with the handle still there. */
  ghost predicate OnTheWay(m: Mount, list: nat -> nat, backups: seq<Superblock>, x: nat, y: nat, z: nat, p: Pass)
    requires |backups| == m.Groups() && Triple(m, list, backups, x, y, z)
  {
    && PassOk(m, list, p) && p.exit.Looping? && p.handle && Ahead(list, x, y, z, p)
    && JournalOk(NOTHING, p) && AccountOk(m, LureAnswers(m, x, y, z), list, backups, NOTHING, p)
    && OurWork(NOTHING, p.monitor).granted == GrantedBefore(x, y, p.grp)
    && p.counted == CountedBefore(m, backups, x, y, p.grp)
  }

  /** A turn does not skip a group that is still to come. */
  lemma StillAhead(m: Mount, a: Answers, list: nat -> nat, f: Callback, p: Pass, g: nat)
    requires Contract(m, a) && PassOk(m, list, p) && p.exit.Looping? && p.grp < m.Groups()
    requires Turn(m, a, list, f, p).exit.Looping?
    requires g < p.grp || Remaining(list, p, g)
    ensures var q := Turn(m, a, list, f, p);
      PassOk(m, list, q) && p.grp < q.grp &&
      if g <= p.grp then g < q.grp else Remaining(list, q, g) && q.grp <= g
  {
    var q := Turn(m, a, list, f, p);
    RemainingStep(m, a, list, f, p, g);
    if p.grp < g < q.grp {
      Past(list, q, m, g);
    }
  }

  /** The group at hand before z neither ends the loop nor stops the handle. */
  lemma LureGoesOn(m: Mount, list: nat -> nat, f: Callback, backups: seq<Superblock>, x: nat, y: nat, z: nat, p: Pass)
    requires |backups| == m.Groups() && Triple(m, list, backups, x, y, z)
    requires OnTheWay(m, list, backups, x, y, z, p) && p.grp < z
    ensures var q := Turn(m, LureAnswers(m, x, y, z), list, f, p);
      q.exit.Looping? && q.handle && q.counted == CountedBefore(m, backups, x, y, p.grp + 1)
  {
    assert p.backups[p.grp] == backups[p.grp];
    if p.grp == x || p.grp == y {
      assert LureAnswers(m, x, y, z).copies[p.grp] == LATE;
    } else {
      assert LureAnswers(m, x, y, z).copies[p.grp] == UNREAD;
    }
  }

  /** A copy adds itself to the granted buffers if its turn gets that far. */
  lemma CopyGrants(m: Mount, a: CopyAnswers, t: Transaction, grp: nat, sb: Superblock)
    requires grp < m.Groups() && BackupSuper(grp) !in t.granted
    ensures CopyWork(m, a, t, grp, sb).granted
         == if Reaches(m, a, true, grp) then t.granted + [BackupSuper(grp)] else t.granted
  {
  }

  lemma GrantedAfter(m: Mount, x: nat, y: nat, z: nat, g: nat)
    requires x < y < z && g <= z
    ensures GrantedBefore(x, y, g) + (if g in {x, y, z} then [BackupSuper(g)] else [])
         == GrantedBefore(x, y, g + 1) + (if g == z then [BackupSuper(z)] else [])
    ensures BackupSuper(g) !in GrantedBefore(x, y, g)
  {
  }

  lemma LureGrants(m: Mount, list: nat -> nat, f: Callback, backups: seq<Superblock>, x: nat, y: nat, z: nat, p: Pass)
    requires |backups| == m.Groups() && Triple(m, list, backups, x, y, z)
    requires OnTheWay(m, list, backups, x, y, z, p)
    ensures var q := Turn(m, LureAnswers(m, x, y, z), list, f, p);
      && JournalOk(NOTHING, q)
      && OurWork(NOTHING, q.monitor).granted
           == GrantedBefore(x, y, p.grp + 1) + if p.grp == z then [BackupSuper(z)] else []
  {
    var a := LureAnswers(m, x, y, z);
    TurnJournal(m, a, list, f, NOTHING, p);
    TurnWork(m, a, list, f, NOTHING, p);
    GrantedAfter(m, x, y, z, p.grp);
    if p.grp != m.primaryGroup {
      CopyGrants(m, a.copies[p.grp], OurWork(NOTHING, p.monitor), p.grp, p.backups[p.grp]);
      assert Reaches(m, a.copies[p.grp], true, p.grp) <==> p.grp in {x, y, z};
    }
  }

  lemma TurnAhead(m: Mount, a: Answers, list: nat -> nat, f: Callback, x: nat, y: nat, z: nat, p: Pass)
    requires Contract(m, a) && PassOk(m, list, p) && p.exit.Looping? && p.grp < m.Groups()
    requires Turn(m, a, list, f, p).exit.Looping?
    requires x < y < z && Ahead(list, x, y, z, p) && p.grp < z
    ensures var q := Turn(m, a, list, f, p);
      && Ahead(list, x, y, z, q) && PassOk(m, list, q)
      && p.grp < q.grp && (x < p.grp + 1 <==> x < q.grp) && (y < p.grp + 1 <==> y < q.grp)
  {
    StillAhead(m, a, list, f, p, x);
    StillAhead(m, a, list, f, p, y);
    StillAhead(m, a, list, f, p, z);
  }

  lemma NoneBetween(m: Mount, backups: seq<Superblock>, x: nat, y: nat, g: nat, h: nat)
    requires x < |backups| && y < |backups| && (x < g <==> x < h) && (y < g <==> y < h)
    ensures GrantedBefore(x, y, g) == GrantedBefore(x, y, h)
    ensures CountedBefore(m, backups, x, y, g) == CountedBefore(m, backups, x, y, h)
  {
  }

  lemma TurnOnTheWay(m: Mount, list: nat -> nat, f: Callback, backups: seq<Superblock>, x: nat, y: nat, z: nat, p: Pass)
    requires |backups| == m.Groups() && Triple(m, list, backups, x, y, z)
    requires OnTheWay(m, list, backups, x, y, z, p) && p.grp < z
    ensures p.grp < Turn(m, LureAnswers(m, x, y, z), list, f, p).grp
    ensures OnTheWay(m, list, backups, x, y, z, Turn(m, LureAnswers(m, x, y, z), list, f, p))
  {
    var a := LureAnswers(m, x, y, z);
    LureGoesOn(m, list, f, backups, x, y, z, p);
    LureGrants(m, list, f, backups, x, y, z, p);
    TurnAccounts(m, a, list, f, backups, NOTHING, p);
    TurnAhead(m, a, list, f, x, y, z, p);
    NoneBetween(m, backups, x, y, p.grp + 1, Turn(m, a, list, f, p).grp);
  }

  lemma {:induction false} GrantsOnlyGrow(m: Mount, a: Answers, list: nat -> nat, f: Callback, n: Monitor, p: Pass)
    requires Contract(m, a) && PassOk(m, list, p) && p.exit.Looping?
    requires n.Running? && JournalOk(n, p)
    ensures JournalOk(n, Loop(m, a, list, f, p))
    ensures |OurWork(n, p.monitor).granted| <= |OurWork(n, Loop(m, a, list, f, p).monitor).granted|
    decreases m.Groups() - p.grp
  {
    if p.grp < m.Groups() {
      TurnJournal(m, a, list, f, n, p);
      TurnWork(m, a, list, f, n, p);
      if Turn(m, a, list, f, p).exit.Looping? {
        RemainingStep(m, a, list, f, p, 0);
        GrantsOnlyGrow(m, a, list, f, n, Turn(m, a, list, f, p));
      }
    }
  }

  /** Past z the handle has been granted four buffers. */
  lemma {:induction false} LureLoop(m: Mount, list: nat -> nat, f: Callback, backups: seq<Superblock>,
                                    x: nat, y: nat, z: nat, p: Pass)
    requires |backups| == m.Groups() && Triple(m, list, backups, x, y, z)
    requires OnTheWay(m, list, backups, x, y, z, p)
    ensures var r := Loop(m, LureAnswers(m, x, y, z), list, f, p);
      JournalOk(NOTHING, r) && |OurWork(NOTHING, r.monitor).granted| >= 4
    decreases m.Groups() - p.grp
  {
    var a := LureAnswers(m, x, y, z);
    if p.grp < z {
      TurnOnTheWay(m, list, f, backups, x, y, z, p);
      LureLoop(m, list, f, backups, x, y, z, Turn(m, a, list, f, p));
    } else {
      LureGrants(m, list, f, backups, x, y, z, p);
      if Turn(m, a, list, f, p).exit.Looping? {
        RemainingStep(m, a, list, f, p, 0);
        GrantsOnlyGrow(m, a, list, f, NOTHING, Turn(m, a, list, f, p));
      }
    }
  }

  /** Four buffers under three credits. */
  lemma Overdraft(m: Mount, list: nat -> nat, f: Callback, primary: Superblock, backups: seq<Superblock>,
                  x: nat, y: nat, z: nat)
    requires Increasing(list) && |backups| == m.Groups() && Triple(m, list, backups, x, y, z)
    ensures !FitsCredits(Update(m, LureAnswers(m, x, y, z), list, f, primary, backups, NOTHING).monitor)
  {
    var a := LureAnswers(m, x, y, z);
    var p := Begun(a, backups, NOTHING);
    BegunOk(m, a, list, backups, NOTHING);
    PrimaryJournal(NOTHING, a.primary);
    LureLoop(m, list, f, backups, x, y, z, p);
    LoopJournal(m, a, list, f, NOTHING, p);
    LastStop(NOTHING, Loop(m, a, list, f, p));
    var s := LastMonitor(Loop(m, a, list, f, p));
    assert Ours(NOTHING, s) in s.finished;
  }

  // ---- without them it cannot be overdrawn

  predicate BothBad(m: Mount, backups: seq<Superblock>, granted: seq<Buffer>, i: nat, j: nat)
    requires i < |granted| && j < |granted|
  {
    BadCopy(m, backups, granted[i]) && BadCopy(m, backups, granted[j])
  }

  /** At most one bad copy among them. */
  predicate FewBad(m: Mount, backups: seq<Superblock>, granted: seq<Buffer>) {
    forall i, j :: 0 <= i < j < |granted| ==> !BothBad(m, backups, granted, i, j)
  }

  predicate NoBad(m: Mount, backups: seq<Superblock>, granted: seq<Buffer>) {
    forall b :: b in granted ==> !BadCopy(m, backups, b)
  }

  /** At most one bad copy before the last buffer. */
  predicate FewBadEarly(m: Mount, backups: seq<Superblock>, granted: seq<Buffer>) {
    |granted| > 0 && FewBad(m, backups, granted[..|granted| - 1])
  }

  /** Bad copies are counted, so the second one stops the handle. */
  predicate BadOk(m: Mount, backups: seq<Superblock>, n: Monitor, p: Pass)
    requires n.Running? && JournalOk(n, p)
  {
    var granted := OurWork(n, p.monitor).granted;
    && FewBadEarly(m, backups, granted)
    && (p.exit.Looping? && p.handle ==>
          FewBad(m, backups, granted) && 0 <= p.counted <= 1 && (p.counted == 0 ==> NoBad(m, backups, granted)))
  }

  /** One more buffer after a few of which at most one is bad. */
  lemma OneMore(m: Mount, backups: seq<Superblock>, granted: seq<Buffer>, b: Buffer)
    requires FewBad(m, backups, granted)
    ensures FewBad(m, backups, (granted + [b])[..|granted|])
    ensures !BadCopy(m, backups, b) || NoBad(m, backups, granted) ==> FewBad(m, backups, granted + [b])
    ensures NoBad(m, backups, granted + [b]) <==> NoBad(m, backups, granted) && !BadCopy(m, backups, b)
  {
    assert (granted + [b])[..|granted|] == granted;
    forall i, j | 0 <= i < j < |granted| + 1 && (!BadCopy(m, backups, b) || NoBad(m, backups, granted))
      ensures !BothBad(m, backups, granted + [b], i, j)
    {
      if j < |granted| {
        assert !BothBad(m, backups, granted, i, j);
      }
    }
    assert forall c :: c in granted + [b] <==> c in granted || c == b;
  }

  lemma FewerBad(m: Mount, backups: seq<Superblock>, granted: seq<Buffer>)
    requires |granted| > 0 && FewBad(m, backups, granted)
    ensures FewBad(m, backups, granted[..|granted| - 1])
  {
    var fewer := granted[..|granted| - 1];
    forall i, j | 0 <= i < j < |fewer|
      ensures !BothBad(m, backups, fewer, i, j)
    {
      assert !BothBad(m, backups, granted, i, j);
    }
  }

  /** What a turn under the handle counts. */
  lemma TurnCounts(m: Mount, a: Answers, list: nat -> nat, f: Callback, p: Pass)
    requires Contract(m, a) && PassOk(m, list, p) && p.grp < m.Groups() && p.exit.Looping? && p.handle
    ensures var q := Turn(m, a, list, f, p);
      q.exit.Looping? && q.handle ==>
        && p.counted <= q.counted <= (if p.counted < 1 then 1 else p.counted)
        && (p.grp != m.primaryGroup && Reaches(m, a.copies[p.grp], true, p.grp) ==>
              ChecksumBad(m, p.backups[p.grp]) ==> q.counted == p.counted + 1)
  {
  }

  lemma TurnBad(m: Mount, a: Answers, list: nat -> nat, f: Callback, backups: seq<Superblock>, n: Monitor, p: Pass)
    requires Contract(m, a) && PassOk(m, list, p) && p.grp < m.Groups() && p.exit.Looping? && |backups| == m.Groups()
    requires n.Running? && JournalOk(n, p) && JournalOk(n, Turn(m, a, list, f, p))
    requires p.backups[p.grp] == backups[p.grp] && BadOk(m, backups, n, p)
    ensures BadOk(m, backups, n, Turn(m, a, list, f, p))
  {
    TurnWork(m, a, list, f, n, p);
    if p.handle {
      var t := OurWork(n, p.monitor);
      TurnCounts(m, a, list, f, p);
      if p.grp != m.primaryGroup {
        assert BackupSuper(p.grp) !in t.granted;
        CopyGrants(m, a.copies[p.grp], t, p.grp, p.backups[p.grp]);
        OneMore(m, backups, t.granted, BackupSuper(p.grp));
        FewerBad(m, backups, t.granted);
      }
    }
  }

  lemma {:induction false} LoopBad(m: Mount, a: Answers, list: nat -> nat, f: Callback,
                                   backups: seq<Superblock>, n: Monitor, p: Pass)
    requires Contract(m, a) && PassOk(m, list, p) && p.exit.Looping? && |backups| == m.Groups()
    requires n.Running? && JournalOk(n, p) && AccountOk(m, a, list, backups, n, p) && BadOk(m, backups, n, p)
    ensures JournalOk(n, Loop(m, a, list, f, p)) && BadOk(m, backups, n, Loop(m, a, list, f, p))
    decreases m.Groups() - p.grp
  {
    if p.grp < m.Groups() {
      TurnJournal(m, a, list, f, n, p);
      TurnAccounts(m, a, list, f, backups, n, p);
      TurnBad(m, a, list, f, backups, n, p);
      if Turn(m, a, list, f, p).exit.Looping? {
        RemainingStep(m, a, list, f, p, 0);
        LoopBad(m, a, list, f, backups, n, Turn(m, a, list, f, p));
      }
    }
  }

  /** A transaction past its credits holds three copies of which the first two are not
      both bad. */
  lemma PastCredits(m: Mount, a: Answers, list: nat -> nat, backups: seq<Superblock>, t: Transaction, bound: nat)
    requires |backups| == m.Groups() && InOrder(t.granted, bound) && Accounted(m, a, list, backups, t)
    requires |t.granted| > 3 && FewBadEarly(m, backups, t.granted)
    ensures exists x, y, z :: Triple(m, list, backups, x, y, z)
  {
    var b, c, d := t.granted[1], t.granted[2], t.granted[3];
    assert b in t.granted && c in t.granted && d in t.granted;
    var fewer := t.granted[..|t.granted| - 1];
    assert !BothBad(m, backups, fewer, 1, 2);
    assert Triple(m, list, backups, b.group, c.group, d.group);
  }

  lemma BegunBad(m: Mount, a: Answers, backups: seq<Superblock>)
    requires Contract(m, a) && PrimaryCode(a.primary) == 0
    ensures JournalOk(NOTHING, Begun(a, backups, NOTHING)) && BadOk(m, backups, NOTHING, Begun(a, backups, NOTHING))
  {
    PrimaryJournal(NOTHING, a.primary);
  }

  lemma OneTransaction(s: Monitor, bound: nat)
    requires Stopped(NOTHING, s, bound) && WithinCredits(Ours(NOTHING, s))
    ensures FitsCredits(s)
  {
    assert s.finished == [Ours(NOTHING, s)];
  }

  /** Before its last buffer an update is granted at most one bad copy. */
  lemma LoopFewBad(m: Mount, a: Answers, list: nat -> nat, f: Callback, backups: seq<Superblock>)
    requires Contract(m, a) && Increasing(list) && |backups| == m.Groups() && PrimaryCode(a.primary) == 0
    ensures var s := LastMonitor(Loop(m, a, list, f, Begun(a, backups, NOTHING)));
      && s.Running? && |s.finished| == 1 && FewBadEarly(m, backups, Ours(NOTHING, s).granted)
  {
    BegunOk(m, a, list, backups, NOTHING);
    BegunBad(m, a, backups);
    LoopBad(m, a, list, f, backups, NOTHING, Begun(a, backups, NOTHING));
    LastStop(NOTHING, Loop(m, a, list, f, Begun(a, backups, NOTHING)));
  }

  lemma ExitFits(m: Mount, a: Answers, list: nat -> nat, backups: seq<Superblock>, s: Monitor)
    requires Contract(m, a) && |backups| == m.Groups() && ExitOk(m, a, list, backups, NOTHING, s)
    requires FewBadEarly(m, backups, Ours(NOTHING, s).granted)
    requires !exists x, y, z :: Triple(m, list, backups, x, y, z)
    ensures FitsCredits(s)
  {
    var bound :| Stopped(NOTHING, s, bound);
    if |Ours(NOTHING, s).granted| > 3 {
      PastCredits(m, a, list, backups, Ours(NOTHING, s), bound);
    }
    OneTransaction(s, bound);
  }

  /** An update that stops before its loop uses at most one credit. */
  lemma NoLoopFits(m: Mount, a: Answers, list: nat -> nat, f: Callback, primary: Superblock, backups: seq<Superblock>)
    requires Contract(m, a) && Increasing(list) && |backups| == m.Groups()
    requires a.startErr != 0 || PrimaryCode(a.primary) != 0
    ensures FitsCredits(Update(m, a, list, f, primary, backups, NOTHING).monitor)
  {
    if a.startErr == 0 {
      PrimaryJournal(NOTHING, a.primary);
      if a.primary.accessErr == 0 {
        OneTransaction(Update(m, a, list, f, primary, backups, NOTHING).monitor, 0);
      }
    }
  }

  lemma NoTripleFits(m: Mount, a: Answers, list: nat -> nat, f: Callback, primary: Superblock, backups: seq<Superblock>)
    requires Contract(m, a) && Increasing(list) && |backups| == m.Groups()
    requires !exists x, y, z :: Triple(m, list, backups, x, y, z)
    ensures FitsCredits(Update(m, a, list, f, primary, backups, NOTHING).monitor)
  {
    if a.startErr != 0 || PrimaryCode(a.primary) != 0 {
      NoLoopFits(m, a, list, f, primary, backups);
    } else {
      LoopExit(m, a, list, f, backups, NOTHING);
      LoopFewBad(m, a, list, f, backups);
      ExitFits(m, a, list, backups, LastMonitor(Loop(m, a, list, f, Begun(a, backups, NOTHING))));
    }
  }

  lemma NotLateFits(m: Mount, a: Answers, list: nat -> nat, f: Callback, primary: Superblock, backups: seq<Superblock>)
    requires Contract(m, a) && Increasing(list) && |backups| == m.Groups() && NoLateBadCrc(m, a)
    ensures FitsCredits(Update(m, a, list, f, primary, backups, NOTHING).monitor)
  {
    if a.startErr != 0 || PrimaryCode(a.primary) != 0 {
      NoLoopFits(m, a, list, f, primary, backups);
    } else {
      EveryExitJournals(m, a, list, f, primary, backups, NOTHING);
      var s := Update(m, a, list, f, primary, backups, NOTHING).monitor;
      var bound :| Stopped(NOTHING, s, bound);
      OneTransaction(s, bound);
    }
  }

  // ---- the conditions

  /** The three credits suffice on this mount, whatever fails. */
  ghost predicate MountFits(m: Mount, list: nat -> nat, backups: seq<Superblock>)
    requires Increasing(list) && |backups| == m.Groups()
  {
    forall a: Answers, f: Callback, primary: Superblock :: Contract(m, a) ==>
      FitsCredits(Update(m, a, list, f, primary, backups, NOTHING).monitor)
  }

  /** Whatever fails, the three credits suffice on a mount if and only if the loop does
      not visit three copies of which at most one of the first two is bad. */
  lemma MountFitsIff(m: Mount, list: nat -> nat, backups: seq<Superblock>)
    requires Increasing(list) && |backups| == m.Groups()
    ensures MountFits(m, list, backups) <==> !exists x, y, z :: Triple(m, list, backups, x, y, z)
  {
    if x, y, z :| Triple(m, list, backups, x, y, z) {
      Overdraft(m, list, x => x, OLD, backups, x, y, z);
    } else {
      forall a: Answers, f: Callback, primary: Superblock | Contract(m, a)
        ensures FitsCredits(Update(m, a, list, f, primary, backups, NOTHING).monitor)
      {
        NoTripleFits(m, a, list, f, primary, backups);
      }
    }
  }

  ghost function Copies(m: Mount, list: nat -> nat): set<nat> {
    set g: nat | g < m.Groups() && IsCopy(m, list, g)
  }

  lemma {:induction false} Subset(s: set<nat>, t: set<nat>)
    requires s <= t
    ensures |s| <= |t|
  {
    if x :| x in s {
      Subset(s - {x}, t - {x});
    }
  }

  lemma {:induction false} Least(s: set<nat>) returns (x: nat)
    requires s != {}
    ensures x in s && forall y :: y in s ==> x <= y
  {
    x :| x in s;
    assert s == s - {x} + {x};
    if s != {x} {
      var y := Least(s - {x});
      if y < x {
        x := y;
      }
    }
  }

  lemma ThreeOf(s: set<nat>) returns (x: nat, y: nat, z: nat)
    requires |s| > 2
    ensures x < y < z && {x, y, z} <= s
  {
    x := Least(s);
    assert |s - {x}| == |s| - 1;
    y := Least(s - {x});
    assert |s - {x} - {y}| == |s| - 2;
    z := Least(s - {x} - {y});
  }

  lemma TriplesIff(m: Mount, list: nat -> nat, backups: seq<Superblock>)
    requires |backups| == m.Groups()
    requires forall g :: g in Copies(m, list) ==> !ChecksumBad(m, backups[g])
    ensures (exists x, y, z :: Triple(m, list, backups, x, y, z)) <==> |Copies(m, list)| > 2
  {
    var s := Copies(m, list);
    if x, y, z :| Triple(m, list, backups, x, y, z) {
      Subset({x, y, z}, s);
    } else if |s| > 2 {
      var x, y, z := ThreeOf(s);
      assert x in s && y in s && z in s;
      assert Triple(m, list, backups, x, y, z);
    }
  }

  /** On a mount whose copies are all good: if and only if it has at most two of them, the
      number the comment in the source counts on. */
  lemma GoodMountFitsIff(m: Mount, list: nat -> nat, backups: seq<Superblock>)
    requires Increasing(list) && |backups| == m.Groups()
    requires forall g :: g in Copies(m, list) ==> !ChecksumBad(m, backups[g])
    ensures MountFits(m, list, backups) <==> |Copies(m, list)| <= 2
  {
    MountFitsIff(m, list, backups);
    TriplesIff(m, list, backups);
  }

  /** Every answer after a copy's write access is drawn from `codes`. */
  predicate LateCodes(m: Mount, a: Answers, codes: set<int>)
    requires Contract(m, a)
  {
    forall g :: 0 <= g < m.Groups() ==> a.copies[g].dirtyErr in codes && a.copies[g].syncErr in codes
  }

  /** The three credits suffice in every filesystem whose late answers are in `codes`. */
  ghost predicate AlwaysFits(codes: set<int>) {
    forall m: Mount, a: Answers, list: nat -> nat, f: Callback, primary: Superblock, backups: seq<Superblock> ::
      Contract(m, a) && Increasing(list) && |backups| == m.Groups() && LateCodes(m, a, codes) ==>
        FitsCredits(Update(m, a, list, f, primary, backups, NOTHING).monitor)
  }

  /** Four groups with a copy each, the primary in group 0, no metadata checksums. */
  function LateMount(): Mount {
    Mount(0, [true, true, true, true], false, _ => 0)
  }

  lemma LateOverdraft(list: nat -> nat, f: Callback)
    requires Increasing(list) && list(0) == 1 && list(1) == 2 && list(2) == 3
    ensures !FitsCredits(Update(LateMount(), LureAnswers(LateMount(), 1, 2, 3), list, f,
                                OLD, [OLD, OLD, OLD, OLD], NOTHING).monitor)
  {
    assert Triple(LateMount(), list, [OLD, OLD, OLD, OLD], 1, 2, 3);
    Overdraft(LateMount(), list, f, OLD, [OLD, OLD, OLD, OLD], 1, 2, 3);
  }

  /** A copy that reports -EFSBADCRC from its dirty or sync call has used a credit, but
      the loop passes over it without counting it, so the handle stays open for more
      copies than it has credits for.  That one answer is the only way: three credits
      suffice for every filesystem and every failure pattern if and only if -EFSBADCRC
      is not among the answers of those two calls. */
  lemma CreditsSufficeIff(codes: set<int>)
    requires 0 in codes
    ensures AlwaysFits(codes) <==> -EFSBADCRC !in codes
  {
    if -EFSBADCRC in codes {
      var list: nat -> nat, f: Callback := k => k + 1, x => x;
      LateOverdraft(list, f);
      assert LateCodes(LateMount(), LureAnswers(LateMount(), 1, 2, 3), codes);
    } else {
      forall m: Mount, a: Answers, list: nat -> nat, f: Callback, primary: Superblock, backups: seq<Superblock>
        | Contract(m, a) && Increasing(list) && |backups| == m.Groups() && LateCodes(m, a, codes)
        ensures FitsCredits(Update(m, a, list, f, primary, backups, NOTHING).monitor)
      {
        NotLateFits(m, a, list, f, primary, backups);
      }
    }
  }
}
