/** What a superblock update leaves of the primary and its copies, for every enumeration
    of the backup groups and every pattern of failures. */
module SuperblockRuns {
  import opened Errno
  import opened JournalMonitor
  import opened Superblocks

  // ---- contents

  /** g is the group at hand or one the enumerator will still answer. */
  ghost predicate Remaining(list: nat -> nat, p: Pass, g: nat) {
    g == p.grp || exists k: nat :: p.asked <= k && list(k) == g
  }

  /** Group 0 and every answer of the enumerator. */
  ghost predicate Visited(list: nat -> nat, g: nat) {
    g == 0 || exists k: nat :: list(k) == g
  }

  /** A backup the update must reach: readable, with a checksum that was right before. */
  predicate Good(m: Mount, a: Answers, g: nat, sb: Superblock)
    requires Contract(m, a) && g < m.Groups()
  {
    m.hasSuper[g] && g != m.primaryGroup && a.copies[g].readErr == 0 && !ChecksumBad(m, sb)
  }

  /** The result 1 means a modified copy exactly when the checksum of the copy was right
      before; with a bad checksum it is the result of a call that changed nothing. */
  lemma OneMeansModifiedIff(m: Mount, f: Callback, a: CopyAnswers, journalled: bool, grp: nat, sb: Superblock)
    requires grp < m.Groups() && IsErrno(a)
    requires BackupCode(m, a, journalled, grp, sb) == 1
    ensures var after := BackupAfter(m, f, a, journalled, grp, sb);
      && (after == Updated(m, f, sb) && !ChecksumBad(m, after) <==> !ChecksumBad(m, sb))
      && (ChecksumBad(m, sb) ==> after == sb)
  {
  }

  /** How the loop meets a copy: not at all, under its handle, or past the stop of it. */
  datatype Meeting = Never | UnderHandle | AfterStop

  /** How the loop, from p on, meets the copy of group g. */
  ghost function Met(m: Mount, a: Answers, list: nat -> nat, f: Callback, p: Pass, g: nat): Meeting
    requires Contract(m, a) && PassOk(m, list, p) && p.exit.Looping?
    decreases m.Groups() - p.grp
  {
    if p.grp >= m.Groups() || p.grp == g == m.primaryGroup then Never
    else if p.grp == g then (if p.handle then UnderHandle else AfterStop)
    else
      var q := Turn(m, a, list, f, p);
      if !q.exit.Looping? then Never
      else
        RemainingStep(m, a, list, f, p, g);
        Met(m, a, list, f, q, g)
  }

  /** What a meeting leaves of a copy, and what it reports. */
  function MetAfter(m: Mount, a: Answers, f: Callback, met: Meeting, g: nat, sb: Superblock): Superblock
    requires Contract(m, a) && g < m.Groups()
  {
    if met.Never? then sb else BackupAfter(m, f, a.copies[g], met.UnderHandle?, g, sb)
  }

  function MetCode(m: Mount, a: Answers, met: Meeting, g: nat, sb: Superblock): int
    requires Contract(m, a) && g < m.Groups()
  {
    if met.Never? then 0 else BackupCode(m, a.copies[g], met.UnderHandle?, g, sb)
  }

  lemma TurnContents(m: Mount, a: Answers, list: nat -> nat, f: Callback, p: Pass, g: nat)
    requires Contract(m, a) && PassOk(m, list, p) && p.exit.Looping? && p.grp < m.Groups() && g < m.Groups()
    ensures var q := Turn(m, a, list, f, p);
      && |q.backups| == m.Groups()
      && q.backups[g] == (if g == p.grp && g != m.primaryGroup
                          then BackupAfter(m, f, a.copies[g], p.handle, g, p.backups[g]) else p.backups[g])
  {
  }

  lemma Past(list: nat -> nat, p: Pass, m: Mount, g: nat)
    requires PassOk(m, list, p) && g < p.grp
    ensures !Remaining(list, p, g)
  {
    forall k: nat | p.asked <= k
      ensures list(k) != g
    {
      if p.asked > 0 {
        assert list(p.asked - 1) < list(k);
      }
    }
  }

  lemma RemainingStep(m: Mount, a: Answers, list: nat -> nat, f: Callback, p: Pass, g: nat)
    requires Contract(m, a) && PassOk(m, list, p) && p.exit.Looping? && p.grp < m.Groups()
    requires Turn(m, a, list, f, p).exit.Looping?
    ensures PassOk(m, list, Turn(m, a, list, f, p)) && p.grp < Turn(m, a, list, f, p).grp
    ensures Remaining(list, p, g) <==> g == p.grp || Remaining(list, Turn(m, a, list, f, p), g)
  {
    var q := Turn(m, a, list, f, p);
    if p.asked > 0 {
      assert list(p.asked - 1) < list(p.asked);
    }
    assert q.grp == list(p.asked) && q.asked == p.asked + 1;
    if Remaining(list, p, g) && g != p.grp {
      var k: nat :| p.asked <= k && list(k) == g;
      assert k == p.asked || q.asked <= k;
    }
  }

  /** A group the loop is past is not met again, and one that is not enumerated never. */
  lemma {:induction false} NotMet(m: Mount, a: Answers, list: nat -> nat, f: Callback, p: Pass, g: nat)
    requires Contract(m, a) && PassOk(m, list, p) && p.exit.Looping?
    requires !Remaining(list, p, g)
    ensures Met(m, a, list, f, p, g).Never?
    decreases m.Groups() - p.grp
  {
    if p.grp < m.Groups() && Turn(m, a, list, f, p).exit.Looping? {
      RemainingStep(m, a, list, f, p, g);
      NotMet(m, a, list, f, Turn(m, a, list, f, p), g);
    }
  }

  /** Each copy is met at most once, and is what that one meeting makes of it.  A loop
      that runs to its end has met every enumerated group but the primary's. */
  lemma {:induction false} LoopContents(m: Mount, a: Answers, list: nat -> nat, f: Callback, p: Pass, g: nat)
    requires Contract(m, a) && PassOk(m, list, p) && p.exit.Looping? && g < m.Groups()
    ensures var r, met := Loop(m, a, list, f, p), Met(m, a, list, f, p, g);
      && r.backups[g] == MetAfter(m, a, f, met, g, p.backups[g])
      && (r.exit.Looping? ==> (met.Never? <==> !Remaining(list, p, g) || g == m.primaryGroup))
    decreases m.Groups() - p.grp
  {
    if p.grp < m.Groups() {
      var q := Turn(m, a, list, f, p);
      TurnContents(m, a, list, f, p, g);
      if q.exit.Looping? {
        RemainingStep(m, a, list, f, p, g);
        LoopContents(m, a, list, f, q, g);
        if g == p.grp {
          Past(list, q, m, g);
          NotMet(m, a, list, f, q, g);
        }
      }
    } else {
      Past(list, p, m, g);
    }
  }

  /** The loop ends without an error exactly when it ends by itself. */
  lemma {:induction false} LoopError(m: Mount, a: Answers, list: nat -> nat, f: Callback, p: Pass)
    requires Contract(m, a) && PassOk(m, list, p) && p.exit.Looping? && p.err == 0
    ensures var r := Loop(m, a, list, f, p);
      r.err <= 0 && (r.err == 0 <==> r.exit.Looping?)
    decreases m.Groups() - p.grp
  {
    if p.grp < m.Groups() {
      var q := Turn(m, a, list, f, p);
      if q.exit.Looping? {
        RemainingStep(m, a, list, f, p, 0);
        LoopError(m, a, list, f, q);
      }
    }
  }

  /** A result the loop goes on after: no failure, or the one it forgives. */
  predicate Forgiven(err: int) {
    err >= 0 || err == -EFSBADCRC
  }

  /** A loop that runs to its end has met no other failure. */
  lemma {:induction false} LoopForgives(m: Mount, a: Answers, list: nat -> nat, f: Callback, p: Pass, g: nat)
    requires Contract(m, a) && PassOk(m, list, p) && p.exit.Looping? && g < m.Groups()
    requires Loop(m, a, list, f, p).exit.Looping?
    ensures Forgiven(MetCode(m, a, Met(m, a, list, f, p, g), g, p.backups[g]))
    decreases m.Groups() - p.grp
  {
    if p.grp < m.Groups() && p.grp != g {
      RemainingStep(m, a, list, f, p, g);
      TurnContents(m, a, list, f, p, g);
      LoopForgives(m, a, list, f, Turn(m, a, list, f, p), g);
    }
  }

  /** The loop of an update that gets as far as its backups. */
  function Begun(a: Answers, backups: seq<Superblock>, n: Monitor): Pass {
    FirstPass(backups, PrimaryMonitor(Step(n, Start(3)), a.primary))
  }

  /** How an update meets the copy of group g. */
  ghost function UpdateMet(m: Mount, a: Answers, list: nat -> nat, f: Callback,
                           backups: seq<Superblock>, n: Monitor, g: nat): Meeting
    requires Contract(m, a) && Increasing(list) && |backups| == m.Groups()
  {
    if a.startErr != 0 || PrimaryCode(a.primary) != 0 then Never
    else Met(m, a, list, f, Begun(a, backups, n), g)
  }

  /** On every exit the primary and the copies are old or updated once, never anything
      else; a copy whose checksum was bad, or whose group is not enumerated, keeps every
      byte. */
  lemma EveryExitOldOrNew(m: Mount, a: Answers, list: nat -> nat, f: Callback,
                          primary: Superblock, backups: seq<Superblock>, n: Monitor, g: nat)
    requires Contract(m, a) && Increasing(list) && |backups| == m.Groups() && g < m.Groups()
    ensures var o := Update(m, a, list, f, primary, backups, n);
      && o.primary == (if a.startErr == 0 && a.primary.accessErr == 0 then Updated(m, f, primary) else primary)
      && o.backups[g] == MetAfter(m, a, f, UpdateMet(m, a, list, f, backups, n, g), g, backups[g])
      && (o.backups[g] == backups[g] || o.backups[g] == Updated(m, f, backups[g]))
      && (!Good(m, a, g, backups[g]) || !Visited(list, g) ==> o.backups[g] == backups[g])
  {
    if a.startErr == 0 && PrimaryCode(a.primary) == 0 {
      var p := Begun(a, backups, n);
      LoopContents(m, a, list, f, p, g);
      if !Visited(list, g) {
        NotMet(m, a, list, f, p, g);
      } else if g == m.primaryGroup {
        PrimaryNotMet(m, a, list, f, p);
      }
    }
  }

  lemma {:induction false} PrimaryNotMet(m: Mount, a: Answers, list: nat -> nat, f: Callback, p: Pass)
    requires Contract(m, a) && PassOk(m, list, p) && p.exit.Looping?
    ensures Met(m, a, list, f, p, m.primaryGroup).Never?
    decreases m.Groups() - p.grp
  {
    if p.grp < m.Groups() && Turn(m, a, list, f, p).exit.Looping? {
      RemainingStep(m, a, list, f, p, m.primaryGroup);
      PrimaryNotMet(m, a, list, f, Turn(m, a, list, f, p));
    }
  }

  /** When an update returns 0, no call failed but, at a copy, with -EFSBADCRC. */
  lemma ZeroMeansForgiven(m: Mount, a: Answers, list: nat -> nat, f: Callback,
                          primary: Superblock, backups: seq<Superblock>, n: Monitor, g: nat)
    requires Contract(m, a) && Increasing(list) && |backups| == m.Groups() && g < m.Groups()
    requires Update(m, a, list, f, primary, backups, n).err == 0
    requires Visited(list, g) && m.hasSuper[g] && g != m.primaryGroup
    ensures a.startErr == a.primary.accessErr == a.primary.dirtyErr == a.primary.syncErr == 0
    ensures var copy, met := a.copies[g], UpdateMet(m, a, list, f, backups, n, g);
      && !met.Never?
      && Forgiven(copy.readErr)
      && (met.UnderHandle? && copy.readErr == 0 ==> Forgiven(copy.accessErr))
      && (Reaches(m, copy, met.UnderHandle?, g) && !ChecksumBad(m, backups[g]) ==>
            if met.UnderHandle? && copy.dirtyErr != 0 then Forgiven(copy.dirtyErr) else Forgiven(copy.syncErr))
  {
    var p := Begun(a, backups, n);
    LoopError(m, a, list, f, p);
    LoopContents(m, a, list, f, p, g);
    assert Remaining(list, p, g);
    LoopForgives(m, a, list, f, p, g);
  }

  /** The new fields, under a checksum that verifies; without metadata checksums the
      checksum field is left alone. */
  predicate HoldsNew(m: Mount, f: Callback, before: Superblock, after: Superblock) {
    && after.fields == f(before.fields)
    && after.checksum == if m.metadataCsum then m.csum(f(before.fields)) else before.checksum
  }

  /** When an update returns 0, the primary holds the new fields under a checksum that
      verifies, and so does every enumerated good copy, unless the handle was still there
      and its write access answered -EFSBADCRC: such a copy keeps every byte. */
  lemma ZeroMeansUpdated(m: Mount, a: Answers, list: nat -> nat, f: Callback,
                         primary: Superblock, backups: seq<Superblock>, n: Monitor, g: nat)
    requires Contract(m, a) && Increasing(list) && |backups| == m.Groups() && g < m.Groups()
    requires Update(m, a, list, f, primary, backups, n).err == 0
    ensures var o := Update(m, a, list, f, primary, backups, n);
      && HoldsNew(m, f, primary, o.primary)
      && (Visited(list, g) && Good(m, a, g, backups[g]) ==>
            if UpdateMet(m, a, list, f, backups, n, g).UnderHandle? && a.copies[g].accessErr == -EFSBADCRC
            then o.backups[g] == backups[g]
            else HoldsNew(m, f, backups[g], o.backups[g]))
  {
    var p := Begun(a, backups, n);
    LoopError(m, a, list, f, p);
    LoopContents(m, a, list, f, p, g);
    if Visited(list, g) && Good(m, a, g, backups[g]) {
      ZeroMeansForgiven(m, a, list, f, primary, backups, n, g);
    }
  }

  const NOTHING: Monitor := Running(Closed, {}, [], [])

  /** Every answer to a request for write access to a copy is drawn from `codes`. */
  predicate AccessCodes(m: Mount, a: Answers, codes: set<int>)
    requires Contract(m, a)
  {
    forall g :: 0 <= g < m.Groups() ==> a.copies[g].accessErr in codes
  }

  /** On 0 every enumerated good copy holds the new fields. */
  ghost predicate ZeroUpdatesAll(m: Mount, a: Answers, list: nat -> nat, f: Callback,
                                 primary: Superblock, backups: seq<Superblock>)
    requires Contract(m, a) && Increasing(list) && |backups| == m.Groups()
  {
    var o := Update(m, a, list, f, primary, backups, NOTHING);
    o.err == 0 ==> forall g: nat :: g < m.Groups() && Visited(list, g) && Good(m, a, g, backups[g]) ==>
      o.backups[g].fields == f(backups[g].fields)
  }

  /** So it is in every filesystem whose write accesses answer with `codes`. */
  ghost predicate AlwaysUpdatesAll(codes: set<int>) {
    forall m: Mount, a: Answers, list: nat -> nat, f: Callback, primary: Superblock, backups: seq<Superblock> ::
      Contract(m, a) && Increasing(list) && |backups| == m.Groups() && AccessCodes(m, a, codes) ==>
        ZeroUpdatesAll(m, a, list, f, primary, backups)
  }

  /** A result of 0 vouches for every enumerated good copy, in every filesystem and for
      every failure pattern, if and only if write access to a copy never answers
      -EFSBADCRC. */
  lemma UpdatesAllIff(codes: set<int>)
    requires 0 in codes
    ensures AlwaysUpdatesAll(codes) <==> -EFSBADCRC !in codes
  {
    if -EFSBADCRC in codes {
      var list: nat -> nat := k => k + 1;
      PassedOver(list);
      assert AccessCodes(PassedMount(), PassedAnswers(), codes);
    } else {
      forall m: Mount, a: Answers, list: nat -> nat, f: Callback, primary: Superblock, backups: seq<Superblock>
        | Contract(m, a) && Increasing(list) && |backups| == m.Groups() && AccessCodes(m, a, codes)
        ensures ZeroUpdatesAll(m, a, list, f, primary, backups)
      {
        if Update(m, a, list, f, primary, backups, NOTHING).err == 0 {
          forall g: nat | g < m.Groups() && Visited(list, g) && Good(m, a, g, backups[g])
            ensures Update(m, a, list, f, primary, backups, NOTHING).backups[g].fields == f(backups[g].fields)
          {
            ZeroMeansUpdated(m, a, list, f, primary, backups, NOTHING, g);
          }
        }
      }
    }
  }

  /** Two groups with a copy each, the primary in group 0, no metadata checksums. */
  function PassedMount(): Mount {
    Mount(0, [true, true], false, _ => 0)
  }

  /** Everything succeeds but the write access to the copy in group 1. */
  function PassedAnswers(): (a: Answers)
    ensures Contract(PassedMount(), a)
  {
    var ok := CopyAnswers(0, 0, 0, 0);
    Answers(0, ok, [ok, ok.(accessErr := -EFSBADCRC)], 0, 0)
  }

  const OLD: Superblock := Superblock(Fields([], [], []), 0)

  function NewLabel(fields: Fields): Fields {
    fields.(volumeName := [1])
  }

  /** The result is 0, the primary has the new label, the only copy the old one. */
  lemma PassedOver(list: nat -> nat)
    requires Increasing(list) && list(0) == 1 && list(1) == 2
    ensures var o := Update(PassedMount(), PassedAnswers(), list, NewLabel, OLD, [OLD, OLD], NOTHING);
      o.err == 0 && o.primary.fields.volumeName == [1] && o.backups[1].fields.volumeName == []
    ensures !ZeroUpdatesAll(PassedMount(), PassedAnswers(), list, NewLabel, OLD, [OLD, OLD])
  {
    var m, a := PassedMount(), PassedAnswers();
    var p := Begun(a, [OLD, OLD], NOTHING);
    var p1 := Turn(m, a, list, NewLabel, p);
    assert p1 == p.(grp := 1, asked := 1);
    var p2 := Turn(m, a, list, NewLabel, p1);
    assert p2.grp == 2 && p2.err == 0 && p2.backups == [OLD, OLD];
    assert Loop(m, a, list, NewLabel, p) == Loop(m, a, list, NewLabel, p1) == Loop(m, a, list, NewLabel, p2) == p2;
    assert Visited(list, 1) && Good(m, a, 1, OLD);
  }
}
