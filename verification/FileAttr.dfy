/** Getting and setting the flags and the project of an inode. */
module FileAttr {
  import opened Errno
  import opened FlagBits
  import opened Inodes
  import opened JournalMonitor

  const DEF_PROJID := 0
  const GOOD_OLD_INODE_SIZE := 128

  /** The flags the loop writes: the modifiable ones but JOURNAL_DATA and EXTENTS. */
  const SETTABLE: bv64 := 0x6243_80FF

  predicate Has(w: bv64, f: bv64) {
    w & f != 0
  }

  /** Do two words differ in a flag? */
  predicate Differ(a: bv64, b: bv64, f: bv64) {
    (a ^ b) & f != 0
  }

  /** How a flag change made elsewhere ended: its error, and whether the flag now has the
      requested value.  The two are independent; nothing below relies on a link. */
  datatype Elsewhere = Elsewhere(err: int, applied: bool)

  /** What the code outside this file answers during one call; 0 is success. */
  datatype Answers = Answers(
    quotaFile: bool, mayJournal: bool, hasCasefold: bool, emptyDir: bool, vfsImmutable: bool,
    flushErr: int, startErr: int, reserveErr: int, vfsFlags: bv64, now: Time, nextVersion: int, markErr: int,
    isDax: bool, journalData: Elsewhere, migrate: Elsewhere, project: ProjectAnswers)

  datatype ProjectAnswers = ProjectAnswers(
    dquotInitErr: int, locErr: int, fits: bool, expandErr: int, credits: nat, startErr: int, reserveErr: int,
    dquotFound: bool, transferErr: int, now: Time, nextVersion: int, markErr: int)

  /** The mount and the kernel configuration. */
  datatype Config = Config(quota: bool, hasProject: bool, inodeSize: nat)

  // ---- guards

  /** The flags an inode of a kind may have. */
  function KindMask(kind: Kind): bv64 {
    match kind
    case Directory => LOW_HALF
    case Regular => REG_FLMASK
    case Other => OTHER_FLMASK
  }

  function MaskFlags(kind: Kind, flags: bv64): bv64 {
    flags & KindMask(kind)
  }

  /** A mask, if a condition holds. */
  function Choose(b: bool, f: bv64): bv64 {
    if b then f else 0
  }

  /** The low half of a flag word, without INLINE_DATA for a directory. */
  function DaxView(kind: Kind, flags: bv64): bv64 {
    flags & !Choose(kind.Directory?, INLINE_DATA_FL)
  }

  predicate DaxCompatible(kind: Kind, w: bv64, req: bv64) {
    var prior, flags := DaxView(kind, w), DaxView(kind, req);
    && (Has(flags, DAX_FL) ==> !Has(prior, DAX_MUT_EXCL) && !Has(w, VERITY_IN_PROGRESS))
    && (Has(flags, DAX_MUT_EXCL) ==> !Has(prior, DAX_FL))
  }

  /** Two requests agree but for IMMUTABLE. */
  predicate SameButImmutable(w: bv64, req: bv64) {
    (w & LOW_HALF) & !IMMUTABLE_FL == req & !IMMUTABLE_FL
  }

  function CheckImmutable(cfg: Config, w: bv64, oldProjid: nat, projid: nat, req: bv64): int {
    if !Has(w, IMMUTABLE_FL) || !Has(req, IMMUTABLE_FL) then 0
    else if !SameButImmutable(w, req) then -EPERM
    else if cfg.hasProject && oldProjid != projid then -EPERM
    else 0
  }

  /** The checks of ext4_ioctl_setflags up to the flush, on a flag word w. */
  function FlagsGuard(ans: Answers, kind: Kind, w: bv64, req: bv64): int {
    if ans.quotaFile then -EPERM
    else if Differ(req, w, JOURNAL_DATA_FL) && !ans.mayJournal then -EPERM
    else if !DaxCompatible(kind, w, req) then -EOPNOTSUPP
    else if Differ(req, w, CASEFOLD_FL) && !ans.hasCasefold then -EOPNOTSUPP
    else if Differ(req, w, CASEFOLD_FL) && !kind.Directory? then -ENOTDIR
    else if Differ(req, w, CASEFOLD_FL) && !ans.emptyDir then -ENOTEMPTY
    else 0
  }

  /** Guards and the flush of a regular file about to become immutable. */
  function BeforeHandle(ans: Answers, kind: Kind, w: bv64, req: bv64): int {
    if FlagsGuard(ans, kind, w, req) != 0 then FlagsGuard(ans, kind, w, req)
    else if kind.Regular? && !ans.vfsImmutable && Has(req, IMMUTABLE_FL) then ans.flushErr
    else 0
  }

  /** Everything before the loop: nonzero means that nothing was changed. */
  function BeforeLoop(ans: Answers, kind: Kind, w: bv64, req: bv64): int {
    if BeforeHandle(ans, kind, w, req) != 0 then BeforeHandle(ans, kind, w, req)
    else if ans.startErr != 0 then ans.startErr
    else ans.reserveErr
  }

  // ---- ext4_ioctl_setflags

  /** An inode whose loop has run: its flag word and the stamps. */
  function Stamped(ans: Answers, s: InodeState, w: bv64): InodeState {
    s.(flags := w, identity := s.identity.(vfsFlags := ans.vfsFlags), ctime := ans.now, version := ans.nextVersion)
  }

  function Looped(ans: Answers, s: InodeState, req: bv64): InodeState {
    Stamped(ans, s, Mix(req, s.flags, SETTABLE))
  }

  datatype Result = Result(err: int, inode: InodeState)

  /** After the handle is stopped without an error come journal mode, then migration, if
      JOURNAL_DATA (`journal`) and EXTENTS (`extents`) differ from the request. */
  function AfterLoopCode(ans: Answers, journal: bool, extents: bool): int {
    if journal && ans.isDax then -EBUSY
    else if journal && ans.journalData.err != 0 then ans.journalData.err
    else if extents then ans.migrate.err
    else 0
  }

  /** Whether each of the two took the requested value. */
  predicate JournalApplied(ans: Answers, journal: bool) {
    journal && !ans.isDax && ans.journalData.applied
  }

  predicate ExtentsApplied(ans: Answers, journal: bool, extents: bool) {
    extents && !(journal && (ans.isDax || ans.journalData.err != 0)) && ans.migrate.applied
  }

  function AfterLoopWord(ans: Answers, w: bv64, req: bv64, journal: bool, extents: bool): bv64 {
    Mix(req, Mix(req, w, Choose(JournalApplied(ans, journal), JOURNAL_DATA_FL)),
        Choose(ExtentsApplied(ans, journal, extents), EXTENTS_FL))
  }

  /** The word a call leaves once its loop has run. */
  function FinalWord(ans: Answers, w: bv64, req: bv64): bv64 {
    var marked := ans.markErr == 0;
    AfterLoopWord(ans, Mix(req, w, SETTABLE), req,
                  marked && Differ(req, w, JOURNAL_DATA_FL), marked && Differ(req, w, EXTENTS_FL))
  }

  function FinalCode(ans: Answers, w: bv64, req: bv64): int {
    if ans.markErr != 0 then ans.markErr
    else AfterLoopCode(ans, Differ(req, w, JOURNAL_DATA_FL), Differ(req, w, EXTENTS_FL))
  }

  /** The handle of a flag change, as the monitor records it. */
  function FlagsWork(ans: Answers, kind: Kind, w: bv64, req: bv64): seq<Transaction> {
    if BeforeHandle(ans, kind, w, req) == 0 && ans.startErr == 0 then [Transaction(1, [], {}, {})] else []
  }

  function SetFlags(ans: Answers, s: InodeState, req: bv64): Result {
    var before := BeforeLoop(ans, s.identity.kind, s.flags, req);
    if before != 0 then Result(before, s)
    else Result(FinalCode(ans, s.flags, req), Stamped(ans, s, FinalWord(ans, s.flags, req)))
  }

  // ---- ext4_ioctl_setproject

  /** Checks that end the call without a handle, some of them with success. */
  function ProjectSettled(cfg: Config, prior: nat, projid: nat): (bool, int) {
    if !cfg.quota || !cfg.hasProject then (true, if projid != DEF_PROJID then -EOPNOTSUPP else 0)
    else if cfg.inodeSize <= GOOD_OLD_INODE_SIZE then (true, -EOPNOTSUPP)
    else (projid == prior, 0)
  }

  function ProjectGuard(p: ProjectAnswers, quotaFile: bool): int {
    if quotaFile then -EPERM
    else if p.dquotInitErr != 0 then p.dquotInitErr
    else if p.locErr != 0 then p.locErr
    else if !p.fits && p.expandErr != 0 then p.expandErr
    else p.startErr
  }

  /** The handle of a project change. */
  function ProjectWork(cfg: Config, ans: Answers, s: InodeState, projid: nat): seq<Transaction> {
    if !ProjectSettled(cfg, s.projid, projid).0 && ProjectGuard(ans.project, ans.quotaFile) == 0
    then [Transaction(ans.project.credits, [], {}, {})] else []
  }

  function SetProject(cfg: Config, ans: Answers, s: InodeState, projid: nat): Result {
    var p := ans.project;
    if ProjectSettled(cfg, s.projid, projid).0 then Result(ProjectSettled(cfg, s.projid, projid).1, s)
    else if ProjectGuard(p, ans.quotaFile) != 0 then Result(ProjectGuard(p, ans.quotaFile), s)
    else if p.reserveErr != 0 then Result(p.reserveErr, s)
    else if p.dquotFound && p.transferErr != 0 then Result(p.transferErr, s)
    else Result(p.markErr, s.(projid := projid, ctime := p.now, version := p.nextVersion))
  }

  // ---- ext4_fileattr_get and ext4_fileattr_set

  /** PROJINHERIT of a regular file is not shown. */
  function Hidden(kind: Kind): bv64 {
    Choose(kind.Regular?, PROJINHERIT_FL)
  }

  function GetFlags(s: InodeState): bv64 {
    (s.flags & USER_VISIBLE) & !Hidden(s.identity.kind)
  }

  function GetProject(cfg: Config, s: InodeState): nat {
    if cfg.hasProject then s.projid else DEF_PROJID
  }

  /** The checks of ext4_fileattr_set before it changes anything. */
  function AttrGuard(cfg: Config, kind: Kind, w: bv64, oldProjid: nat, flags: bv64, projid: nat): int {
    var req := flags & USER_MODIFIABLE;
    if Has(flags, !USER_VISIBLE) then -EOPNOTSUPP
    else if MaskFlags(kind, req) != req then -EOPNOTSUPP
    else CheckImmutable(cfg, w, oldProjid, projid, req)
  }

  function SetAttr(cfg: Config, ans: Answers, s: InodeState, flags: bv64, projid: nat): Result {
    var guard := AttrGuard(cfg, s.identity.kind, s.flags, s.projid, flags, projid);
    if guard != 0 then Result(guard, s)
    else
      var r := SetFlags(ans, s, flags & USER_MODIFIABLE);
      if r.err != 0 then r else SetProject(cfg, ans, r.inode, projid)
  }

  /** The handles of a whole call. */
  function AttrWork(cfg: Config, ans: Answers, s: InodeState, flags: bv64, projid: nat): seq<Transaction> {
    var req := flags & USER_MODIFIABLE;
    if AttrGuard(cfg, s.identity.kind, s.flags, s.projid, flags, projid) != 0 then []
    else
      var r := SetFlags(ans, s, req);
      FlagsWork(ans, s.identity.kind, s.flags, req)
        + if r.err != 0 then [] else ProjectWork(cfg, ans, r.inode, projid)
  }

  // ---- the imperative form

  lemma SettableFlags(bit: bv64)
    requires SingleBit(bit)
    ensures SETTABLE & bit != 0 <==> USER_MODIFIABLE & bit != 0 && bit != JOURNAL_DATA_FL && bit != EXTENTS_FL
  {
  }

  method SetInodeFlag(inode: Inode, bit: nat)
    modifies inode`flags
    ensures inode.flags == Turned(old(inode.flags), true, true, BitOf(bit))
  {
    inode.flags := Turned(inode.flags, true, true, BitOf(bit));
  }

  method ClearInodeFlag(inode: Inode, bit: nat)
    modifies inode`flags
    ensures inode.flags == Turned(old(inode.flags), true, false, BitOf(bit))
  {
    inode.flags := Turned(inode.flags, true, false, BitOf(bit));
  }

  /** The loop over the 32 flags: it comes to one masked assignment. */
  method SetAllFlags(inode: Inode, flags: bv64)
    modifies inode`flags
    ensures inode.flags == Mix(flags, old(inode.flags), SETTABLE)
  {
    var i, mask := 0, 1 as bv64;
    ghost var done: bv64 := 0;
    NothingDone(flags, inode.flags);
    while i < 32
      invariant 0 <= i <= 32 && mask == BitOf(i) && done == mask - 1
      invariant inode.flags == Mix(flags, old(inode.flags), SETTABLE & done)
    {
      BitOfSingle(i);
      NextBelow(mask);
      TurnMixes(old(inode.flags), flags, SETTABLE, done, mask);
      OneFlag(inode, flags, i, mask);
      i, done, mask := i + 1, done | mask, mask << 1;
    }
    BitOf32();
    AllDone();
  }

  method OneFlag(inode: Inode, flags: bv64, i: nat, mask: bv64)
    requires mask == BitOf(i) && SingleBit(mask)
    modifies inode`flags
    ensures inode.flags == Turned(old(inode.flags), SETTABLE & mask != 0, flags & mask != 0, mask)
  {
    SettableFlags(mask);
    if USER_MODIFIABLE & mask == 0 {
      return;
    }
    if mask == JOURNAL_DATA_FL || mask == EXTENTS_FL {
      return;
    }
    if flags & mask != 0 {
      SetInodeFlag(inode, i);
    } else {
      ClearInodeFlag(inode, i);
    }
  }

  lemma NothingDone(req: bv64, w: bv64)
    ensures w == Mix(req, w, SETTABLE & 0)
  {
  }

  lemma AllDone()
    ensures SETTABLE & 0xFFFF_FFFF == SETTABLE
  {
  }

  /** The word after a loop whose inode could not be marked dirty. */
  lemma StampsOnly(ans: Answers, w: bv64, req: bv64)
    requires ans.markErr != 0
    ensures FinalWord(ans, w, req) == Mix(req, w, SETTABLE)
  {
    MixNothing(req, Mix(req, w, SETTABLE));
  }

  lemma UnchosenStays(w: bv64, req: bv64, flag: bv64)
    ensures Mix(req, w, Choose(false, flag)) == w
  {
    MixNothing(req, w);
  }

  class Ioctl {
    const cfg: Config
    var monitor: Monitor

    method Report(e: Event)
      modifies this`monitor
      ensures monitor == Step(old(monitor), e)
    {
      monitor := Step(monitor, e);
    }

    /** ext4_fileattr_set */
    method SetFileAttr(inode: Inode, flags: bv64, projid: nat, ans: Answers) returns (err: int)
      requires Idle(monitor)
      modifies this, inode
      ensures Result(err, inode.State()) == SetAttr(cfg, ans, old(inode.State()), flags, projid)
      ensures monitor == old(monitor).(
        finished := old(monitor).finished + AttrWork(cfg, ans, old(inode.State()), flags, projid))
    {
      if Has(flags, !USER_VISIBLE) {
        return -EOPNOTSUPP;
      }
      var req := flags & USER_MODIFIABLE;
      if MaskFlags(inode.kind, req) != req {
        return -EOPNOTSUPP;
      }
      err := CheckImmutable(cfg, inode.flags, inode.projid, projid, req);
      if err != 0 {
        return;
      }
      err := SetInodeFlags(inode, req, ans);
      if err != 0 {
        return;
      }
      err := SetInodeProject(inode, projid, ans);
    }

    /** ext4_ioctl_setflags */
    method SetInodeFlags(inode: Inode, flags: bv64, ans: Answers) returns (err: int)
      requires Idle(monitor)
      modifies this, inode
      ensures Result(err, inode.State()) == SetFlags(ans, old(inode.State()), flags)
      ensures monitor == old(monitor).(
        finished := old(monitor).finished + FlagsWork(ans, old(inode.kind), old(inode.flags), flags))
    {
      hide Mix, Differ, BeforeHandle, AfterLoopCode, AfterLoopWord;
      var oldflags := inode.flags;
      err := CheckFlags(inode.kind, oldflags, flags, ans);
      if err != 0 {
        return;
      }
      if ans.startErr != 0 {
        return ans.startErr;
      }
      err := WriteInHandle(inode, flags, ans);
      if err != 0 {
        if ans.reserveErr == 0 {
          StampsOnly(ans, oldflags, flags);
        }
        return;
      }
      ghost var looped := inode.State();
      err := SetSpecialFlags(inode, Differ(flags, oldflags, JOURNAL_DATA_FL), Differ(flags, oldflags, EXTENTS_FL),
                             flags, ans);
      assert inode.State() == looped.(flags := FinalWord(ans, oldflags, flags));
    }

    /** The guards in their order, and the flush. */
    method CheckFlags(kind: Kind, oldflags: bv64, flags: bv64, ans: Answers) returns (err: int)
      ensures err == BeforeHandle(ans, kind, oldflags, flags)
    {
      hide Has, Differ, DaxCompatible;
      if ans.quotaFile {
        return -EPERM;
      }
      if Differ(flags, oldflags, JOURNAL_DATA_FL) {
        if !ans.mayJournal {
          return -EPERM;
        }
      }
      if !DaxCompatible(kind, oldflags, flags) {
        return -EOPNOTSUPP;
      }
      if Differ(flags, oldflags, CASEFOLD_FL) {
        if !ans.hasCasefold {
          return -EOPNOTSUPP;
        }
        if !kind.Directory? {
          return -ENOTDIR;
        }
        if !ans.emptyDir {
          return -ENOTEMPTY;
        }
      }
      if kind.Regular? && !ans.vfsImmutable && Has(flags, IMMUTABLE_FL) {
        return ans.flushErr;
      }
      return 0;
    }

    /** From the start of the handle to its stop. */
    method WriteInHandle(inode: Inode, flags: bv64, ans: Answers) returns (err: int)
      requires Idle(monitor)
      modifies this`monitor, inode`flags, inode`vfsFlags, inode`ctime, inode`version
      ensures err == if ans.reserveErr != 0 then ans.reserveErr else ans.markErr
      ensures ans.reserveErr != 0 ==> inode.State() == old(inode.State())
      ensures ans.reserveErr == 0 ==> inode.State() == Looped(ans, old(inode.State()), flags)
      ensures monitor == old(monitor).(finished := old(monitor).finished + [Transaction(1, [], {}, {})])
    {
      hide Looped;
      Report(Start(1));
      err := WriteUnderHandle(inode, flags, ans);
      Report(Stop);
    }

    method WriteUnderHandle(inode: Inode, flags: bv64, ans: Answers) returns (err: int)
      modifies inode`flags, inode`vfsFlags, inode`ctime, inode`version
      ensures err == if ans.reserveErr != 0 then ans.reserveErr else ans.markErr
      ensures ans.reserveErr != 0 ==> inode.State() == old(inode.State())
      ensures ans.reserveErr == 0 ==> inode.State() == Looped(ans, old(inode.State()), flags)
    {
      err := ans.reserveErr;
      if err == 0 {
        WriteFlags(inode, flags, ans);
        err := ans.markErr;
      }
    }

    /** The loop and the stamps after it. */
    method WriteFlags(inode: Inode, flags: bv64, ans: Answers)
      modifies inode`flags, inode`vfsFlags, inode`ctime, inode`version
      ensures inode.State() == Looped(ans, old(inode.State()), flags)
    {
      hide Mix;
      SetAllFlags(inode, flags);
      inode.vfsFlags := ans.vfsFlags;
      inode.ctime := ans.now;
      inode.version := ans.nextVersion;
    }

    /** The two flags that other code changes. */
    method SetSpecialFlags(inode: Inode, journal: bool, extents: bool, flags: bv64, ans: Answers) returns (err: int)
      modifies inode`flags
      ensures err == AfterLoopCode(ans, journal, extents)
      ensures inode.flags == AfterLoopWord(ans, old(inode.flags), flags, journal, extents)
    {
      hide Mix;
      err := 0;
      UnchosenStays(inode.flags, flags, JOURNAL_DATA_FL);
      UnchosenStays(inode.flags, flags, EXTENTS_FL);
      if journal {
        if ans.isDax {
          return -EBUSY;
        }
        err := ChangeElsewhere(inode, JOURNAL_DATA_FL, flags, ans.journalData);
        UnchosenStays(inode.flags, flags, EXTENTS_FL);
        if err != 0 {
          return;
        }
      }
      if extents {
        err := ChangeElsewhere(inode, EXTENTS_FL, flags, ans.migrate);
      }
    }

    /** ext4_change_inode_journal_flag or one of the migrations. */
    method ChangeElsewhere(inode: Inode, flag: bv64, flags: bv64, e: Elsewhere) returns (err: int)
      modifies inode`flags
      ensures err == e.err
      ensures inode.flags == Mix(flags, old(inode.flags), Choose(e.applied, flag))
    {
      inode.flags := Mix(flags, inode.flags, Choose(e.applied, flag));
      err := e.err;
    }

    method WriteProject(inode: Inode, projid: nat, p: ProjectAnswers)
      modifies inode`projid, inode`ctime, inode`version
      ensures inode.State() == old(inode.State()).(projid := projid, ctime := p.now, version := p.nextVersion)
    {
      inode.projid := projid;
      inode.ctime := p.now;
      inode.version := p.nextVersion;
    }

    /** ext4_ioctl_setproject */
    method SetInodeProject(inode: Inode, projid: nat, ans: Answers) returns (err: int)
      requires Idle(monitor)
      modifies this, inode
      ensures Result(err, inode.State()) == SetProject(cfg, ans, old(inode.State()), projid)
      ensures monitor == old(monitor).(
        finished := old(monitor).finished + ProjectWork(cfg, ans, old(inode.State()), projid))
    {
      if !cfg.quota || !cfg.hasProject {
        return if projid != DEF_PROJID then -EOPNOTSUPP else 0;
      }
      if cfg.inodeSize <= GOOD_OLD_INODE_SIZE {
        return -EOPNOTSUPP;
      }
      if projid == inode.projid {
        return 0;
      }
      var p := ans.project;
      err := CheckProject(p, ans.quotaFile);
      if err != 0 {
        return;
      }
      Report(Start(p.credits));
      err := p.reserveErr;
      if err == 0 {
        if p.dquotFound {
          err := p.transferErr;
        }
        if err == 0 {
          WriteProject(inode, projid, p);
          err := p.markErr;
        }
      }
      Report(Stop);
    }

    /** The calls of ext4_ioctl_setproject up to the start of its handle. */
    method CheckProject(p: ProjectAnswers, quotaFile: bool) returns (err: int)
      ensures err == ProjectGuard(p, quotaFile)
    {
      if quotaFile {
        return -EPERM;
      }
      err := p.dquotInitErr;
      if err != 0 {
        return;
      }
      err := p.locErr;
      if err != 0 {
        return;
      }
      if !p.fits {
        err := p.expandErr;
        if err != 0 {
          return;
        }
      }
      err := p.startErr;
    }
  }
}
