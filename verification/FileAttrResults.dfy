/** What setting flags and project answers, and what it changes, for every failure pattern;
    each condition is written out in the flags and the answers themselves. */
module FileAttrResults {
  import opened Errno
  import opened FileAttr
  import opened FileAttrRuns
  import opened FlagBits
  import opened Inodes
  import opened JournalMonitor

  // ---- ext4_ioctl_setflags

  /** VERITY, ENCRYPT and JOURNAL_DATA, and INLINE_DATA but for a directory. */
  function DaxExcluders(kind: Kind): bv64 {
    if kind.Directory? then 0x10_4800 else 0x1010_4800
  }

  predicate DaxConflict(kind: Kind, w: bv64, req: bv64) {
    || (Has(req, DAX_FL) && (Has(w, DaxExcluders(kind)) || Has(w, VERITY_IN_PROGRESS)))
    || (Has(w, DAX_FL) && Has(req, DaxExcluders(kind)))
  }

  lemma ViewedDirectory(x: bv64)
    ensures (x & !INLINE_DATA_FL) & DAX_MUT_EXCL == x & 0x10_4800
    ensures (x & !INLINE_DATA_FL) & DAX_FL == x & DAX_FL
  {
  }

  lemma ViewedOther(x: bv64)
    ensures x & !0 == x
  {
  }

  lemma Viewed(kind: Kind, x: bv64)
    ensures Has(DaxView(kind, x), DAX_MUT_EXCL) == Has(x, DaxExcluders(kind))
    ensures Has(DaxView(kind, x), DAX_FL) == Has(x, DAX_FL)
  {
    if kind.Directory? {
      ViewedDirectory(x);
    } else {
      ViewedOther(x);
    }
  }

  lemma ConflictIff(kind: Kind, w: bv64, req: bv64)
    ensures DaxCompatible(kind, w, req) <==> !DaxConflict(kind, w, req)
  {
    hide Has, DaxView, DaxExcluders;
    Viewed(kind, w);
    Viewed(kind, req);
  }

  /** The failures before anything is written, in their order. */
  function BeforeWrite(ans: Answers, kind: Kind, w: bv64, req: bv64): int {
    FirstOf(FailIf(ans.quotaFile, EPERM),
    FirstOf(FailIf(Differ(req, w, JOURNAL_DATA_FL) && !ans.mayJournal, EPERM),
    FirstOf(FailIf(DaxConflict(kind, w, req), EOPNOTSUPP),
    FirstOf(FailIf(Differ(req, w, CASEFOLD_FL) && !ans.hasCasefold, EOPNOTSUPP),
    FirstOf(FailIf(Differ(req, w, CASEFOLD_FL) && !kind.Directory?, ENOTDIR),
    FirstOf(FailIf(Differ(req, w, CASEFOLD_FL) && !ans.emptyDir, ENOTEMPTY),
    FirstOf(if kind.Regular? && !ans.vfsImmutable && Has(req, IMMUTABLE_FL) then ans.flushErr else 0,
    FirstOf(ans.startErr, ans.reserveErr))))))))
  }

  /** And those after it. */
  function AfterWrite(ans: Answers, w: bv64, req: bv64): int {
    FirstOf(ans.markErr,
    FirstOf(FailIf(Differ(req, w, JOURNAL_DATA_FL) && ans.isDax, EBUSY),
    FirstOf(if Differ(req, w, JOURNAL_DATA_FL) then ans.journalData.err else 0,
            if Differ(req, w, EXTENTS_FL) then ans.migrate.err else 0)))
  }

  lemma GuardsInOrder(ans: Answers, kind: Kind, w: bv64, req: bv64)
    ensures BeforeLoop(ans, kind, w, req) == BeforeWrite(ans, kind, w, req)
    ensures FinalCode(ans, w, req) == AfterWrite(ans, w, req)
  {
    hide Has, Differ, DaxCompatible, DaxConflict;
    ConflictIff(kind, w, req);
  }

  /** The call answers with its first failure, and writes exactly if none came before. */
  lemma FlagsResult(ans: Answers, s: InodeState, req: bv64)
    ensures var r, before := SetFlags(ans, s, req), BeforeWrite(ans, s.identity.kind, s.flags, req);
      && r.err == FirstOf(before, AfterWrite(ans, s.flags, req))
      && r.inode == if before == 0 then Stamped(ans, s, FinalWord(ans, s.flags, req)) else s
  {
    GuardsInOrder(ans, s.identity.kind, s.flags, req);
    hide BeforeLoop, FinalCode, FinalWord, BeforeWrite, AfterWrite;
  }

  // ---- ext4_ioctl_setproject

  /** The failures that leave the project alone, in their order. */
  function BeforeProject(p: ProjectAnswers, quotaFile: bool): int {
    FirstOf(FailIf(quotaFile, EPERM),
    FirstOf(p.dquotInitErr,
    FirstOf(p.locErr,
    FirstOf(if p.fits then 0 else p.expandErr,
    FirstOf(p.startErr,
    FirstOf(p.reserveErr, if p.dquotFound then p.transferErr else 0))))))
  }

  predicate HasProjects(cfg: Config) {
    cfg.quota && cfg.hasProject && cfg.inodeSize > 128
  }

  /** The project changes exactly where there are projects, the request is for another
      one, and everything up to and including the quota transfer succeeds; otherwise the
      inode is left alone.  The answer is the first failure. */
  lemma ProjectResult(cfg: Config, ans: Answers, s: InodeState, projid: nat)
    ensures var r, p := SetProject(cfg, ans, s, projid), ans.project;
      var moves := HasProjects(cfg) && projid != s.projid && BeforeProject(p, ans.quotaFile) == 0;
      && r.inode == (if moves then s.(projid := projid, ctime := p.now, version := p.nextVersion) else s)
      && r.err == if HasProjects(cfg)
                  then (if projid == s.projid then 0 else FirstOf(BeforeProject(p, ans.quotaFile), p.markErr))
                  else FailIf(projid != 0 || (cfg.quota && cfg.hasProject), EOPNOTSUPP)
  {
  }

  /** Which failures those are. */
  lemma ProjectMovesIff(cfg: Config, ans: Answers, s: InodeState, projid: nat)
    ensures var r, p := SetProject(cfg, ans, s, projid), ans.project;
      r.inode.projid != s.projid <==>
        && projid != s.projid && cfg.quota && cfg.hasProject && cfg.inodeSize > 128 && !ans.quotaFile
        && p.dquotInitErr == p.locErr == p.startErr == p.reserveErr == 0
        && (!p.fits ==> p.expandErr == 0) && (p.dquotFound ==> p.transferErr == 0)
    ensures SetProject(cfg, ans, s, projid).inode.projid == s.projid ==> SetProject(cfg, ans, s, projid).inode == s
  {
    ProjectResult(cfg, ans, s, projid);
    hide SetProject;
  }

  // ---- ext4_fileattr_set

  /** Flags a kind of inode cannot have. */
  predicate KindForbids(kind: Kind, req: bv64) {
    match kind
    case Directory => false
    case Regular => Has(req, 0x6003_0000)
    case Other => Has(req, !0xC0)
  }

  /** IMMUTABLE is set and stays requested, and another on-disk flag or the project would
      change. */
  predicate ImmutableForbids(cfg: Config, w: bv64, oldProjid: nat, projid: nat, req: bv64) {
    && Has(w, 0x10) && Has(req, 0x10)
    && (Differ(w, req, 0xFFFF_FFEF) || (cfg.hasProject && oldProjid != projid))
  }

  lemma KindGuard(kind: Kind, flags: bv64)
    ensures MaskFlags(kind, flags & USER_MODIFIABLE) != flags & USER_MODIFIABLE
       <==> KindForbids(kind, flags & USER_MODIFIABLE)
  {
    RequestIsLow(flags);
    var req := flags & USER_MODIFIABLE;
    hide MaskFlags, KindForbids;
    match kind
    case Directory => DirectoryGuard(req);
    case Regular => RegularGuard(req);
    case Other => OtherGuard(req);
  }

  lemma RequestIsLow(flags: bv64)
    ensures (flags & USER_MODIFIABLE) & LOW_HALF == flags & USER_MODIFIABLE
  {
  }

  lemma DirectoryGuard(req: bv64)
    requires req & LOW_HALF == req
    ensures MaskFlags(Directory, req) == req && !KindForbids(Directory, req)
  {
  }

  lemma RegularGuard(req: bv64)
    requires req & LOW_HALF == req
    ensures MaskFlags(Regular, req) != req <==> KindForbids(Regular, req)
  {
    RegularMask(req);
    hide Has;
  }

  lemma RegularMask(req: bv64)
    requires req & LOW_HALF == req
    ensures req & REG_FLMASK != req <==> Has(req, 0x6003_0000)
  {
  }

  lemma OtherGuard(req: bv64)
    ensures MaskFlags(Other, req) != req <==> KindForbids(Other, req)
  {
    OtherMask(req);
  }

  lemma OtherMask(req: bv64)
    ensures req & 0xC0 != req <==> req & !0xC0 != 0
  {
  }

  lemma ImmutableGuard(cfg: Config, w: bv64, oldProjid: nat, projid: nat, flags: bv64)
    ensures CheckImmutable(cfg, w, oldProjid, projid, flags & USER_MODIFIABLE)
         == FailIf(ImmutableForbids(cfg, w, oldProjid, projid, flags & USER_MODIFIABLE), EPERM)
  {
    OtherFlags(w, flags);
    hide SameButImmutable, Differ;
  }

  lemma OtherFlags(w: bv64, flags: bv64)
    ensures SameButImmutable(w, flags & USER_MODIFIABLE) <==> !Differ(w, flags & USER_MODIFIABLE, 0xFFFF_FFEF)
  {
    RequestIsLow(flags);
    OtherFlagsOf(w, flags & USER_MODIFIABLE);
    hide SameButImmutable, Differ;
  }

  /** The on-disk flags but IMMUTABLE. */
  function Others(x: bv64): bv64 {
    x & 0xFFFF_FFEF
  }

  lemma OtherFlagsOf(w: bv64, req: bv64)
    requires req & LOW_HALF == req
    ensures SameButImmutable(w, req) <==> !Differ(w, req, 0xFFFF_FFEF)
  {
    hide SameButImmutable, Differ, Others;
    SameOthers(w, req);
    DifferOthers(w, req);
  }

  lemma SameOthers(w: bv64, req: bv64)
    requires req & LOW_HALF == req
    ensures SameButImmutable(w, req) <==> Others(w) == Others(req)
  {
    hide Others;
    LowOthers(w);
    HighOthers(req);
  }

  lemma DifferOthers(w: bv64, req: bv64)
    ensures Differ(w, req, 0xFFFF_FFEF) <==> Others(w) != Others(req)
  {
    hide Others;
    OthersDiffer(w, req);
    XorOthers(w, req);
    XorZero(Others(w), Others(req));
    hide Differ;
  }

  lemma OthersDiffer(w: bv64, req: bv64)
    ensures Differ(w, req, 0xFFFF_FFEF) <==> Others(w ^ req) != 0
  {
  }

  lemma XorOthers(a: bv64, b: bv64)
    ensures Others(a ^ b) == Others(a) ^ Others(b)
  {
  }

  lemma LowOthers(w: bv64)
    ensures (w & LOW_HALF) & !IMMUTABLE_FL == Others(w)
  {
  }

  lemma HighOthers(req: bv64)
    requires req & LOW_HALF == req
    ensures req & !IMMUTABLE_FL == Others(req)
  {
  }

  lemma XorZero(x: bv64, y: bv64)
    ensures x ^ y == 0 <==> x == y
  {
  }

  /** Every failure that leaves the whole inode alone, in the order of the calls. */
  function BeforeChange(cfg: Config, ans: Answers, s: InodeState, flags: bv64, projid: nat): int {
    var kind, req := s.identity.kind, flags & USER_MODIFIABLE;
    FirstOf(FailIf(Has(flags, !USER_VISIBLE), EOPNOTSUPP),
    FirstOf(FailIf(KindForbids(kind, req), EOPNOTSUPP),
    FirstOf(FailIf(ImmutableForbids(cfg, s.flags, s.projid, projid, req), EPERM),
            BeforeWrite(ans, kind, s.flags, req))))
  }

  lemma GuardIsFirst(cfg: Config, ans: Answers, s: InodeState, flags: bv64, projid: nat)
    ensures AttrGuard(cfg, s.identity.kind, s.flags, s.projid, flags, projid)
         == FirstOf(FailIf(Has(flags, !USER_VISIBLE), EOPNOTSUPP),
            FirstOf(FailIf(KindForbids(s.identity.kind, flags & USER_MODIFIABLE), EOPNOTSUPP),
                    FailIf(ImmutableForbids(cfg, s.flags, s.projid, projid, flags & USER_MODIFIABLE), EPERM)))
  {
    KindGuard(s.identity.kind, flags);
    ImmutableGuard(cfg, s.flags, s.projid, projid, flags);
    hide Has, MaskFlags, KindForbids, ImmutableForbids, CheckImmutable;
  }

  lemma RanIff(cfg: Config, ans: Answers, s: InodeState, flags: bv64, projid: nat)
    ensures Ran(cfg, ans, s, flags, projid) <==> BeforeChange(cfg, ans, s, flags, projid) == 0
  {
    GuardIsFirst(cfg, ans, s, flags, projid);
    GuardsInOrder(ans, s.identity.kind, s.flags, flags & USER_MODIFIABLE);
    hide Has, KindForbids, ImmutableForbids, AttrGuard, BeforeLoop, BeforeWrite;
  }

  /** The outcome of every call.  Nothing is changed if a failure comes before the loop;
      otherwise the stamps are set and, if nothing fails up to the quota transfer and the
      request is for another project, the project.  The answer is the first failure. */
  lemma AttrResult(cfg: Config, ans: Answers, s: InodeState, flags: bv64, projid: nat)
    ensures var r, p, req := SetAttr(cfg, ans, s, flags, projid), ans.project, flags & USER_MODIFIABLE;
      var before, after := BeforeChange(cfg, ans, s, flags, projid), AfterWrite(ans, s.flags, req);
      var moves := after == 0 && HasProjects(cfg) && projid != s.projid && BeforeProject(p, ans.quotaFile) == 0;
      && (before != 0 ==> r == Result(before, s))
      && (before == 0 ==>
            var written := s.(flags := r.inode.flags, identity := s.identity.(vfsFlags := ans.vfsFlags),
                              ctime := ans.now, version := ans.nextVersion);
            r.inode == if moves then written.(projid := projid, ctime := p.now, version := p.nextVersion) else written)
      && (before == 0 && after != 0 ==> r.err == after)
      && (before == 0 && after == 0 ==>
            r.err == if HasProjects(cfg)
                     then (if projid == s.projid then 0 else FirstOf(BeforeProject(p, ans.quotaFile), p.markErr))
                     else FailIf(projid != 0 || (cfg.quota && cfg.hasProject), EOPNOTSUPP))
  {
    var req := flags & USER_MODIFIABLE;
    GuardIsFirst(cfg, ans, s, flags, projid);
    FlagsResult(ans, s, req);
    ProjectResult(cfg, ans, SetFlags(ans, s, req).inode, projid);
    hide Has, KindForbids, ImmutableForbids, AttrGuard, BeforeWrite, AfterWrite, FinalWord, SetFlags, SetProject,
         BeforeProject, HasProjects;
  }

  /** The outside calls that can keep an admissible change of the flags from being written. */
  predicate WriteSucceeds(ans: Answers) {
    && !ans.quotaFile && ans.mayJournal && ans.hasCasefold && ans.emptyDir
    && ans.flushErr == ans.startErr == ans.reserveErr == 0
  }

  /** With the outside calls succeeding and the other guards passed, a call is refused
      exactly if IMMUTABLE is set and stays requested while another on-disk flag or, where
      there are projects, the project would change.  A call that is not refused is carried
      out, and a request without IMMUTABLE clears it. */
  lemma ImmutableRefusedIff(cfg: Config, ans: Answers, s: InodeState, flags: bv64, projid: nat)
    requires WriteSucceeds(ans)
    requires !Has(flags, !USER_VISIBLE) && !KindForbids(s.identity.kind, flags & USER_MODIFIABLE)
    requires !DaxConflict(s.identity.kind, s.flags, flags & USER_MODIFIABLE)
    requires Differ(flags & USER_MODIFIABLE, s.flags, CASEFOLD_FL) ==> s.identity.kind.Directory?
    ensures var r, req := SetAttr(cfg, ans, s, flags, projid), flags & USER_MODIFIABLE;
      var refused := Has(s.flags, 0x10) && Has(req, 0x10)
                     && (Differ(s.flags, req, 0xFFFF_FFEF) || (cfg.hasProject && s.projid != projid));
      && (refused ==> r == Result(-EPERM, s))
      && (!refused ==> (Has(r.inode.flags, 0x10) <==> Has(req, 0x10)) && r.inode.flags & SETTABLE == req & SETTABLE)
  {
    AttrResult(cfg, ans, s, flags, projid);
    RanIff(cfg, ans, s, flags, projid);
    AllOrNothing(cfg, ans, s, flags, projid);
    ImmutableIsSettable(SetAttr(cfg, ans, s, flags, projid).inode.flags, flags & USER_MODIFIABLE);
    hide Has, Differ, KindForbids, DaxConflict, Ran, SetAttr;
  }

  lemma ImmutableIsSettable(x: bv64, req: bv64)
    ensures x & SETTABLE == req & SETTABLE ==> (Has(x, 0x10) <==> Has(req, 0x10))
  {
  }

  /** JOURNAL_DATA and EXTENTS once the loop has run: each is as requested exactly if it
      was to change, the code elsewhere was reached, and that code applied it. */
  lemma SpecialFlagsResult(cfg: Config, ans: Answers, s: InodeState, flags: bv64, projid: nat)
    requires BeforeChange(cfg, ans, s, flags, projid) == 0
    ensures var w, req := SetAttr(cfg, ans, s, flags, projid).inode.flags, flags & USER_MODIFIABLE;
      var journal, extents := Differ(req, s.flags, JOURNAL_DATA_FL), Differ(req, s.flags, EXTENTS_FL);
      var journalSet := ans.markErr == 0 && journal && !ans.isDax && ans.journalData.applied;
      var migrated := && ans.markErr == 0 && extents && ans.migrate.applied
                      && (journal ==> !ans.isDax && ans.journalData.err == 0);
      && Has(w, JOURNAL_DATA_FL) == (if journalSet then Has(req, JOURNAL_DATA_FL) else Has(s.flags, JOURNAL_DATA_FL))
      && Has(w, EXTENTS_FL) == if migrated then Has(req, EXTENTS_FL) else Has(s.flags, EXTENTS_FL)
  {
    hide Has, Differ, FinalWord, SetAttr, BeforeChange, Ran;
    RanIff(cfg, ans, s, flags, projid);
    RanFlags(cfg, ans, s, flags, projid);
    JournalWord(ans, s.flags, flags & USER_MODIFIABLE);
    ExtentsWord(ans, s.flags, flags & USER_MODIFIABLE);
  }

  lemma JournalWord(ans: Answers, w: bv64, req: bv64)
    ensures var journalSet := ans.markErr == 0 && Differ(req, w, JOURNAL_DATA_FL)
                              && !ans.isDax && ans.journalData.applied;
      Has(FinalWord(ans, w, req), JOURNAL_DATA_FL)
        == if journalSet then Has(req, JOURNAL_DATA_FL) else Has(w, JOURNAL_DATA_FL)
  {
    hide Has, Differ, FinalWord;
    FinalJournal(ans, w, req);
  }

  lemma ExtentsWord(ans: Answers, w: bv64, req: bv64)
    ensures var migrated := && ans.markErr == 0 && Differ(req, w, EXTENTS_FL) && ans.migrate.applied
                            && (Differ(req, w, JOURNAL_DATA_FL) ==> !ans.isDax && ans.journalData.err == 0);
      Has(FinalWord(ans, w, req), EXTENTS_FL) == if migrated then Has(req, EXTENTS_FL) else Has(w, EXTENTS_FL)
  {
    hide Has, Differ, FinalWord;
    FinalExtents(ans, w, req);
  }

  /** A change needs a handle, and a change of the project a second one. */
  lemma ChangeNeedsHandle(cfg: Config, ans: Answers, s: InodeState, flags: bv64, projid: nat)
    ensures var r, work := SetAttr(cfg, ans, s, flags, projid).inode, AttrWork(cfg, ans, s, flags, projid);
      && (r != s ==> |work| >= 1 && work[0] == Transaction(1, [], {}, {}))
      && (r.projid != s.projid ==> work == [Transaction(1, [], {}, {}), Transaction(ans.project.credits, [], {}, {})])
  {
    hide AttrGuard, BeforeHandle, FinalWord, FinalCode, ProjectGuard, ProjectSettled;
  }

  // ---- reading back

  /** What reading shows: the visible flags and no other, but PROJINHERIT of a regular file. */
  lemma FlagsShown(s: InodeState)
    ensures s.identity.kind.Regular? ==> GetFlags(s) == s.flags & 0x525B_DFFF
    ensures !s.identity.kind.Regular? ==> GetFlags(s) == s.flags & 0x725B_DFFF
  {
    if s.identity.kind.Regular? {
      ShownRegular(s.flags);
    } else {
      ViewedOther(s.flags & USER_VISIBLE);
    }
  }

  lemma ShownRegular(w: bv64)
    ensures (w & USER_VISIBLE) & !PROJINHERIT_FL == w & 0x525B_DFFF
  {
  }

  /** After a success all the modifiable flags that are read are those that were set, and
      so is the project, but for a kernel without quota on a filesystem with projects:
      there a request for project 0 succeeds and changes nothing. */
  lemma SetThenRead(cfg: Config, ans: Answers, s: InodeState, flags: bv64, projid: nat)
    requires SetAttr(cfg, ans, s, flags, projid).err == 0 && Honest(ans)
    ensures var r := SetAttr(cfg, ans, s, flags, projid).inode;
      && Carries(GetFlags(r), flags)
      && GetProject(cfg, r) == if cfg.hasProject && !cfg.quota then s.projid else projid
  {
    ReadFlags(cfg, ans, s, flags, projid);
    AttrResult(cfg, ans, s, flags, projid);
    hide Has, SetAttr, BeforeChange, BeforeProject, AfterWrite, GetFlags, Carries;
  }

  lemma ReadFlags(cfg: Config, ans: Answers, s: InodeState, flags: bv64, projid: nat)
    requires SetAttr(cfg, ans, s, flags, projid).err == 0 && Honest(ans)
    ensures Carries(GetFlags(SetAttr(cfg, ans, s, flags, projid).inode), flags)
  {
    hide SetAttr, GetFlags, KindForbids, Carries;
    SuccessMeansSet(cfg, ans, s, flags, projid);
    SuccessKind(cfg, ans, s, flags, projid);
    ReadWord(SetAttr(cfg, ans, s, flags, projid).inode, flags);
  }

  lemma SuccessKind(cfg: Config, ans: Answers, s: InodeState, flags: bv64, projid: nat)
    requires SetAttr(cfg, ans, s, flags, projid).err == 0
    ensures !KindForbids(SetAttr(cfg, ans, s, flags, projid).inode.identity.kind, flags & USER_MODIFIABLE)
  {
    AttrResult(cfg, ans, s, flags, projid);
    hide Has, SetAttr, KindForbids, ImmutableForbids, BeforeWrite, BeforeProject, AfterWrite;
  }

  lemma ReadWord(r: InodeState, flags: bv64)
    requires Carries(r.flags, flags) && !KindForbids(r.identity.kind, flags & USER_MODIFIABLE)
    ensures Carries(GetFlags(r), flags)
  {
    if r.identity.kind.Regular? {
      ReadRegular(r, flags);
    } else {
      ReadOther(r, flags);
    }
    hide GetFlags, KindForbids, Carries;
  }

  lemma ReadRegular(r: InodeState, flags: bv64)
    requires r.identity.kind.Regular?
    requires Carries(r.flags, flags) && !KindForbids(Regular, flags & USER_MODIFIABLE)
    ensures Carries(GetFlags(r), flags)
  {
    FlagsShown(r);
    ShownModifiable(r.flags, flags);
    hide GetFlags;
  }

  lemma ReadOther(r: InodeState, flags: bv64)
    requires !r.identity.kind.Regular? && Carries(r.flags, flags)
    ensures Carries(GetFlags(r), flags)
  {
    FlagsShown(r);
    VisibleModifiable(r.flags);
    hide GetFlags;
  }

  lemma ShownModifiable(w: bv64, flags: bv64)
    requires Carries(w, flags) && !Has(flags & USER_MODIFIABLE, 0x6003_0000)
    ensures Carries(w & 0x525B_DFFF, flags)
  {
  }

  lemma VisibleModifiable(w: bv64)
    ensures (w & 0x725B_DFFF) & USER_MODIFIABLE == w & USER_MODIFIABLE
  {
  }
}
