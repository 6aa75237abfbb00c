/** What flag setting promises, for every failure pattern and over every run. */
module FileAttrRuns {
  import opened Inodes
  import opened FileAttr
  import opened FlagBits

  // ---- words

  lemma ChosenOutside(b: bool, f: bv64, mask: bv64)
    requires mask & f == 0
    ensures mask & Choose(b, f) == 0
  {
  }

  /** What comes after the loop keeps every flag but JOURNAL_DATA and EXTENTS. */
  lemma AfterLoopKeeps(ans: Answers, w: bv64, req: bv64, journal: bool, extents: bool, mask: bv64)
    requires mask & JOURNAL_DATA_FL == 0 && mask & EXTENTS_FL == 0
    ensures AfterLoopWord(ans, w, req, journal, extents) & mask == w & mask
  {
    var j := Choose(JournalApplied(ans, journal), JOURNAL_DATA_FL);
    var e := Choose(ExtentsApplied(ans, journal, extents), EXTENTS_FL);
    ChosenOutside(JournalApplied(ans, journal), JOURNAL_DATA_FL, mask);
    ChosenOutside(ExtentsApplied(ans, journal, extents), EXTENTS_FL, mask);
    MixOutside(req, w, j, mask);
    MixOutside(req, Mix(req, w, j), e, mask);
  }

  /** Did the loop run? */
  predicate Ran(cfg: Config, ans: Answers, s: InodeState, flags: bv64, projid: nat) {
    && AttrGuard(cfg, s.identity.kind, s.flags, s.projid, flags, projid) == 0
    && BeforeLoop(ans, s.identity.kind, s.flags, flags & USER_MODIFIABLE) == 0
  }

  lemma RanFlags(cfg: Config, ans: Answers, s: InodeState, flags: bv64, projid: nat)
    requires Ran(cfg, ans, s, flags, projid)
    ensures SetAttr(cfg, ans, s, flags, projid).inode.flags == FinalWord(ans, s.flags, flags & USER_MODIFIABLE)
  {
    var r := SetFlags(ans, s, flags & USER_MODIFIABLE);
    assert r.inode.flags == FinalWord(ans, s.flags, flags & USER_MODIFIABLE);
    ProjectKeeps(cfg, ans, r.inode, projid);
  }

  /** Setting the project changes nothing but the project and two stamps. */
  lemma ProjectKeeps(cfg: Config, ans: Answers, s: InodeState, projid: nat)
    ensures var r := SetProject(cfg, ans, s, projid).inode;
      && r.flags == s.flags && r.identity == s.identity && r.contents == s.contents
      && r.blocks == s.blocks && r.bytes == s.bytes && (r.projid == s.projid || r.projid == projid)
  {
  }

  /** Once the loop has run: the settable flags as requested. */
  lemma FinalSettable(ans: Answers, w: bv64, req: bv64)
    ensures FinalWord(ans, w, req) & SETTABLE == req & SETTABLE
  {
    var marked := ans.markErr == 0;
    AfterLoopKeeps(ans, Mix(req, w, SETTABLE), req,
                   marked && Differ(req, w, JOURNAL_DATA_FL), marked && Differ(req, w, EXTENTS_FL), SETTABLE);
    MixParts(req, w, SETTABLE);
  }

  /** A flag the user cannot modify, and every state bit, as before. */
  lemma FinalOutside(ans: Answers, w: bv64, req: bv64, mask: bv64)
    requires mask & SETTABLE == 0 && mask & JOURNAL_DATA_FL == 0 && mask & EXTENTS_FL == 0
    ensures FinalWord(ans, w, req) & mask == w & mask
  {
    hide Mix, AfterLoopWord;
    var marked := ans.markErr == 0;
    AfterLoopKeeps(ans, Mix(req, w, SETTABLE), req,
                   marked && Differ(req, w, JOURNAL_DATA_FL), marked && Differ(req, w, EXTENTS_FL), mask);
    MixOutside(req, w, SETTABLE, mask);
  }

  /** On every exit the settable flags are all as requested or all as before, an inode
      whose loop did not run is untouched and the call failed, and no flag outside the
      modifiable ones, no state bit, and nothing of the contents ever changes. */
  lemma AllOrNothing(cfg: Config, ans: Answers, s: InodeState, flags: bv64, projid: nat)
    ensures var r, req := SetAttr(cfg, ans, s, flags, projid), flags & USER_MODIFIABLE;
      && (Ran(cfg, ans, s, flags, projid) ==> r.inode.flags & SETTABLE == req & SETTABLE)
      && (!Ran(cfg, ans, s, flags, projid) ==> r.inode == s && r.err != 0)
      && r.inode.flags & !USER_MODIFIABLE == s.flags & !USER_MODIFIABLE
      && (r.inode.projid == s.projid || r.inode.projid == projid)
      && r.inode.contents == s.contents && Usage(r.inode) == Usage(s)
      && r.inode.identity.(vfsFlags := 0) == s.identity.(vfsFlags := 0)
  {
    hide FinalWord, FinalCode, BeforeLoop, AttrGuard;
    if Ran(cfg, ans, s, flags, projid) {
      RanFlags(cfg, ans, s, flags, projid);
      FinalSettable(ans, s.flags, flags & USER_MODIFIABLE);
      FinalOutside(ans, s.flags, flags & USER_MODIFIABLE, !USER_MODIFIABLE);
      ProjectKeeps(cfg, ans, SetFlags(ans, s, flags & USER_MODIFIABLE).inode, projid);
    }
  }

  // ---- guards

  lemma GuardOfRan(cfg: Config, ans: Answers, s: InodeState, flags: bv64, projid: nat)
    requires Ran(cfg, ans, s, flags, projid)
    ensures var req := flags & USER_MODIFIABLE;
      && !ans.quotaFile && (Differ(req, s.flags, JOURNAL_DATA_FL) ==> ans.mayJournal)
      && (Differ(req, s.flags, CASEFOLD_FL) ==> ans.hasCasefold && s.identity.kind.Directory? && ans.emptyDir)
  {
  }

  lemma CasefoldOfSettable(x: bv64, req: bv64, w: bv64)
    requires x & SETTABLE == req & SETTABLE && Has(x, CASEFOLD_FL) != Has(w, CASEFOLD_FL)
    ensures Differ(req, w, CASEFOLD_FL)
  {
  }

  /** Whatever a call leaves behind, it has respected the guards: nothing changes on a
      quota file, JOURNAL_DATA changes only for a caller with the capability, CASEFOLD
      only on an empty directory of a filesystem that has the feature. */
  lemma GuardsHold(cfg: Config, ans: Answers, s: InodeState, flags: bv64, projid: nat)
    ensures var w := SetAttr(cfg, ans, s, flags, projid).inode.flags;
      && (ans.quotaFile ==> SetAttr(cfg, ans, s, flags, projid).inode == s)
      && (Has(w, JOURNAL_DATA_FL) != Has(s.flags, JOURNAL_DATA_FL) ==> ans.mayJournal)
      && (Has(w, CASEFOLD_FL) != Has(s.flags, CASEFOLD_FL) ==>
            ans.hasCasefold && s.identity.kind.Directory? && ans.emptyDir)
  {
    if Ran(cfg, ans, s, flags, projid) {
      GuardOfRan(cfg, ans, s, flags, projid);
      RanFlags(cfg, ans, s, flags, projid);
      GuardedJournal(ans, s.flags, flags & USER_MODIFIABLE);
      GuardedCasefold(ans, s.flags, flags & USER_MODIFIABLE);
    }
  }

  lemma GuardedJournal(ans: Answers, w: bv64, req: bv64)
    ensures Has(FinalWord(ans, w, req), JOURNAL_DATA_FL) != Has(w, JOURNAL_DATA_FL) ==> Differ(req, w, JOURNAL_DATA_FL)
  {
    FinalJournal(ans, w, req);
  }

  lemma GuardedCasefold(ans: Answers, w: bv64, req: bv64)
    ensures Has(FinalWord(ans, w, req), CASEFOLD_FL) != Has(w, CASEFOLD_FL) ==> Differ(req, w, CASEFOLD_FL)
  {
    FinalSettable(ans, w, req);
    if Has(FinalWord(ans, w, req), CASEFOLD_FL) != Has(w, CASEFOLD_FL) {
      CasefoldOfSettable(FinalWord(ans, w, req), req, w);
    }
  }

  // ---- immutable inodes

  lemma SameRequest(w: bv64, req: bv64)
    requires SameButImmutable(w, req) && Has(w, IMMUTABLE_FL) && Has(req, IMMUTABLE_FL)
    ensures req == w & LOW_HALF
  {
  }

  lemma NothingToDo(w: bv64, req: bv64)
    requires req == w & LOW_HALF
    ensures Mix(req, w, SETTABLE) == w
    ensures !Differ(req, w, JOURNAL_DATA_FL) && !Differ(req, w, EXTENTS_FL)
  {
  }

  lemma LoopSetsImmutable(w: bv64, req: bv64)
    requires w & SETTABLE == req & SETTABLE && Has(w, IMMUTABLE_FL)
    ensures Has(req, IMMUTABLE_FL)
  {
  }

  lemma NothingChosen(ans: Answers, w: bv64, req: bv64)
    requires req == w & LOW_HALF
    ensures FinalWord(ans, w, req) == w
  {
    NothingToDo(w, req);
    MixNothing(req, w);
  }

  lemma ImmutableRequest(ans: Answers, w: bv64, req: bv64)
    requires Has(w, IMMUTABLE_FL) && Has(FinalWord(ans, w, req), IMMUTABLE_FL)
    ensures Has(req, IMMUTABLE_FL)
  {
    FinalSettable(ans, w, req);
    LoopSetsImmutable(FinalWord(ans, w, req), req);
  }

  lemma ImmutableWord(ans: Answers, w: bv64, req: bv64)
    requires Has(w, IMMUTABLE_FL) && Has(req, IMMUTABLE_FL) && SameButImmutable(w, req)
    ensures FinalWord(ans, w, req) == w
  {
    SameRequest(w, req);
    NothingChosen(ans, w, req);
  }

  /** A call that finds IMMUTABLE set and leaves it set changes no flag and no project. */
  lemma ImmutableStep(cfg: Config, ans: Answers, s: InodeState, flags: bv64, projid: nat)
    requires Has(s.flags, IMMUTABLE_FL) && Has(SetAttr(cfg, ans, s, flags, projid).inode.flags, IMMUTABLE_FL)
    ensures var r := SetAttr(cfg, ans, s, flags, projid).inode;
      r.flags == s.flags && r.projid == s.projid
  {
    if Ran(cfg, ans, s, flags, projid) {
      RanFlags(cfg, ans, s, flags, projid);
      ImmutableRequest(ans, s.flags, flags & USER_MODIFIABLE);
      ImmutableWord(ans, s.flags, flags & USER_MODIFIABLE);
      ImmutableProject(cfg, ans, s, flags, projid);
    }
  }

  lemma ImmutableProject(cfg: Config, ans: Answers, s: InodeState, flags: bv64, projid: nat)
    requires AttrGuard(cfg, s.identity.kind, s.flags, s.projid, flags, projid) == 0
    requires Has(s.flags, IMMUTABLE_FL) && Has(flags & USER_MODIFIABLE, IMMUTABLE_FL)
    ensures SetAttr(cfg, ans, s, flags, projid).inode.projid == s.projid
  {
  }

  datatype Call = Call(answers: Answers, flags: bv64, projid: nat)

  function Run(cfg: Config, s: InodeState, calls: seq<Call>): InodeState {
    if calls == [] then s
    else
      var last := calls[|calls| - 1];
      SetAttr(cfg, last.answers, Run(cfg, s, calls[..|calls| - 1]), last.flags, last.projid).inode
  }

  /** While IMMUTABLE stays set, a run of calls changes no flag and no project. */
  lemma {:induction false} ImmutableRun(cfg: Config, s: InodeState, calls: seq<Call>)
    requires forall n :: 0 <= n <= |calls| ==> Has(Run(cfg, s, calls[..n]).flags, IMMUTABLE_FL)
    ensures Run(cfg, s, calls).flags == s.flags && Run(cfg, s, calls).projid == s.projid
  {
    if calls != [] {
      var front, last := calls[..|calls| - 1], calls[|calls| - 1];
      assert forall n :: 0 <= n <= |front| ==> front[..n] == calls[..n];
      assert calls[..|calls|] == calls;
      ImmutableRun(cfg, s, front);
      ImmutableStep(cfg, last.answers, Run(cfg, s, front), last.flags, last.projid);
    }
  }

  // ---- DAX

  /** DAX does not stand beside a flag that excludes it.  (A directory may be inline.) */
  predicate DaxClean(s: InodeState) {
    var w := DaxView(s.identity.kind, s.flags);
    !(Has(w, DAX_FL) && Has(w, DAX_MUT_EXCL))
  }

  predicate AsksForBoth(flags: bv64) {
    Has(flags, DAX_FL) && Has(flags, JOURNAL_DATA_FL)
  }

  /** The flags that exclude DAX, but for JOURNAL_DATA: none of them is modifiable. */
  const REST_EXCL: bv64 := 0x1010_0800

  lemma SameDax(kind: Kind, x: bv64, req: bv64)
    requires x & SETTABLE == req & SETTABLE
    ensures Has(DaxView(kind, x), DAX_FL) == Has(req, DAX_FL)
  {
  }

  lemma OnlyJournalLeft(kind: Kind, x: bv64, w: bv64)
    requires x & REST_EXCL == w & REST_EXCL && !Has(DaxView(kind, w), DAX_MUT_EXCL)
    ensures Has(DaxView(kind, x), DAX_MUT_EXCL) == Has(x, JOURNAL_DATA_FL)
    ensures !Has(w, JOURNAL_DATA_FL)
  {
  }

  lemma DifferFromClear(req: bv64, w: bv64)
    requires !Has(w, JOURNAL_DATA_FL)
    ensures Differ(req, w, JOURNAL_DATA_FL) == Has(req, JOURNAL_DATA_FL)
  {
  }

  lemma ChosenBit(req: bv64, x: bv64, b: bool)
    ensures Has(Mix(req, x, Choose(b, JOURNAL_DATA_FL)), JOURNAL_DATA_FL)
         == Has(if b then req else x, JOURNAL_DATA_FL)
  {
    if b {
      assert Choose(b, JOURNAL_DATA_FL) == JOURNAL_DATA_FL;
    } else {
      MixNothing(req, x);
    }
  }

  lemma MigrationKeepsJournal(req: bv64, x: bv64, b: bool)
    ensures Has(Mix(req, x, Choose(b, EXTENTS_FL)), JOURNAL_DATA_FL) == Has(x, JOURNAL_DATA_FL)
  {
    ChosenOutside(b, EXTENTS_FL, JOURNAL_DATA_FL);
    MixOutside(req, x, Choose(b, EXTENTS_FL), JOURNAL_DATA_FL);
  }

  lemma LoopKeepsJournal(req: bv64, x: bv64)
    ensures Has(Mix(req, x, SETTABLE), JOURNAL_DATA_FL) == Has(x, JOURNAL_DATA_FL)
  {
    MixOutside(req, x, SETTABLE, JOURNAL_DATA_FL);
  }

  lemma FinalJournal(ans: Answers, w: bv64, req: bv64)
    ensures var j := JournalApplied(ans, ans.markErr == 0 && Differ(req, w, JOURNAL_DATA_FL));
      Has(FinalWord(ans, w, req), JOURNAL_DATA_FL) == Has(if j then req else w, JOURNAL_DATA_FL)
  {
    hide Mix, Choose, Differ;
    var marked := ans.markErr == 0;
    var journal, extents := marked && Differ(req, w, JOURNAL_DATA_FL), marked && Differ(req, w, EXTENTS_FL);
    var w1 := Mix(req, w, SETTABLE);
    var w2 := Mix(req, w1, Choose(JournalApplied(ans, journal), JOURNAL_DATA_FL));
    LoopKeepsJournal(req, w);
    ChosenBit(req, w1, JournalApplied(ans, journal));
    MigrationKeepsJournal(req, w2, ExtentsApplied(ans, journal, extents));
  }

  lemma FinalDax(ans: Answers, kind: Kind, w: bv64, req: bv64)
    ensures Has(DaxView(kind, FinalWord(ans, w, req)), DAX_FL) == Has(req, DAX_FL)
  {
    FinalSettable(ans, w, req);
    SameDax(kind, FinalWord(ans, w, req), req);
  }

  lemma FinalExcl(ans: Answers, kind: Kind, w: bv64, req: bv64)
    requires !Has(DaxView(kind, w), DAX_MUT_EXCL)
    ensures Has(DaxView(kind, FinalWord(ans, w, req)), DAX_MUT_EXCL)
        <==> Has(req, JOURNAL_DATA_FL) && ans.markErr == 0 && !ans.isDax && ans.journalData.applied
  {
    FinalOutside(ans, w, req, REST_EXCL);
    OnlyJournalLeft(kind, FinalWord(ans, w, req), w);
    FinalJournal(ans, w, req);
    DifferFromClear(req, w);
  }

  lemma CompatibleWithDax(kind: Kind, w: bv64, req: bv64)
    requires DaxCompatible(kind, w, req) && Has(req, DAX_FL)
    ensures !Has(DaxView(kind, w), DAX_MUT_EXCL)
  {
    RequestedDax(kind, req);
  }

  lemma RequestedDax(kind: Kind, req: bv64)
    ensures Has(DaxView(kind, req), DAX_FL) == Has(req, DAX_FL)
  {
  }

  /** The word after a loop that ran on a clean inode is clean unless the request asks for
      DAX and JOURNAL_DATA together and the journal code grants the latter. */
  lemma FinalClean(ans: Answers, kind: Kind, w: bv64, req: bv64)
    requires DaxCompatible(kind, w, req)
    ensures var v := DaxView(kind, FinalWord(ans, w, req));
      (Has(v, DAX_FL) && Has(v, DAX_MUT_EXCL))
      <==> (AsksForBoth(req) && ans.markErr == 0 && !ans.isDax && ans.journalData.applied)
  {
    FinalDax(ans, kind, w, req);
    if Has(req, DAX_FL) {
      CompatibleWithDax(kind, w, req);
      FinalExcl(ans, kind, w, req);
    }
  }

  lemma RanIsCompatible(cfg: Config, ans: Answers, s: InodeState, flags: bv64, projid: nat)
    requires Ran(cfg, ans, s, flags, projid)
    ensures DaxCompatible(s.identity.kind, s.flags, flags & USER_MODIFIABLE)
  {
  }

  lemma KindStays(cfg: Config, ans: Answers, s: InodeState, flags: bv64, projid: nat)
    requires Ran(cfg, ans, s, flags, projid)
    ensures SetAttr(cfg, ans, s, flags, projid).inode.identity.kind == s.identity.kind
  {
    hide BeforeLoop, Looped, FinalWord, SetProject, MaskFlags, CheckImmutable;
    FlagsKeepKind(ans, s, flags & USER_MODIFIABLE);
    ProjectKeeps(cfg, ans, SetFlags(ans, s, flags & USER_MODIFIABLE).inode, projid);
  }

  lemma FlagsKeepKind(ans: Answers, s: InodeState, req: bv64)
    ensures SetFlags(ans, s, req).inode.identity.kind == s.identity.kind
  {
    hide BeforeLoop, FinalWord, FinalCode, Mix;
  }

  /** A call keeps a clean inode clean, with one exception: the compatibility check reads
      only the old flags, so a request for DAX and JOURNAL_DATA together passes it. */
  lemma DaxStepIff(cfg: Config, ans: Answers, s: InodeState, flags: bv64, projid: nat)
    requires DaxClean(s)
    ensures !DaxClean(SetAttr(cfg, ans, s, flags, projid).inode)
       <==> Ran(cfg, ans, s, flags, projid) && AsksForBoth(flags & USER_MODIFIABLE)
            && ans.markErr == 0 && !ans.isDax && ans.journalData.applied
  {
    if Ran(cfg, ans, s, flags, projid) {
      RanFlags(cfg, ans, s, flags, projid);
      RanIsCompatible(cfg, ans, s, flags, projid);
      KindStays(cfg, ans, s, flags, projid);
      FinalClean(ans, s.identity.kind, s.flags, flags & USER_MODIFIABLE);
    }
  }

  /** What a caller can see before the call: the request passes every check that depends
      on the inode and the request alone. */
  predicate Admitted(cfg: Config, s: InodeState, flags: bv64, projid: nat) {
    var req := flags & USER_MODIFIABLE;
    && AttrGuard(cfg, s.identity.kind, s.flags, s.projid, flags, projid) == 0
    && DaxCompatible(s.identity.kind, s.flags, req)
    && (Differ(req, s.flags, CASEFOLD_FL) ==> s.identity.kind.Directory?)
  }

  /** So for a clean inode a request is safe, whatever happens during the call, if and
      only if it does not ask for both or is not admitted. */
  lemma DaxSafeIff(cfg: Config, s: InodeState, flags: bv64, projid: nat)
    requires DaxClean(s)
    ensures (forall ans: Answers :: DaxClean(SetAttr(cfg, ans, s, flags, projid).inode))
       <==> !(Admitted(cfg, s, flags, projid) && AsksForBoth(flags & USER_MODIFIABLE))
  {
    if Admitted(cfg, s, flags, projid) && AsksForBoth(flags & USER_MODIFIABLE) {
      var ok := Elsewhere(0, true);
      var ans := Answers(false, true, true, true, true, 0, 0, 0, 0, Time(0, 0), 0, 0, false, ok, ok,
                         ProjectAnswers(0, 0, true, 0, 0, 0, 0, false, 0, Time(0, 0), 0, 0));
      assert Ran(cfg, ans, s, flags, projid);
      DaxStepIff(cfg, ans, s, flags, projid);
      assert !DaxClean(SetAttr(cfg, ans, s, flags, projid).inode);
    } else {
      forall ans: Answers
        ensures DaxClean(SetAttr(cfg, ans, s, flags, projid).inode)
      {
        DaxStepIff(cfg, ans, s, flags, projid);
        if Ran(cfg, ans, s, flags, projid) {
          RanIsCompatible(cfg, ans, s, flags, projid);
        }
      }
    }
  }

  /** The failing request exists: DAX and JOURNAL_DATA for a regular file without flags. */
  lemma BothAdmitted(cfg: Config, s: InodeState)
    requires s.flags == 0 && s.identity.kind.Regular?
    ensures DaxClean(s) && Admitted(cfg, s, 0x200_4000, s.projid) && AsksForBoth(0x200_4000 & USER_MODIFIABLE)
  {
    assert 0x200_4000 & USER_MODIFIABLE == 0x200_4000 as bv64;
    assert !Has(0x200_4000, !USER_VISIBLE) && MaskFlags(Regular, 0x200_4000) == 0x200_4000;
  }

  /** Over every run in which no request asks for both, DAX never stands beside a flag
      that excludes it. */
  lemma {:induction false} DaxRun(cfg: Config, s: InodeState, calls: seq<Call>)
    requires DaxClean(s)
    requires forall c :: c in calls ==> !AsksForBoth(c.flags & USER_MODIFIABLE)
    ensures DaxClean(Run(cfg, s, calls))
  {
    if calls != [] {
      var front, last := calls[..|calls| - 1], calls[|calls| - 1];
      DaxRun(cfg, s, front);
      DaxStepIff(cfg, last.answers, Run(cfg, s, front), last.flags, last.projid);
    }
  }

  // ---- success

  lemma ExtentsBit(req: bv64, x: bv64, b: bool)
    ensures Has(Mix(req, x, Choose(b, EXTENTS_FL)), EXTENTS_FL) == Has(if b then req else x, EXTENTS_FL)
  {
    if b {
      assert Choose(b, EXTENTS_FL) == EXTENTS_FL;
    } else {
      MixNothing(req, x);
    }
  }

  lemma JournalKeepsExtents(req: bv64, x: bv64, b: bool)
    ensures Has(Mix(req, x, Choose(b, JOURNAL_DATA_FL)), EXTENTS_FL) == Has(x, EXTENTS_FL)
  {
    ChosenOutside(b, JOURNAL_DATA_FL, EXTENTS_FL);
    MixOutside(req, x, Choose(b, JOURNAL_DATA_FL), EXTENTS_FL);
  }

  lemma LoopKeepsExtents(req: bv64, x: bv64)
    ensures Has(Mix(req, x, SETTABLE), EXTENTS_FL) == Has(x, EXTENTS_FL)
  {
    MixOutside(req, x, SETTABLE, EXTENTS_FL);
  }

  lemma FinalExtents(ans: Answers, w: bv64, req: bv64)
    ensures var marked := ans.markErr == 0;
      var e := ExtentsApplied(ans, marked && Differ(req, w, JOURNAL_DATA_FL), marked && Differ(req, w, EXTENTS_FL));
      Has(FinalWord(ans, w, req), EXTENTS_FL) == Has(if e then req else w, EXTENTS_FL)
  {
    hide Mix, Choose, Differ;
    var marked := ans.markErr == 0;
    var journal, extents := marked && Differ(req, w, JOURNAL_DATA_FL), marked && Differ(req, w, EXTENTS_FL);
    var w1 := Mix(req, w, SETTABLE);
    var w2 := Mix(req, w1, Choose(JournalApplied(ans, journal), JOURNAL_DATA_FL));
    LoopKeepsExtents(req, w);
    JournalKeepsExtents(req, w1, JournalApplied(ans, journal));
    ExtentsBit(req, w2, ExtentsApplied(ans, journal, extents));
  }

  lemma SameBit(req: bv64, w: bv64)
    ensures !Differ(req, w, JOURNAL_DATA_FL) ==> Has(req, JOURNAL_DATA_FL) == Has(w, JOURNAL_DATA_FL)
    ensures !Differ(req, w, EXTENTS_FL) ==> Has(req, EXTENTS_FL) == Has(w, EXTENTS_FL)
  {
  }

  predicate Matches(x: bv64, req: bv64) {
    && x & SETTABLE == req & SETTABLE
    && Has(x, JOURNAL_DATA_FL) == Has(req, JOURNAL_DATA_FL) && Has(x, EXTENTS_FL) == Has(req, EXTENTS_FL)
  }

  /** The modifiable flags are the requested ones. */
  predicate Carries(x: bv64, flags: bv64) {
    x & USER_MODIFIABLE == flags & USER_MODIFIABLE
  }

  lemma PartsMakeRequest(x: bv64, req: bv64)
    requires Matches(x, req)
    ensures Carries(x, req)
  {
  }

  lemma CarriesRequest(x: bv64, flags: bv64)
    requires Carries(x, flags & USER_MODIFIABLE)
    ensures Carries(x, flags)
  {
  }

  /** The code elsewhere does what it reports. */
  predicate Honest(ans: Answers) {
    (ans.journalData.err == 0 ==> ans.journalData.applied) && (ans.migrate.err == 0 ==> ans.migrate.applied)
  }

  lemma FinalJournalDone(ans: Answers, w: bv64, req: bv64)
    requires FinalCode(ans, w, req) == 0 && Honest(ans)
    ensures Has(FinalWord(ans, w, req), JOURNAL_DATA_FL) == Has(req, JOURNAL_DATA_FL)
  {
    FinalJournal(ans, w, req);
    SameBit(req, w);
  }

  lemma FinalExtentsDone(ans: Answers, w: bv64, req: bv64)
    requires FinalCode(ans, w, req) == 0 && Honest(ans)
    ensures Has(FinalWord(ans, w, req), EXTENTS_FL) == Has(req, EXTENTS_FL)
  {
    FinalExtents(ans, w, req);
    SameBit(req, w);
  }

  lemma FinalMatches(ans: Answers, w: bv64, req: bv64)
    requires FinalCode(ans, w, req) == 0 && Honest(ans)
    ensures Matches(FinalWord(ans, w, req), req)
  {
    FinalSettable(ans, w, req);
    FinalJournalDone(ans, w, req);
    FinalExtentsDone(ans, w, req);
  }

  lemma SuccessRan(cfg: Config, ans: Answers, s: InodeState, flags: bv64, projid: nat)
    requires SetAttr(cfg, ans, s, flags, projid).err == 0
    ensures Ran(cfg, ans, s, flags, projid) && FinalCode(ans, s.flags, flags & USER_MODIFIABLE) == 0
    ensures SetAttr(cfg, ans, s, flags, projid).inode.projid
         == (if cfg.quota && cfg.hasProject then projid else s.projid)
  {
  }

  /** A call that returns 0 leaves exactly the modifiable flags that were requested, all
      of them, and the project that was requested where projects exist. */
  lemma SuccessMeansSet(cfg: Config, ans: Answers, s: InodeState, flags: bv64, projid: nat)
    requires SetAttr(cfg, ans, s, flags, projid).err == 0 && Honest(ans)
    ensures Carries(SetAttr(cfg, ans, s, flags, projid).inode.flags, flags)
    ensures cfg.quota && cfg.hasProject ==> SetAttr(cfg, ans, s, flags, projid).inode.projid == projid
  {
    hide Carries, FinalWord, FinalCode, SetAttr, Ran;
    SuccessRan(cfg, ans, s, flags, projid);
    RanFlags(cfg, ans, s, flags, projid);
    FinalMatches(ans, s.flags, flags & USER_MODIFIABLE);
    PartsMakeRequest(FinalWord(ans, s.flags, flags & USER_MODIFIABLE), flags & USER_MODIFIABLE);
    CarriesRequest(FinalWord(ans, s.flags, flags & USER_MODIFIABLE), flags);
  }

  // ---- reading the flags and setting them again

  lemma EchoWord(w: bv64, req: bv64, hidden: bv64)
    requires req == ((w & USER_VISIBLE) & !hidden) & USER_MODIFIABLE
    requires hidden & SETTABLE == hidden
    ensures Mix(req, w, SETTABLE) == w & !hidden
  {
  }

  lemma EchoAgrees(w: bv64, req: bv64, hidden: bv64)
    requires req == ((w & USER_VISIBLE) & !hidden) & USER_MODIFIABLE
    requires hidden & SETTABLE == hidden
    ensures !Differ(req, w, JOURNAL_DATA_FL) && !Differ(req, w, EXTENTS_FL)
  {
  }

  /** chattr reads, edits and writes back.  Writing back unedited what was read, flags and
      project, leaves the whole inode as it was, but for the stamps and one flag, and only
      if the loop runs: PROJINHERIT of a regular file is hidden from the reader, so the
      call clears it. */
  lemma GetThenSet(cfg: Config, ans: Answers, s: InodeState)
    ensures SetAttr(cfg, ans, s, GetFlags(s), GetProject(cfg, s)).inode
         == if Ran(cfg, ans, s, GetFlags(s), GetProject(cfg, s))
            then Stamped(ans, s, s.flags & !Hidden(s.identity.kind)) else s
  {
    hide Mix, GetFlags, Hidden, BeforeLoop, AttrGuard, FinalWord, FinalCode, SetProject;
    var flags, projid := GetFlags(s), GetProject(cfg, s);
    if Ran(cfg, ans, s, flags, projid) {
      EchoRan(ans, s);
      ProjectUntouched(cfg, ans, SetFlags(ans, s, flags & USER_MODIFIABLE).inode, projid);
    }
  }

  /** Setting the project that is already set. */
  lemma ProjectUntouched(cfg: Config, ans: Answers, s: InodeState, projid: nat)
    requires projid == GetProject(cfg, s)
    ensures SetProject(cfg, ans, s, projid).inode == s
  {
  }

  lemma EchoRan(ans: Answers, s: InodeState)
    ensures FinalWord(ans, s.flags, GetFlags(s) & USER_MODIFIABLE) == s.flags & !Hidden(s.identity.kind)
  {
    EchoFinal(ans, s.flags, GetFlags(s) & USER_MODIFIABLE, Hidden(s.identity.kind), s.identity.kind);
  }

  /** The project read back is the project set, whatever the flags. */
  lemma EchoProject(cfg: Config, ans: Answers, s: InodeState, flags: bv64, projid: nat)
    requires projid == GetProject(cfg, s)
    ensures SetAttr(cfg, ans, s, flags, projid).inode.projid == s.projid
  {
  }

  lemma HiddenIsSettable(kind: Kind)
    ensures Hidden(kind) & SETTABLE == Hidden(kind)
  {
  }

  lemma Quiet(ans: Answers, w: bv64, req: bv64)
    requires !Differ(req, w, JOURNAL_DATA_FL) && !Differ(req, w, EXTENTS_FL)
    ensures FinalWord(ans, w, req) == Mix(req, w, SETTABLE)
  {
    MixNothing(req, Mix(req, w, SETTABLE));
  }

  lemma EchoFinal(ans: Answers, w: bv64, req: bv64, hidden: bv64, kind: Kind)
    requires req == ((w & USER_VISIBLE) & !hidden) & USER_MODIFIABLE && hidden == Hidden(kind)
    ensures FinalWord(ans, w, req) == w & !hidden
  {
    HiddenIsSettable(kind);
    EchoWord(w, req, hidden);
    EchoAgrees(w, req, hidden);
    Quiet(ans, w, req);
  }
}
