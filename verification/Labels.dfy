/** The volume label: set through the superblock update, read from the primary. */
module Labels {
  import opened BlockBitmap
  import opened Errno
  import opened JournalMonitor
  import opened Superblocks

  const LABEL_MAX := 16

  /** strnlen: the position of the first zero byte below max, or max. */
  function StrNLen(s: seq<bv8>, max: nat): (n: nat)
    requires max <= |s|
    ensures n <= max && (n < max ==> s[n] == 0)
    ensures forall i :: 0 <= i < n ==> s[i] != 0
  {
    if max == 0 || s[0] == 0 then 0 else 1 + StrNLen(s[1..], max - 1)
  }

  /** The bytes that reach the superblock: the string, then zeros; 16 bytes in all. */
  function Stored(user: seq<bv8>): (r: seq<bv8>)
    requires |user| == LABEL_MAX + 1 && StrNLen(user, LABEL_MAX + 1) <= LABEL_MAX
    ensures |r| == LABEL_MAX
  {
    var len := StrNLen(user, LABEL_MAX + 1);
    user[..len] + Zeros(LABEL_MAX - len)
  }

  /** Byte by byte: the caller's up to the terminator, zero from there on. */
  lemma StoredBytes(user: seq<bv8>, i: nat)
    requires |user| == LABEL_MAX + 1 && StrNLen(user, LABEL_MAX + 1) <= LABEL_MAX && i < LABEL_MAX
    ensures Stored(user)[i] == if exists k :: 0 <= k <= i && user[k] == 0 then 0 else user[i]
  {
  }

  /** strncpy of 16 bytes into a cleared buffer of 17. */
  function Shown(volumeName: seq<bv8>): (r: seq<bv8>)
    requires |volumeName| == LABEL_MAX
    ensures |r| == LABEL_MAX + 1
  {
    var len := StrNLen(volumeName, LABEL_MAX);
    volumeName[..len] + Zeros(LABEL_MAX + 1 - len)
  }

  /** Likewise what is shown, whatever follows a terminator in the superblock. */
  lemma ShownBytes(volumeName: seq<bv8>, i: nat)
    requires |volumeName| == LABEL_MAX && i <= LABEL_MAX
    ensures Shown(volumeName)[i]
         == if i == LABEL_MAX || exists k :: 0 <= k <= i && volumeName[k] == 0 then 0 else volumeName[i]
  {
  }

  lemma StrNLenUnique(s: seq<bv8>, max: nat, n: nat)
    requires n <= max <= |s| && (n < max ==> s[n] == 0)
    requires forall i :: 0 <= i < n ==> s[i] != 0
    ensures StrNLen(s, max) == n
  {
  }

  /** A label of at most 16 bytes comes back as the same string, zero-padded; a label of
      exactly 16 is stored without a terminator and comes back with one. */
  lemma LabelRoundTrip(user: seq<bv8>)
    requires |user| == LABEL_MAX + 1 && StrNLen(user, LABEL_MAX + 1) <= LABEL_MAX
    ensures var len := StrNLen(user, LABEL_MAX + 1);
      Shown(Stored(user)) == user[..len] + Zeros(LABEL_MAX + 1 - len)
  {
    var len := StrNLen(user, LABEL_MAX + 1);
    var s := Stored(user);
    StrNLenUnique(s, LABEL_MAX, len);
    assert s[..len] == user[..len];
  }

  function SetLabelCallback(name: seq<bv8>): Callback {
    (fields: Fields) => fields.(volumeName := name)
  }

  /** ext4_ioctl_setlabel.  `user` is the 17 bytes copied from the caller. */
  method SetLabel(fs: SuperblockSet, user: seq<bv8>, capable: bool, copyFails: bool, wantWriteErr: int,
                  list: nat -> nat, a: Answers) returns (ret: int)
    requires |user| == LABEL_MAX + 1
    requires fs.Valid() && Contract(fs.mount, a) && Increasing(list) && Idle(fs.monitor)
    modifies fs
    ensures fs.Valid()
    ensures !capable ==> ret == -EPERM
    ensures capable && copyFails ==> ret == -EFAULT
    ensures capable && !copyFails && StrNLen(user, LABEL_MAX + 1) > LABEL_MAX ==> ret == -EINVAL
    // No superblock is touched by a label that is too long, nor by any other early exit.
    ensures !capable || copyFails || StrNLen(user, LABEL_MAX + 1) > LABEL_MAX || wantWriteErr != 0 ==>
      unchanged(fs)
    ensures capable && !copyFails && StrNLen(user, LABEL_MAX + 1) <= LABEL_MAX ==>
      if wantWriteErr != 0 then ret == wantWriteErr
      else if old(fs.resizing) then ret == -EBUSY && fs.primary == old(fs.primary) && fs.backups == old(fs.backups)
      else
        var o := Update(fs.mount, a, list, SetLabelCallback(Stored(user)), old(fs.primary), old(fs.backups),
                        Step(old(fs.monitor), Acquire(ResizingBit)));
        ret == o.err && fs.primary == o.primary && fs.backups == o.backups && !fs.resizing
    ensures capable && !copyFails && wantWriteErr == 0 && ret == 0 ==>
      && StrNLen(user, LABEL_MAX + 1) <= LABEL_MAX
      && fs.primary.fields == old(fs.primary.fields).(volumeName := Stored(user))
      && !ChecksumBad(fs.mount, fs.primary)
      && Shown(fs.primary.fields.volumeName)
         == user[..StrNLen(user, LABEL_MAX + 1)] + Zeros(LABEL_MAX + 1 - StrNLen(user, LABEL_MAX + 1))
  {
    if !capable {
      return -EPERM;
    }
    if copyFails {
      return -EFAULT;
    }
    var len := StrNLen(user, LABEL_MAX + 1);
    if len > LABEL_MAX {
      return -EINVAL;
    }
    if wantWriteErr != 0 {
      return wantWriteErr;
    }
    var newLabel := user[..len] + Zeros(LABEL_MAX - len);
    ret := fs.UpdateAll(SetLabelCallback(newLabel), list, a);
    if ret == 0 {
      LabelRoundTrip(user);
      UpdateSetsPrimary(fs.mount, a, list, SetLabelCallback(newLabel), old(fs.primary), old(fs.backups),
                        Step(old(fs.monitor), Acquire(ResizingBit)));
    }
  }

  lemma UpdateSetsPrimary(m: Mount, a: Answers, list: nat -> nat, f: Callback,
                          primary: Superblock, backups: seq<Superblock>, n: Monitor)
    requires Contract(m, a) && Increasing(list) && |backups| == m.Groups()
    requires Update(m, a, list, f, primary, backups, n).err == 0
    ensures var p := Update(m, a, list, f, primary, backups, n).primary;
      p.fields == f(primary.fields) && !ChecksumBad(m, p)
  {
  }

  /** ext4_ioctl_getlabel, up to the copy to the caller. */
  method GetLabel(fs: SuperblockSet) returns (shown: seq<bv8>)
    requires |fs.primary.fields.volumeName| == LABEL_MAX
    ensures shown == Shown(fs.primary.fields.volumeName)
    ensures |shown| == LABEL_MAX + 1 && shown[LABEL_MAX] == 0
  {
    shown := Shown(fs.primary.fields.volumeName);
  }
}
