/** Error numbers; functions return them negated.  EFSBADCRC is an alias of EBADMSG. */
module Errno {
  const EPERM := 1
  const EIO := 5
  const EFAULT := 14
  const EBUSY := 16
  const ENOTDIR := 20
  const EINVAL := 22
  const ENOTEMPTY := 39
  const EFSBADCRC := 74
  const EOPNOTSUPP := 95

  /** A result, or the one of what comes after it if it is no failure. */
  function FirstOf(err: int, later: int): int {
    if err != 0 then err else later
  }

  function FailIf(bad: bool, errno: int): int {
    if bad then -errno else 0
  }
}
