/** The service status register: one 32-bit integer moved only by compare-and-swap.
    Resting values are 0 (uninitialised), 1 (ready), 2 (device selected),
    3 (casting a file) and 4 (casting the screen); -1 marks a transition in progress.
    Each atomic operation is one sequential step from a register value to the next. */
module Status {
  import opened Wrappers

  newtype int32 = x: int | -0x8000_0000 <= x < 0x8000_0000

  /** The transient "locked" value. */
  const LOCKSTATUS: int32 := -1

  const Uninit: int32 := 0
  const Ready: int32 := 1
  const Selected: int32 := 2
  const CastingFile: int32 := 3
  const CastingScreen: int32 := 4

  predicate Resting(v: int32) {
    Uninit <= v <= CastingScreen
  }

  datatype Register = Register(value: int32)

  /** The register after a single-value operation, and the error it returned. */
  datatype Step = Step(reg: Register, out: Outcome)

  /** The register after LockMultiStatus, the candidate it locked from (0 on failure), and the error. */
  datatype MultiStep = MultiStep(reg: Register, matched: int32, out: Outcome)

  /** CAS(status, -1): succeeds exactly from `status`, leaving the register locked;
      otherwise "Lock Failed" and no change. */
  function LockStatus(r: Register, status: int32): (s: Step)
    ensures s.out.Pass? <==> r.value == status
    ensures s.out.Pass? ==> s.reg.value == LOCKSTATUS
    ensures s.out.Fail? ==> s == Step(r, Fail("Lock Failed"))
  {
    if r.value == status then Step(Register(LOCKSTATUS), Pass) else Step(r, Fail("Lock Failed"))
  }

  /** CAS(-1, status): succeeds exactly from the locked value and sets `status`;
      otherwise "UnLock Failed" and no change. */
  function UnLockStatus(r: Register, status: int32): (s: Step)
    ensures s.out.Pass? <==> r.value == LOCKSTATUS
    ensures s.out.Pass? ==> s.reg.value == status
    ensures s.out.Fail? ==> s == Step(r, Fail("UnLock Failed"))
  {
    if r.value == LOCKSTATUS then Step(Register(status), Pass) else Step(r, Fail("UnLock Failed"))
  }

  /** Tries LockStatus on each candidate in order and stops at the first that succeeds.
      Since only a candidate equal to the register can succeed, the matched candidate is
      the register's value; when no candidate matches the result is (0, "Lock Failed")
      with the register unchanged. */
  function LockMultiStatus(r: Register, candidates: seq<int32>): (m: MultiStep)
    ensures m.out.Pass? <==> r.value in candidates
    ensures m.out.Pass? ==> m.matched == r.value && m.reg.value == LOCKSTATUS
    ensures m.out.Fail? ==> m == MultiStep(r, 0, Fail("Lock Failed"))
  {
    if |candidates| == 0 then MultiStep(r, 0, Fail("Lock Failed"))
    else
      var s := LockStatus(r, candidates[0]);
      if s.out.Pass? then MultiStep(s.reg, candidates[0], Pass)
      else LockMultiStatus(s.reg, candidates[1..])
  }

  /** CAS(cur, status): moves straight from `cur` to `status`, never through -1;
      otherwise "Assign Failed" and no change. */
  function Assign(r: Register, cur: int32, status: int32): (s: Step)
    ensures s.out.Pass? <==> r.value == cur
    ensures s.out.Pass? ==> s.reg.value == status
    ensures s.out.Fail? ==> s == Step(r, Fail("Assign Failed"))
  {
    if r.value == cur then Step(Register(status), Pass) else Step(r, Fail("Assign Failed"))
  }

  /** An atomic load. The value it returns is the one and only value that LockStatus
      would succeed from at this moment. */
  function GetStatus(r: Register): (v: int)
    ensures forall s: int32 :: LockStatus(r, s).out.Pass? <==> s as int == v
  {
    r.value as int
  }

  /** Locking from s and unlocking back to s restores the register exactly. */
  lemma LockThenUnlockRestores(r: Register, s: int32)
    requires LockStatus(r, s).out.Pass?
    ensures UnLockStatus(LockStatus(r, s).reg, s) == Step(r, Pass)
  {
  }

  /** A held lock shuts out every other transition: while the register is locked,
      locking from any resting value, locking from a candidate list without -1, and
      assigning from any value other than -1 all fail and change nothing. */
  lemma LockExcludes(r: Register, s: int32, t: int32, candidates: seq<int32>, u: int32)
    requires LockStatus(r, s).out.Pass?
    requires t != LOCKSTATUS
    requires LOCKSTATUS !in candidates
    ensures LockStatus(LockStatus(r, s).reg, t) == Step(LockStatus(r, s).reg, Fail("Lock Failed"))
    ensures LockMultiStatus(LockStatus(r, s).reg, candidates).reg == LockStatus(r, s).reg
    ensures LockMultiStatus(LockStatus(r, s).reg, candidates).out.Fail?
    ensures Assign(LockStatus(r, s).reg, t, u) == Step(LockStatus(r, s).reg, Fail("Assign Failed"))
  {
  }

  /** Assign reaches the same register as the bracket LockStatus(cur); UnLockStatus(status)
      when cur is not the locked value itself, without exposing -1 in between. */
  lemma AssignIsAtomicBracket(r: Register, cur: int32, status: int32)
    requires cur != LOCKSTATUS
    ensures Assign(r, cur, status).out.Pass? == LockStatus(r, cur).out.Pass?
    ensures Assign(r, cur, status).reg ==
            (if LockStatus(r, cur).out.Pass? then UnLockStatus(LockStatus(r, cur).reg, status).reg else r)
  {
  }

  /** With one candidate, LockMultiStatus is LockStatus. */
  lemma LockMultiOfOne(r: Register, s: int32)
    ensures LockMultiStatus(r, [s]).reg == LockStatus(r, s).reg
    ensures LockMultiStatus(r, [s]).out == LockStatus(r, s).out
  {
  }
}
