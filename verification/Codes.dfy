/** Return codes shared by every component (src/apis/dlb_errors.h). */
module Codes {
  const NOBODY := 0

  datatype Code =
    | Success | Noted | NoUpdt
    | ErrUnknown | ErrInit | ErrNoProc | ErrPDirty | ErrPerm | ErrNoComp | ErrReqst | ErrNoMem
  {
    /** Negative codes in the C enumeration. */
    predicate IsError() {
      !Success? && !Noted? && !NoUpdt?
    }
  }

  function Min(a: int, b: int): int {
    if a <= b then a else b
  }

  function Max(a: int, b: int): int {
    if a >= b then a else b
  }

  lemma {:induction false} SmallerSubset(a: set<nat>, b: set<nat>)
    requires a <= b
    ensures |a| <= |b|
    decreases |a|
  {
    if a != {} {
      var x :| x in a;
      SmallerSubset(a - {x}, b - {x});
    }
  }
}
