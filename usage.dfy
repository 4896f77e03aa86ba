/** The free-usage quota (calsnap/src/contexts/UsageContext.tsx): a count of
    analyses used this session, a paid flag looked up for the signed-in
    user, and the rule that unpaid users get five analyses. The session
    storage write is recorded as the last value persisted; reading it back
    on mount and the profile query are not modelled, and the query's answer
    is a parameter. */
module Usage {
  import opened Wrappers

  const MaxFreeUsage: int := 5

  /** `canUpload` */
  predicate CanUpload(count: int, paid: bool) {
    paid || count < MaxFreeUsage
  }

  datatype Step = Step(allowed: bool, count: int)

  /** One `incrementUsage` call on a count: a paid user is always allowed and
      not counted; an unpaid one at the limit is refused; otherwise the
      count goes up by one. */
  function IncrementStep(count: int, paid: bool): (s: Step)
    ensures s.allowed == CanUpload(count, paid)
    ensures s.count == if s.allowed && !paid then count + 1 else count
  {
    if paid then Step(true, count)
    else if count >= MaxFreeUsage then Step(false, count)
    else Step(true, count + 1)
  }

  /** The count after `n` successive calls. */
  function CountAfter(count: int, paid: bool, n: nat): int
    decreases n
  {
    if n == 0 then count else CountAfter(IncrementStep(count, paid).count, paid, n - 1)
  }

  /** An unpaid session starting at or below the limit is counted up to the
      limit and no further: after n calls the count is min(count + n, 5). */
  lemma {:induction false} UnpaidCountSaturates(count: int, n: nat)
    requires count <= MaxFreeUsage
    ensures CountAfter(count, false, n) == if count + n <= MaxFreeUsage then count + n else MaxFreeUsage
    decreases n
  {
    if n > 0 {
      UnpaidCountSaturates(IncrementStep(count, false).count, n - 1);
    }
  }

  /** No sequence of calls pushes a count that starts at or below 5 above 5. */
  lemma {:induction false} NeverAboveLimit(count: int, paid: bool, n: nat)
    requires count <= MaxFreeUsage
    ensures CountAfter(count, paid, n) <= MaxFreeUsage
    decreases n
  {
    if n > 0 {
      NeverAboveLimit(IncrementStep(count, paid).count, paid, n - 1);
    }
  }

  /** A paid user's calls never count. */
  lemma {:induction false} PaidNeverCounts(count: int, n: nat)
    ensures CountAfter(count, true, n) == count
    decreases n
  {
    if n > 0 {
      PaidNeverCounts(count, n - 1);
    }
  }

  class UsageState {
    var usageCount: int
    var isPaid: bool
    /** The last value written to session storage, if any. */
    var persisted: Option<int>

    constructor ()
      ensures usageCount == 0 && !isPaid && persisted == None
    {
      usageCount := 0;
      isPaid := false;
      persisted := None;
    }

    predicate CanUploadNow()
      reads this
    {
      CanUpload(usageCount, isPaid)
    }

    /** `incrementUsage`: allowed exactly when an upload was allowed before
      the call; a counted call also persists the new count. */
    method IncrementUsage() returns (allowed: bool)
      modifies this
      ensures allowed == old(CanUploadNow())
      ensures usageCount == IncrementStep(old(usageCount), old(isPaid)).count
      ensures isPaid == old(isPaid)
      ensures persisted == if allowed && !isPaid then Some(usageCount) else old(persisted)
    {
      if isPaid {
        return true;
      }
      if usageCount >= MaxFreeUsage {
        return false;
      }
      var newCount := usageCount + 1;
      usageCount := newCount;
      persisted := Some(newCount);
      return true;
    }

    /** The effect on the signed-in user: signing out resets the paid flag;
      for a signed-in user the profile lookup (None when it failed or found
      nothing, otherwise the row's `is_paid`, which may be null) decides it. */
    method UserChanged(signedIn: bool, profile: Option<Option<bool>>)
      modifies this
      ensures !signedIn ==> !isPaid
      ensures signedIn && profile.Some? ==> isPaid == (profile.value == Some(true))
      ensures signedIn && profile.None? ==> isPaid == old(isPaid)
      ensures usageCount == old(usageCount) && persisted == old(persisted)
    {
      if !signedIn {
        isPaid := false;
      } else if profile.Some? {
        isPaid := profile.value == Some(true);
      }
    }
  }
}
