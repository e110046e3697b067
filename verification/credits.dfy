/**
 * The credit check hook (hooks/useCreditsCheck.ts) and the dialog it opens
 * (components/InsufficientCreditsModal.tsx): whether the signed-in user's CV
 * credits cover a requirement, the latched dialog flag, and the shortfall
 * the dialog shows.
 */
module Credits {
  import opened Wrappers

  /** `user?.credits_cv ?? 0`: no user, or no counter, counts as zero credits. */
  function CurrentCredits(creditsCv: Option<int>): (r: int)
    ensures creditsCv.Some? ==> r == creditsCv.value
    ensures creditsCv.None? ==> r == 0
  {
    creditsCv.GetOr(0)
  }

  class CreditsCheck {
    const currentCredits: int
    var requiredCredits: int
    var showModal: bool

    /** `useCreditsCheck(defaultRequired)`: the dialog closed, the requirement the default. */
    constructor (creditsCv: Option<int>, defaultRequired: int)
      ensures currentCredits == CurrentCredits(creditsCv)
      ensures requiredCredits == defaultRequired && !showModal
    {
      currentCredits := CurrentCredits(creditsCv);
      requiredCredits := defaultRequired;
      showModal := false;
    }

    /** `hasEnoughCredits`: measured against the last recorded requirement. */
    function HasEnoughCredits(): (r: bool)
      reads this
      ensures r <==> Shortfall(requiredCredits, currentCredits) == 0
    {
      ShortfallIsZeroIffEnough(requiredCredits, currentCredits);
      currentCredits >= requiredCredits
    }

    /** `checkCredits(required)`: records the requirement, answers whether the
        credits cover it, and opens the dialog when they do not; it never
        closes the dialog. */
    method CheckCredits(required: int) returns (hasEnough: bool)
      modifies this
      ensures hasEnough <==> currentCredits >= required
      ensures requiredCredits == required
      ensures showModal == (old(showModal) || !hasEnough)
      ensures HasEnoughCredits() == hasEnough
    {
      requiredCredits := required;
      hasEnough := currentCredits >= required;
      if !hasEnough {
        showModal := true;
      }
    }

    /** `setShowModal`, as the dialog's close button uses it. */
    method SetShowModal(show: bool)
      modifies this`showModal
      ensures showModal == show
    {
      showModal := show;
    }
  }

  /** The "you need" figure: `Math.max(0, required - current)`. */
  function Shortfall(required: int, current: int): (r: int)
    ensures r >= 0
    ensures current < required ==> r == required - current
    ensures current >= required ==> r == 0
  {
    if required - current > 0 then required - current else 0
  }

  /** The dialog shows a zero shortfall exactly when the credits suffice. */
  lemma {:induction false} ShortfallIsZeroIffEnough(required: int, current: int)
    ensures Shortfall(required, current) == 0 <==> current >= required
  {
  }

  /** What the dialog shows when it is open. */
  datatype ModalView = ModalView(currentCredits: int, requiredCredits: int, shortfall: int)

  /** The dialog renders nothing while closed. */
  function Render(isOpen: bool, required: int, current: int): (r: Option<ModalView>)
    ensures r.None? <==> !isOpen
    ensures r.Some? ==> r.value.shortfall == Shortfall(required, current)
                        && r.value.currentCredits == current && r.value.requiredCredits == required
  {
    if isOpen then Some(ModalView(current, required, Shortfall(required, current))) else None
  }

  datatype ModalEffect = Close | Navigate(to: string)

  /** `handleBuyCredits`: the dialog closes first, and the pricing page is
      the one place it goes. */
  function HandleBuyCredits(): (r: seq<ModalEffect>)
    ensures |r| >= 1 && r[0] == Close
    ensures forall i :: 0 <= i < |r| && r[i].Navigate? ==> r[i].to == "/pricing" && i == |r| - 1
    ensures r[|r| - 1] == Navigate("/pricing")
  {
    [Close, Navigate("/pricing")]
  }

  /** A dialog opened by a failed check shows the positive amount still missing. */
  lemma {:induction false} FailedCheckShowsShortfall(current: int, required: int)
    requires !(current >= required)
    ensures Render(true, required, current) == Some(ModalView(current, required, required - current))
    ensures required - current > 0
  {
  }
}
