/**
 * Callback data of the inline keyboards: how button_handler routes it, how
 * process_plan_selection and verify_payment take their argument out of it, and
 * the transaction reference create_payment_link builds.
 */
module Callbacks {
  import opened Wrappers
  import opened Text
  import Plans

  datatype Action = Upgrade | ChoosePlan | VerifyPayment | LearnMore | Support | BackToMenu | UnknownAction

  /** button_handler: "upgrade" matched exactly first, then the "plan_" and "verify_" prefixes, then the fixed names. */
  function Dispatch(data: string): (a: Action)
    ensures a == Upgrade <==> data == "upgrade"
    ensures a == ChoosePlan <==> StartsWith(data, "plan_")
    ensures a == VerifyPayment <==> StartsWith(data, "verify_")
    ensures a == LearnMore <==> data == "learn_more"
    ensures a == Support <==> data == "support"
    ensures a == BackToMenu <==> data == "back_to_menu"
    ensures a == UnknownAction <==>
      data !in {"upgrade", "learn_more", "support", "back_to_menu"}
      && !StartsWith(data, "plan_") && !StartsWith(data, "verify_")
  {
    if data == "upgrade" then
      NotPrefixAt(data, "plan_", 0);
      NotPrefixAt(data, "verify_", 0);
      Upgrade
    else if StartsWith(data, "plan_") then
      assert data[0] == data[..5][0] == 'p';
      NotPrefixAt(data, "verify_", 0);
      ChoosePlan
    else if StartsWith(data, "verify_") then VerifyPayment
    else if data == "learn_more" then LearnMore
    else if data == "support" then Support
    else if data == "back_to_menu" then BackToMenu
    else UnknownAction
  }

  /** A string that differs from `p` at a position inside both does not start with `p`. */
  lemma NotPrefixAt(s: string, p: string, i: nat)
    requires i < |p| && i < |s| && s[i] != p[i]
    ensures !StartsWith(s, p)
  {
  }

  /** The callback data of a plan button in the upgrade menu. */
  function PlanCallback(planId: string): string {
    "plan_" + planId
  }

  /** The callback data of the "I've Paid - Verify" button. */
  function VerifyCallback(txRef: string): string {
    "verify_" + txRef
  }

  /**
   * query.data.split('_')[1]: the second '_'-separated segment; None where Python
   * raises IndexError (no '_' at all).
   */
  function ParsePlanId(data: string): (r: Option<string>)
    ensures r.Some? <==> '_' in data
    ensures r.Some? ==> '_' !in r.value
  {
    SplitPieces(data, '_');
    var parts := Split(data, '_');
    if |parts| >= 2 then Some(parts[1]) else None
  }

  /**
   * query.data.split('_', 1)[1]: everything after the first '_', later underscores
   * included; None where Python raises IndexError.
   */
  function ParseVerifyRef(data: string): (r: Option<string>)
    ensures r.Some? <==> '_' in data
    ensures r.Some? ==> |r.value| < |data| && data[|data| - |r.value|..] == r.value
  {
    var parts := SplitOnce(data, '_');
    if |parts| == 2 then Some(parts[1]) else None
  }

  /** create_payment_link's tx_ref: "premium_bot_<user>_<8 hex digits>_<unix seconds>". */
  function TxRef(userId: int, nonce: string, stamp: int): (r: string)
    ensures StartsWith(r, "premium_bot_")
  {
    "premium_bot_" + IntText(userId) + "_" + nonce + "_" + IntText(stamp)
  }

  /** The verify button gives back exactly the reference it was built from, underscores and all. */
  lemma VerifyCallbackRoundTrip(txRef: string)
    ensures ParseVerifyRef(VerifyCallback(txRef)) == Some(txRef)
  {
    assert VerifyCallback(txRef) == "verify" + ['_'] + txRef;
    FindCharAfter("verify", '_', txRef);
    assert VerifyCallback(txRef)[..6] == "verify";
    assert VerifyCallback(txRef)[7..] == txRef;
  }

  /** After a first word without '_', the second segment is the first segment of what follows. */
  lemma SecondSegmentAfterWord(w: string, rest: string)
    requires '_' !in w
    ensures ParsePlanId(w + ['_'] + rest) == Some(Split(rest, '_')[0])
  {
    SplitAfterWord(w, rest);
  }

  /** A plan button selects the first '_'-segment of the id: extra segments are ignored. */
  lemma PlanCallbackSelectsSecondSegment(planId: string)
    ensures ParsePlanId(PlanCallback(planId)) == Some(Split(planId, '_')[0])
  {
    assert PlanCallback(planId) == "plan" + ['_'] + planId;
    SecondSegmentAfterWord("plan", planId);
  }

  /** An id without '_' comes back whole from its plan button. */
  lemma PlanCallbackRoundTrip(planId: string)
    requires '_' !in planId
    ensures ParsePlanId(PlanCallback(planId)) == Some(planId)
  {
    PlanCallbackSelectsSecondSegment(planId);
    SplitPieces(planId, '_');
  }

  /** Splitting after a first word that has no '_' gives that word, then the rest's segments. */
  lemma SplitAfterWord(w: string, rest: string)
    requires '_' !in w
    ensures Split(w + ['_'] + rest, '_') == [w] + Split(rest, '_')
  {
    var s := w + ['_'] + rest;
    FindCharAfter(w, '_', rest);
    assert s[..|w|] == w;
    assert s[|w| + 1..] == rest;
  }

  /** The first '_'-segment of every tx_ref is "premium". */
  lemma TxRefFirstSegment(userId: int, nonce: string, stamp: int)
    ensures Split(TxRef(userId, nonce, stamp), '_')[0] == "premium"
  {
    var tail := IntText(userId) + "_" + nonce + "_" + IntText(stamp);
    assert TxRef(userId, nonce, stamp) == "premium_bot_" + tail;
    assert "premium_bot_" + tail == "premium" + ['_'] + ("bot_" + tail);
    SplitAfterWord("premium", "bot_" + tail);
  }

  /** A verify button splits into "verify" followed by the segments of its reference. */
  lemma VerifyCallbackSegments(txRef: string)
    ensures Split(VerifyCallback(txRef), '_') == ["verify"] + Split(txRef, '_')
  {
    assert VerifyCallback(txRef) == "verify" + ['_'] + txRef;
    SplitAfterWord("verify", txRef);
  }

  /**
   * Splitting a verify button on every '_' (as plan buttons are split) would not give
   * the reference back: the second segment of any tx_ref's button is "premium".
   */
  lemma VerifyNeedsSingleSplit(userId: int, nonce: string, stamp: int)
    ensures Split(VerifyCallback(TxRef(userId, nonce, stamp)), '_')[1] == "premium"
  {
    TxRefFirstSegment(userId, nonce, stamp);
    VerifyCallbackSegments(TxRef(userId, nonce, stamp));
  }

  /** Every button the bot renders is routed to its own handler. */
  lemma RenderedButtonsDispatch(planId: string, txRef: string)
    ensures Dispatch("upgrade") == Upgrade
    ensures Dispatch(PlanCallback(planId)) == ChoosePlan
    ensures Dispatch(VerifyCallback(txRef)) == VerifyPayment
    ensures Dispatch("learn_more") == LearnMore
    ensures Dispatch("support") == Support
    ensures Dispatch("back_to_menu") == BackToMenu
  {
    assert PlanCallback(planId)[..5] == "plan_";
    assert VerifyCallback(txRef)[..7] == "verify_";
    NotPrefixAt(PlanCallback(planId), "verify_", 0);
    NotPrefixAt("learn_more", "plan_", 0);
    NotPrefixAt("learn_more", "verify_", 0);
    NotPrefixAt("support", "plan_", 0);
    NotPrefixAt("support", "verify_", 0);
    NotPrefixAt("back_to_menu", "plan_", 0);
    NotPrefixAt("back_to_menu", "verify_", 0);
  }
}
