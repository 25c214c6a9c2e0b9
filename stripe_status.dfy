/**
 * `StripeConnectionStatusViewModel`: what the account pages show about a
 * user's Stripe connection, and the three properties computed from it.
 */
module StripeStatus {
  import opened Wrappers
  import opened Text

  datatype StripeConnectionStatus = StripeConnectionStatus(
    isStripeConfigured: bool,
    stripeAccountId: Option<string>,
    stripeAccountType: Option<string>,
    chargesEnabled: bool,
    payoutsEnabled: bool,
    errorMessage: Option<string>,
    requirementsDisabledReason: Option<string>,
    capabilityIssues: seq<string>,
    missingRequirements: seq<string>)

  /** A status as the view model starts: nothing configured, empty lists. */
  const Empty := StripeConnectionStatus(false, None, None, false, false, None, None, [], [])

  const NotConfigured := "Not Configured"
  const NotConnected := "Not Connected"
  const Connected := "Connected"
  const SetupIncomplete := "Setup Incomplete"

  /** `HasStripeAccountId`: an account id is given and holds a character
    * that is not white space. */
  function HasStripeAccountId(s: StripeConnectionStatus): (r: bool)
    ensures r <==>
      (s.stripeAccountId.Some? && exists i :: 0 <= i < |s.stripeAccountId.value| && !IsWhiteSpace(s.stripeAccountId.value[i]))
  {
    s.stripeAccountId.Some? && !IsBlank(s.stripeAccountId.value)
  }

  /** `IsSetupComplete`. */
  function IsSetupComplete(s: StripeConnectionStatus): bool
  {
    s.chargesEnabled && s.payoutsEnabled
  }

  /** `StateLabel`: always one of the four labels. */
  function StateLabel(s: StripeConnectionStatus): (r: string)
    ensures r == NotConfigured || r == NotConnected || r == Connected || r == SetupIncomplete
  {
    if !s.isStripeConfigured then NotConfigured
    else if !HasStripeAccountId(s) then NotConnected
    else if IsSetupComplete(s) then Connected
    else SetupIncomplete
  }

  /** Each label names exactly one situation: Stripe not configured at all
    * (whatever else the status holds), configured without an account id,
    * an account with both charges and payouts enabled, or an account still
    * missing one of them. */
  lemma StateLabelMeaning(s: StripeConnectionStatus)
    ensures StateLabel(s) == NotConfigured <==> !s.isStripeConfigured
    ensures StateLabel(s) == NotConnected <==> s.isStripeConfigured && !HasStripeAccountId(s)
    ensures StateLabel(s) == Connected <==>
      s.isStripeConfigured && HasStripeAccountId(s) && s.chargesEnabled && s.payoutsEnabled
    ensures StateLabel(s) == SetupIncomplete <==>
      s.isStripeConfigured && HasStripeAccountId(s) && !(s.chargesEnabled && s.payoutsEnabled)
  {
  }

  /** The label depends on four fields alone: error messages, requirements
    * and capability issues never change it. */
  lemma StateLabelIgnoresDetails(s: StripeConnectionStatus, t: StripeConnectionStatus)
    requires s.isStripeConfigured == t.isStripeConfigured
    requires HasStripeAccountId(s) == HasStripeAccountId(t)
    requires s.chargesEnabled == t.chargesEnabled && s.payoutsEnabled == t.payoutsEnabled
    ensures StateLabel(s) == StateLabel(t)
  {
  }

  /** A fresh view model shows "Not Configured", and an account id of
    * spaces counts as none. */
  lemma StateLabelExamples()
    ensures StateLabel(Empty) == NotConfigured
    ensures StateLabel(Empty.(isStripeConfigured := true, stripeAccountId := Some("  "))) == NotConnected
    ensures StateLabel(Empty.(isStripeConfigured := true, stripeAccountId := Some("acct_1"), chargesEnabled := true))
      == SetupIncomplete
  {
    assert !IsWhiteSpace("acct_1"[0]);
  }
}
