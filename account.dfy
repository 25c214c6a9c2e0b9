/**
 * The decision helpers of `AccountController`: which Stripe account a user
 * works with, the label and dashboard of the platform's Stripe key, where a
 * return URL may lead, the sign-in and role gate in front of the payment
 * actions, and the currency and time zone a registration falls back to.
 */
module AccountController {
  import opened Wrappers
  import opened Text
  import Locations

  /** The request's user: `User?.Identity?.IsAuthenticated ?? false` (a
    * missing identity is not authenticated) and the roles `IsInRole`
    * answers for. */
  datatype Principal = Principal(isAuthenticated: bool, roles: set<string>)

  /** The results the modelled paths return. A `RedirectToAction` without a
    * controller name stays on this controller, here `Account`. */
  datatype ActionResult =
    | Redirect(url: string)
    | RedirectToAction(action: string, controller: string, returnUrl: Option<string>)
    | Forbid

  const PaymentPath := "/account/payment"
  const LiveDashboard := "https://dashboard.stripe.com/"
  const TestDashboard := "https://dashboard.stripe.com/test/"
  const DefaultCurrency := "NZD"
  const DefaultTimeZone := "Pacific/Auckland"

  // ---------------------------------------------------------------------
  // Roles

  /** `CanManageStripeForEvents`. */
  function CanManageStripeForEvents(user: Principal): bool
  {
    "Admin" in user.roles || "EventManager" in user.roles
  }

  /** `ShouldUsePlatformStripeAccount`. */
  function ShouldUsePlatformStripeAccount(user: Principal): bool
  {
    "Admin" in user.roles
  }

  /** Administrators use the platform account, event managers who are not
    * administrators manage an account of their own, and no one else
    * manages Stripe; so using the platform account implies managing
    * Stripe. */
  lemma RolesMeaning(user: Principal)
    ensures ShouldUsePlatformStripeAccount(user) ==> CanManageStripeForEvents(user)
    ensures CanManageStripeForEvents(user) && !ShouldUsePlatformStripeAccount(user) <==>
      "EventManager" in user.roles && "Admin" !in user.roles
    ensures !CanManageStripeForEvents(user) <==> "Admin" !in user.roles && "EventManager" !in user.roles
  {
  }

  // ---------------------------------------------------------------------
  // The platform's Stripe key

  /** `GetStripeEnvironmentLabel()` for the configured secret key: one of
    * four labels. */
  function EnvironmentLabel(secretKey: Option<string>): (r: string)
    ensures r == "Not Configured" || r == "Live" || r == "Test" || r == "Unknown"
  {
    if secretKey.None? || IsBlank(secretKey.value) then "Not Configured"
    else if StartsWith(secretKey.value, "sk_live_") then "Live"
    else if StartsWith(secretKey.value, "sk_test_") then "Test"
    else "Unknown"
  }

  /** A missing or blank key is "Not Configured"; otherwise the prefix
    * `sk_live_` gives "Live", `sk_test_` gives "Test" and anything else
    * "Unknown". The two prefixes exclude each other. */
  lemma EnvironmentLabelMeaning(secretKey: Option<string>)
    ensures EnvironmentLabel(secretKey) == "Not Configured" <==> secretKey.None? || IsBlank(secretKey.value)
    ensures EnvironmentLabel(secretKey) == "Live" <==> secretKey.Some? && StartsWith(secretKey.value, "sk_live_")
    ensures EnvironmentLabel(secretKey) == "Test" <==> secretKey.Some? && StartsWith(secretKey.value, "sk_test_")
    ensures EnvironmentLabel(secretKey) == "Unknown" <==>
      && secretKey.Some? && !IsBlank(secretKey.value)
      && !StartsWith(secretKey.value, "sk_live_") && !StartsWith(secretKey.value, "sk_test_")
  {
    if secretKey.Some? {
      var k := secretKey.value;
      if StartsWith(k, "sk_live_") {
        assert k[0] == 's' && !IsWhiteSpace(k[0]);
        assert k[3] == 'l' && !StartsWith(k, "sk_test_");
      }
      if StartsWith(k, "sk_test_") {
        assert k[0] == 's' && !IsWhiteSpace(k[0]);
      }
    }
  }

  /** `GetPlatformDashboardUrl()`. */
  function PlatformDashboardUrl(secretKey: Option<string>): (r: string)
    ensures r == LiveDashboard <==> EnvironmentLabel(secretKey) == "Live"
    ensures r != LiveDashboard ==> r == TestDashboard
  {
    if EnvironmentLabel(secretKey) == "Live" then LiveDashboard else TestDashboard
  }

  /** The live dashboard is chosen exactly for a live key; a test, unknown
    * or missing key gets the test dashboard. */
  lemma DashboardOfKey(secretKey: Option<string>)
    ensures PlatformDashboardUrl(secretKey) == LiveDashboard <==>
      secretKey.Some? && StartsWith(secretKey.value, "sk_live_")
  {
    EnvironmentLabelMeaning(secretKey);
  }

  // ---------------------------------------------------------------------
  // Return URLs

  /** `char.IsControl`: the C0 and C1 control characters and DEL. */
  predicate IsControl(c: char)
  {
    c <= '\U{1F}' || ('\U{7F}' <= c <= '\U{9F}')
  }

  predicate HasControl(s: string)
  {
    exists i :: 0 <= i < |s| && IsControl(s[i])
  }

  /** `Url.IsLocalUrl`, by the framework's rule: a path starting with `/`
    * or `~/`, not followed by another `/` or a `\` that would make it
    * protocol-relative, and free of control characters. */
  predicate IsLocalUrl(url: string)
  {
    if |url| > 0 && url[0] == '/' then
      |url| == 1 || (url[1] != '/' && url[1] != '\\' && !HasControl(url[1..]))
    else if |url| > 1 && url[0] == '~' && url[1] == '/' then
      |url| == 2 || (url[2] != '/' && url[2] != '\\' && !HasControl(url[2..]))
    else false
  }

  /** `RedirectToLocal(returnUrl)`: the return URL when it is given and
    * local, else the home page. */
  function RedirectToLocal(returnUrl: Option<string>): (r: ActionResult)
    ensures r.Redirect? ==> returnUrl == Some(r.url) && IsLocalUrl(r.url)
    ensures !r.Redirect? ==> r == RedirectToAction("Index", "Home", None)
  {
    if returnUrl.Some? && returnUrl.value != "" && IsLocalUrl(returnUrl.value) then Redirect(returnUrl.value)
    else RedirectToAction("Index", "Home", None)
  }

  /** The return URL is followed exactly when it is non-empty and local,
    * so a redirect never leaves the site: the URL it follows starts with
    * one `/` (or `~/`) and no scheme. */
  lemma RedirectToLocalMeaning(returnUrl: Option<string>)
    ensures RedirectToLocal(returnUrl).Redirect? <==>
      returnUrl.Some? && returnUrl.value != "" && IsLocalUrl(returnUrl.value)
    ensures RedirectToLocal(returnUrl).Redirect? ==>
      var u := RedirectToLocal(returnUrl).url;
      (u[0] == '/' || (u[0] == '~' && u[1] == '/')) && !StartsWith(u, "//") && !StartsWith(u, "/\\")
  {
  }

  /** What the rule lets through and what it stops. */
  lemma LocalUrlExamples()
    ensures IsLocalUrl("/account/payment") && IsLocalUrl("/") && IsLocalUrl("~/events")
    ensures !IsLocalUrl("//evil.example") && !IsLocalUrl("/\\evil.example")
    ensures !IsLocalUrl("https://evil.example") && !IsLocalUrl("")
  {
    var p := "/account/payment";
    assert !HasControl(p[1..]) by {
      forall i | 0 <= i < |p[1..]| ensures !IsControl(p[1..][i]) {
      }
    }
    var e := "~/events";
    assert !HasControl(e[2..]) by {
      forall i | 0 <= i < |e[2..]| ensures !IsControl(e[2..][i]) {
      }
    }
  }

  // ---------------------------------------------------------------------
  // The gate of the payment actions

  /** The checks `Payment`, `ConnectStripe`, `StripeConnectReturn` and
    * `OpenStripeDashboard` make first: a result to return, or `None` to go
    * on with the action. */
  function PaymentGate(user: Principal): (r: Option<ActionResult>)
    ensures r.Some? ==> r.value == RedirectToAction("Login", "Account", Some(PaymentPath)) || r.value == Forbid
  {
    if !user.isAuthenticated then Some(RedirectToAction("Login", "Account", Some(PaymentPath)))
    else if !CanManageStripeForEvents(user) then Some(Forbid)
    else None
  }

  /** An anonymous request is sent to sign in and come back to the payment
    * page; a signed-in user without a managing role is forbidden; every
    * administrator and event manager who is signed in passes. */
  lemma PaymentGateMeaning(user: Principal)
    ensures PaymentGate(user) == Some(RedirectToAction("Login", "Account", Some(PaymentPath))) <==> !user.isAuthenticated
    ensures PaymentGate(user) == Some(Forbid) <==> user.isAuthenticated && !CanManageStripeForEvents(user)
    ensures PaymentGate(user).None? <==> user.isAuthenticated && CanManageStripeForEvents(user)
    ensures user.isAuthenticated && ShouldUsePlatformStripeAccount(user) ==> PaymentGate(user).None?
  {
  }

  // ---------------------------------------------------------------------
  // Registration

  /** `_locationService.ResolveCurrency(model.Country) ?? "NZD"`. */
  function RegisterCurrency(country: string): (r: string)
    ensures Locations.ResolveCurrency(country).None? ==> r == DefaultCurrency
    ensures Locations.ResolveCurrency(country).Some? ==> r == Locations.ResolveCurrency(country).value
  {
    match Locations.ResolveCurrency(country)
    case Some(code) => code
    case None => DefaultCurrency
  }

  /** `_locationService.ResolveTimeZone(model.Country, model.City) ?? "Pacific/Auckland"`. */
  function RegisterTimeZone(country: string, city: string): (r: string)
    ensures Locations.ResolveTimeZone(country, city).None? ==> r == DefaultTimeZone
    ensures Locations.ResolveTimeZone(country, city).Some? ==> r == Locations.ResolveTimeZone(country, city).value
  {
    match Locations.ResolveTimeZone(country, city)
    case Some(zone) => zone
    case None => DefaultTimeZone
  }

  /** A new user always gets one of the two currency codes, the one of the
    * table's cities for a country of the table in any case, and New
    * Zealand's for any other country. */
  lemma RegisterCurrencyMeaning(country: string)
    ensures RegisterCurrency(country) == "NZD" || RegisterCurrency(country) == "AUD"
    ensures forall x :: x in Locations.Cities && EqualsIgnoreCase(x.country, country) ==>
      RegisterCurrency(country) == x.currency
  {
    Locations.ResolvedCurrencyIsCode(country);
    forall x | x in Locations.Cities && EqualsIgnoreCase(x.country, country)
      ensures RegisterCurrency(country) == x.currency
    {
      Locations.CountryCurrencyOfCity(x, country);
    }
  }

  /** A new user gets the zone of the first table city matching country
    * and city, ignoring case, and Auckland's zone when none matches. */
  lemma RegisterTimeZoneMeaning(country: string, city: string)
    ensures RegisterTimeZone(country, city) == DefaultTimeZone ||
      exists x :: x in Locations.Cities && x.timeZoneId == RegisterTimeZone(country, city)
    ensures (forall x :: x in Locations.Cities ==> !(EqualsIgnoreCase(x.country, country) && EqualsIgnoreCase(x.city, city)))
      ==> RegisterTimeZone(country, city) == DefaultTimeZone
    ensures Locations.GetRecord(country, city).Some? ==>
      RegisterTimeZone(country, city) == Locations.GetRecord(country, city).value.timeZoneId
  {
    Locations.ResolveTimeZoneIsRecordZone(country, city);
    var found := Locations.FirstRecord(Locations.Cities, country, city);
    if found.Some? {
      assert found.value in Locations.Cities && found.value.timeZoneId == RegisterTimeZone(country, city);
    }
  }
}
