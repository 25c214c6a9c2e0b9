/**
 * `StrongPasswordValidator`, the server's password check: a missing password
 * is the only error it then reports; otherwise the denylist and the four
 * character classes add one error each, and the password passes exactly
 * when none was added. The user the check is asked about plays no part.
 */
module StrongPassword {
  import opened Wrappers
  import opened Text
  import opened Sorting

  /** An `IdentityError`, known by its description. */
  datatype PasswordError = Required | TooCommon | NeedsLower | NeedsUpper | NeedsDigit | NeedsSymbol

  datatype IdentityResult = Success | Failed(errors: seq<PasswordError>)

  /** The denylist, written in lower case. */
  const Common: set<string> :=
    {"password", "123456", "qwerty", "letmein", "admin", "welcome", "railtix", "iloveyou", "monkey", "dragon"}

  function Description(e: PasswordError): string
  {
    match e
    case Required => "Password is required."
    case TooCommon => "Password is too common."
    case NeedsLower => "Password must include a lowercase letter."
    case NeedsUpper => "Password must include an uppercase letter."
    case NeedsDigit => "Password must include a digit."
    case NeedsSymbol => "Password must include a symbol."
  }

  /** The .NET regex class `\s`: `[\f\n\r\t\v\x85\p{Z}]`, the separators
    * being the space characters of Unicode's `Zs`, `Zl` and `Zp`. */
  predicate IsRegexSpace(c: char)
  {
    || ('\t' <= c <= '\r') || c == ' ' || c == '\U{0085}' || c == '\U{00A0}' || c == '\U{1680}'
    || ('\U{2000}' <= c <= '\U{200A}') || c == '\U{2028}' || c == '\U{2029}' || c == '\U{202F}'
    || c == '\U{205F}' || c == '\U{3000}'
  }

  /** A character of the class `[^a-zA-Z0-9\s]`. */
  predicate IsSymbol(c: char)
  {
    !IsAsciiLetter(c) && !IsAsciiDigit(c) && !IsRegexSpace(c)
  }

  predicate HasLower(p: string) { exists i :: 0 <= i < |p| && IsAsciiLower(p[i]) }
  predicate HasUpper(p: string) { exists i :: 0 <= i < |p| && IsAsciiUpper(p[i]) }
  predicate HasDigit(p: string) { exists i :: 0 <= i < |p| && IsAsciiDigit(p[i]) }
  predicate HasSymbol(p: string) { exists i :: 0 <= i < |p| && IsSymbol(p[i]) }

  predicate IsCommon(p: string)
  {
    ToLower(p) in Common
  }

  /** The errors a non-empty password collects, in the order of the checks. */
  function ErrorsOf(p: string): seq<PasswordError>
  {
    ErrorsFor(IsCommon(p), HasLower(p), HasUpper(p), HasDigit(p), HasSymbol(p))
  }

  function ErrorsFor(common: bool, lower: bool, upper: bool, digit: bool, symbol: bool): seq<PasswordError>
  {
    var afterCommon := AddIf([], common, TooCommon);
    var afterLower := AddIf(afterCommon, !lower, NeedsLower);
    var afterUpper := AddIf(afterLower, !upper, NeedsUpper);
    var afterDigit := AddIf(afterUpper, !digit, NeedsDigit);
    AddIf(afterDigit, !symbol, NeedsSymbol)
  }

  /** `if (failed) errors.Add(error)`. */
  function AddIf(errors: seq<PasswordError>, failed: bool, error: PasswordError): seq<PasswordError>
  {
    if failed then errors + [error] else errors
  }

  /** What `ValidateAsync` returns for `password`. */
  function Validation(password: Option<string>): IdentityResult
  {
    if password.None? || password.value == "" then Failed([Required])
    else if ErrorsOf(password.value) == [] then Success
    else Failed(ErrorsOf(password.value))
  }

  /** `ValidateAsync(manager, user, password)`: the errors are collected one
    * check at a time. The result depends on the password alone. */
  method ValidateAsync<U>(user: U, password: Option<string>) returns (result: IdentityResult)
    ensures result == Validation(password)
  {
    var errors: seq<PasswordError> := [];
    if password.None? || password.value == "" {
      errors := errors + [Required];
      return Failed(errors);
    }
    var p := password.value;
    var lower := ToLower(p);
    var common, hasLower, hasUpper, hasDigit, hasSymbol := lower in Common, HasLower(p), HasUpper(p), HasDigit(p), HasSymbol(p);
    if common {
      errors := errors + [TooCommon];
    }
    if !hasLower {
      errors := errors + [NeedsLower];
    }
    if !hasUpper {
      errors := errors + [NeedsUpper];
    }
    if !hasDigit {
      errors := errors + [NeedsDigit];
    }
    if !hasSymbol {
      errors := errors + [NeedsSymbol];
    }
    assert errors == ErrorsFor(common, hasLower, hasUpper, hasDigit, hasSymbol);
    result := if errors != [] then Failed(errors) else Success;
  }

  /** A missing or empty password fails with exactly one error. */
  lemma MissingPasswordRequired(password: Option<string>)
    requires password.None? || password == Some("")
    ensures Validation(password) == Failed([Required])
  {
  }

  /** Each check adds its own error exactly when it fails, whatever the
    * others find; no error appears twice, and `Required` never appears for a
    * password that was given. */
  lemma ErrorsOfMeaning(p: string)
    ensures TooCommon in ErrorsOf(p) <==> IsCommon(p)
    ensures NeedsLower in ErrorsOf(p) <==> !HasLower(p)
    ensures NeedsUpper in ErrorsOf(p) <==> !HasUpper(p)
    ensures NeedsDigit in ErrorsOf(p) <==> !HasDigit(p)
    ensures NeedsSymbol in ErrorsOf(p) <==> !HasSymbol(p)
    ensures Required !in ErrorsOf(p)
    ensures NoDuplicates(ErrorsOf(p))
  {
    ErrorsForMeaning(IsCommon(p), HasLower(p), HasUpper(p), HasDigit(p), HasSymbol(p));
  }

  lemma ErrorsForMeaning(common: bool, lower: bool, upper: bool, digit: bool, symbol: bool)
    ensures var r := ErrorsFor(common, lower, upper, digit, symbol);
      && (TooCommon in r <==> common) && (NeedsLower in r <==> !lower) && (NeedsUpper in r <==> !upper)
      && (NeedsDigit in r <==> !digit) && (NeedsSymbol in r <==> !symbol) && Required !in r
      && NoDuplicates(r)
  {
    var r := ErrorsForRanked(common, lower, upper, digit, symbol);
    forall i, j | 0 <= i < j < |r| ensures r[i] != r[j] {
      assert Rank(r[i]) < Rank(r[j]);
    }
  }

  lemma ErrorsForRanked(common: bool, lower: bool, upper: bool, digit: bool, symbol: bool)
    returns (r: seq<PasswordError>)
    ensures r == ErrorsFor(common, lower, upper, digit, symbol)
    ensures Ranked(r)
    ensures forall x :: x in r <==>
      (common && x == TooCommon) || (!lower && x == NeedsLower) || (!upper && x == NeedsUpper)
      || (!digit && x == NeedsDigit) || (!symbol && x == NeedsSymbol)
  {
    var r1 := AddIf([], common, TooCommon);
    AddIfRanked([], common, TooCommon);
    var r2 := AddIf(r1, !lower, NeedsLower);
    AddIfRanked(r1, !lower, NeedsLower);
    var r3 := AddIf(r2, !upper, NeedsUpper);
    AddIfRanked(r2, !upper, NeedsUpper);
    var r4 := AddIf(r3, !digit, NeedsDigit);
    AddIfRanked(r3, !digit, NeedsDigit);
    r := AddIf(r4, !symbol, NeedsSymbol);
    AddIfRanked(r4, !symbol, NeedsSymbol);
  }

  /** The checks in the order they run. */
  function Rank(e: PasswordError): nat
  {
    match e
    case Required => 0
    case TooCommon => 1
    case NeedsLower => 2
    case NeedsUpper => 3
    case NeedsDigit => 4
    case NeedsSymbol => 5
  }

  predicate Ranked(errors: seq<PasswordError>)
  {
    forall i, j :: 0 <= i < j < |errors| ==> Rank(errors[i]) < Rank(errors[j])
  }

  /** An error added after the errors of earlier checks keeps the list in
    * check order; it is in the list exactly when its check failed. */
  lemma AddIfRanked(errors: seq<PasswordError>, failed: bool, error: PasswordError)
    requires Ranked(errors) && forall x :: x in errors ==> Rank(x) < Rank(error)
    ensures Ranked(AddIf(errors, failed, error))
    ensures forall x :: x in AddIf(errors, failed, error) <==> x in errors || (failed && x == error)
    ensures forall x :: x in AddIf(errors, failed, error) ==> Rank(x) <= Rank(error)
  {
    var r := AddIf(errors, failed, error);
    forall i, j | 0 <= i < j < |r| ensures Rank(r[i]) < Rank(r[j]) {
      if j == |errors| {
        assert r[i] in errors;
      }
    }
  }

  /** The descriptions tell the errors apart. */
  lemma DescriptionsDistinct(a: PasswordError, b: PasswordError)
    requires a != b
    ensures Description(a) != Description(b)
  {
  }

  /** The password passes exactly when it is given, not on the denylist in
    * any capitalisation, and has a lowercase and an uppercase letter, a
    * digit and a symbol; otherwise it fails with at least one error. */
  lemma ValidationMeaning(password: Option<string>)
    ensures Validation(password) == Success <==>
      && password.Some? && password.value != "" && !IsCommon(password.value)
      && HasLower(password.value) && HasUpper(password.value) && HasDigit(password.value) && HasSymbol(password.value)
    ensures Validation(password).Failed? ==> Validation(password).errors != []
  {
  }

  /** The denylist ignores case. */
  lemma CommonIgnoresCase(p: string, q: string)
    requires EqualsIgnoreCase(p, q)
    ensures IsCommon(p) <==> IsCommon(q)
  {
  }
}
