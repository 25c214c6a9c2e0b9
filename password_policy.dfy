/**
 * `passwordPolicy.js`, the live checklist beside the registration form: five
 * rules on the typed value, and an `update` that marks each rule's list
 * item `ok` or `bad`.
 */
module PasswordPolicy {
  import opened Wrappers
  import opened Text
  import StrongPassword

  datatype Rule = Len | Upper | Lower | Digit | Symbol

  /** The rules in the order `Object.entries(rules)` visits them. */
  const RuleOrder: seq<Rule> := [Len, Upper, Lower, Digit, Symbol]

  /** The key of a rule in `rules`, matched against `data-rule`. */
  function Key(rule: Rule): string
  {
    match rule
    case Len => "len"
    case Upper => "upper"
    case Lower => "lower"
    case Digit => "digit"
    case Symbol => "symbol"
  }

  function RuleOfKey(key: string): (r: Option<Rule>)
    ensures r.Some? ==> Key(r.value) == key
    ensures forall rule :: Key(rule) == key ==> r == Some(rule)
  {
    if key == "len" then Some(Len)
    else if key == "upper" then Some(Upper)
    else if key == "lower" then Some(Lower)
    else if key == "digit" then Some(Digit)
    else if key == "symbol" then Some(Symbol)
    else None
  }

  function Position(rule: Rule): nat
  {
    match rule
    case Len => 0
    case Upper => 1
    case Lower => 2
    case Digit => 3
    case Symbol => 4
  }

  /** A character of `[^A-Za-z0-9\s]`. */
  predicate IsJsSymbol(c: char)
  {
    !IsAsciiLetter(c) && !IsAsciiDigit(c) && !IsJsSpace(c)
  }

  /** `v.length`: UTF-16 code units, two for a character beyond the basic
    * multilingual plane. */
  function Utf16Length(v: string): (n: nat)
    ensures n >= |v|
  {
    if v == [] then 0 else (if v[0] as int > 0xFFFF then 2 else 1) + Utf16Length(v[1..])
  }

  predicate Holds(rule: Rule, v: string)
  {
    match rule
    case Len => Utf16Length(v) >= 10
    case Upper => exists i :: 0 <= i < |v| && IsAsciiUpper(v[i])
    case Lower => exists i :: 0 <= i < |v| && IsAsciiLower(v[i])
    case Digit => exists i :: 0 <= i < |v| && IsAsciiDigit(v[i])
    case Symbol => exists i :: 0 <= i < |v| && IsJsSymbol(v[i])
  }

  /** A list item of the checklist and its class list. */
  class RuleItem {
    var classes: set<string>

    constructor (classes: set<string>)
      ensures this.classes == classes
    {
      this.classes := classes;
    }
  }

  /** `classList.toggle(token, force)`. */
  function Toggle(classes: set<string>, token: string, force: bool): set<string>
  {
    if force then classes + {token} else classes - {token}
  }

  /** The classes of a rule's item after `update`. */
  function Marked(classes: set<string>, ok: bool): set<string>
  {
    Toggle(Toggle(classes, "ok", ok), "bad", !ok)
  }

  /** The classes of the item under `key` after `update` on `v`: marked by
    * its rule, or untouched when no rule has that key. */
  function MarkedFor(key: string, classes: set<string>, v: string): set<string>
  {
    match RuleOfKey(key)
    case Some(rule) => Marked(classes, Holds(rule, v))
    case None => classes
  }

  /** `el.value || ''`. */
  function ValueOf(value: Option<string>): string
  {
    if value.Some? then value.value else ""
  }

  /** `update()`: every rule with an item marks it. The items come from
    * distinct elements, one per `data-rule`. */
  method Update(value: Option<string>, items: map<string, RuleItem>)
    requires forall a, b :: a in items && b in items && a != b ==> items[a] != items[b]
    modifies items.Values
    ensures forall k :: k in items ==> items[k].classes == MarkedFor(k, old(items[k].classes), ValueOf(value))
  {
    var v := if value.Some? then value.value else "";
    for i := 0 to |RuleOrder|
      invariant forall k :: k in items ==>
        items[k].classes == (if RuleOfKey(k).Some? && Position(RuleOfKey(k).value) < i
                             then Marked(old(items[k].classes), Holds(RuleOfKey(k).value, v))
                             else old(items[k].classes))
    {
      var rule := RuleOrder[i];
      assert Position(rule) == i;
      var ok := Holds(rule, v);
      var key := Key(rule);
      if key in items {
        var li := items[key];
        li.classes := Toggle(li.classes, "ok", ok);
        li.classes := Toggle(li.classes, "bad", !ok);
      }
    }
  }

  /** A marked item carries exactly one of `ok` and `bad`, the one its rule's
    * result names, and keeps its other classes. */
  lemma MarkedExactlyOne(classes: set<string>, ok: bool)
    ensures ("ok" in Marked(classes, ok)) == ok
    ensures ("bad" in Marked(classes, ok)) == !ok
    ensures Marked(classes, ok) - {"ok", "bad"} == classes - {"ok", "bad"}
  {
  }

  /** A missing value is the empty string, and it fails every rule. */
  lemma MissingValueFailsAll(rule: Rule)
    ensures ValueOf(None) == ""
    ensures !Holds(rule, ValueOf(None))
  {
  }

  /** Without characters beyond the basic multilingual plane the length
    * rule counts characters. */
  lemma {:induction false} LenCountsCharacters(v: string)
    requires forall i :: 0 <= i < |v| ==> v[i] as int <= 0xFFFF
    ensures Holds(Len, v) <==> |v| >= 10
  {
    BmpLength(v);
  }

  lemma {:induction false} BmpLength(v: string)
    requires forall i :: 0 <= i < |v| ==> v[i] as int <= 0xFFFF
    ensures Utf16Length(v) == |v|
  {
    if v != [] {
      BmpLength(v[1..]);
    }
  }

  /** The letter and digit rules are the server's checks. */
  lemma ClassesMatchServer(v: string)
    ensures Holds(Upper, v) == StrongPassword.HasUpper(v)
    ensures Holds(Lower, v) == StrongPassword.HasLower(v)
    ensures Holds(Digit, v) == StrongPassword.HasDigit(v)
  {
  }

  /** The symbol rule is the server's symbol check except on the two
    * characters the regex dialects disagree about: the next-line control
    * U+0085 (white space only to .NET) and the byte-order mark U+FEFF
    * (white space only to JavaScript). */
  lemma SymbolMatchesServer(v: string)
    requires forall i :: 0 <= i < |v| ==> v[i] != '\U{0085}' && v[i] != '\U{FEFF}'
    ensures Holds(Symbol, v) == StrongPassword.HasSymbol(v)
  {
    forall i | 0 <= i < |v| ensures IsJsSymbol(v[i]) == StrongPassword.IsSymbol(v[i]) {
    }
  }

  /** The two characters the dialects disagree about. */
  lemma SymbolDialectsDiffer()
    ensures !Holds(Symbol, "\U{FEFF}") && StrongPassword.HasSymbol("\U{FEFF}")
    ensures Holds(Symbol, "\U{0085}") && !StrongPassword.HasSymbol("\U{0085}")
  {
    assert IsJsSymbol("\U{0085}"[0]);
    assert StrongPassword.IsSymbol("\U{FEFF}"[0]);
  }

  /** A password the server accepts passes every rule of the checklist but
    * perhaps the length, when it holds no byte-order mark. */
  lemma ServerAcceptedPassesChecklist(v: string)
    requires StrongPassword.Validation(Some(v)) == StrongPassword.Success
    requires forall i :: 0 <= i < |v| ==> v[i] != '\U{FEFF}'
    ensures Holds(Upper, v) && Holds(Lower, v) && Holds(Digit, v) && Holds(Symbol, v)
  {
    StrongPassword.ValidationMeaning(Some(v));
    var i :| 0 <= i < |v| && StrongPassword.IsSymbol(v[i]);
    assert IsJsSymbol(v[i]);
  }
}
