/**
 * The string operations of the .NET base library (and of JavaScript) that the
 * application relies on, restricted to ASCII: character classes, trimming,
 * case mapping, splitting and joining, ordinal comparison and decimal numerals.
 */
module Text {
  import opened Wrappers

  predicate IsAsciiLower(c: char) { 'a' <= c <= 'z' }
  predicate IsAsciiUpper(c: char) { 'A' <= c <= 'Z' }
  predicate IsAsciiLetter(c: char) { IsAsciiLower(c) || IsAsciiUpper(c) }
  predicate IsAsciiDigit(c: char) { '0' <= c <= '9' }

  /** `char.IsLetterOrDigit` on ASCII. */
  predicate IsLetterOrDigit(c: char) { IsAsciiLetter(c) || IsAsciiDigit(c) }

  /** `char.IsWhiteSpace` (and the regex class `\s`) on ASCII: tab, line feed,
    * vertical tab, form feed, carriage return and space. */
  predicate IsWhiteSpace(c: char) { c == ' ' || '\t' <= c <= '\r' }

  /** JavaScript's `\s`: the white space and line terminators of ECMAScript,
    * the `Zs` space separators and the byte-order mark. */
  predicate IsJsSpace(c: char)
  {
    || ('\t' <= c <= '\r') || c == ' ' || c == '\U{00A0}' || c == '\U{1680}'
    || ('\U{2000}' <= c <= '\U{200A}') || c == '\U{2028}' || c == '\U{2029}' || c == '\U{202F}'
    || c == '\U{205F}' || c == '\U{3000}' || c == '\U{FEFF}'
  }

  function ToLowerChar(c: char): char
  {
    if IsAsciiUpper(c) then (c as int + 32) as char else c
  }

  function ToUpperChar(c: char): char
  {
    if IsAsciiLower(c) then (c as int - 32) as char else c
  }

  /** `ToLowerInvariant`. */
  function ToLower(s: string): string
  {
    seq(|s|, i requires 0 <= i < |s| => ToLowerChar(s[i]))
  }

  /** `ToUpperInvariant`. */
  function ToUpper(s: string): string
  {
    seq(|s|, i requires 0 <= i < |s| => ToUpperChar(s[i]))
  }

  /** `string.IsNullOrWhiteSpace`, with null identified with the empty string. */
  predicate IsBlank(s: string)
  {
    forall i :: 0 <= i < |s| ==> IsWhiteSpace(s[i])
  }

  function TrimStart(s: string): string
  {
    if |s| > 0 && IsWhiteSpace(s[0]) then TrimStart(s[1..]) else s
  }

  function TrimEnd(s: string): string
  {
    if |s| > 0 && IsWhiteSpace(s[|s| - 1]) then TrimEnd(s[..|s| - 1]) else s
  }

  /** `string.Trim()`: white space removed from both ends. */
  function Trim(s: string): string
  {
    TrimEnd(TrimStart(s))
  }

  function TrimStartChar(s: string, c: char): string
  {
    if |s| > 0 && s[0] == c then TrimStartChar(s[1..], c) else s
  }

  /** `string.TrimEnd(c)`. */
  function TrimEndChar(s: string, c: char): string
  {
    if |s| > 0 && s[|s| - 1] == c then TrimEndChar(s[..|s| - 1], c) else s
  }

  /** `string.Trim(c)`: every leading and trailing `c` removed. */
  function TrimChar(s: string, c: char): string
  {
    TrimEndChar(TrimStartChar(s, c), c)
  }

  /** `s.StartsWith(p, StringComparison.Ordinal)`. */
  predicate StartsWith(s: string, p: string)
  {
    |p| <= |s| && s[..|p|] == p
  }

  /** Substring containment (`s.Contains(t)`, SQL `LIKE '%t%'`). */
  predicate Contains(s: string, t: string)
  {
    StartsWith(s, t) || (|s| > 0 && Contains(s[1..], t))
  }

  /** `string.Equals(a, b, StringComparison.OrdinalIgnoreCase)`. */
  predicate EqualsIgnoreCase(a: string, b: string)
  {
    ToLower(a) == ToLower(b)
  }

  /** Ordinal (code-unit) ordering of strings: `string.CompareOrdinal(a, b) <= 0`,
    * which is also JavaScript's `a <= b` on strings. */
  predicate OrdinalLe(a: string, b: string)
  {
    if |a| == 0 then true
    else if |b| == 0 then false
    else if a[0] != b[0] then a[0] < b[0]
    else OrdinalLe(a[1..], b[1..])
  }

  /** Strict ordinal ordering: JavaScript's `a < b` on strings. */
  predicate OrdinalLt(a: string, b: string)
  {
    OrdinalLe(a, b) && a != b
  }

  /** All pieces of `s` between occurrences of `sep`, the empty ones included
    * (`s.Split(sep)`). */
  function SplitAll(s: string, sep: char): (r: seq<string>)
    ensures |r| >= 1
  {
    if |s| == 0 then [""]
    else
      var rest := SplitAll(s[1..], sep);
      if s[0] == sep then [""] + rest else [[s[0]] + rest[0]] + rest[1..]
  }

  function NonEmpty(parts: seq<string>): seq<string>
  {
    if |parts| == 0 then []
    else if parts[0] == "" then NonEmpty(parts[1..])
    else [parts[0]] + NonEmpty(parts[1..])
  }

  /** `s.Split(sep, StringSplitOptions.RemoveEmptyEntries)`. */
  function Split(s: string, sep: char): seq<string>
  {
    NonEmpty(SplitAll(s, sep))
  }

  /** `string.Join(sep, parts)`. */
  function Join(parts: seq<string>, sep: char): string
  {
    if |parts| == 0 then ""
    else if |parts| == 1 then parts[0]
    else parts[0] + [sep] + Join(parts[1..], sep)
  }

  function DigitChar(d: nat): char
    requires d < 10
  {
    ('0' as int + d) as char
  }

  /** Decimal numeral of `n`, as string interpolation writes an integer. */
  function NatToString(n: nat): string
  {
    if n < 10 then [DigitChar(n)] else NatToString(n / 10) + [DigitChar(n % 10)]
  }

  predicate AllDigits(s: string)
  {
    forall i :: 0 <= i < |s| ==> IsAsciiDigit(s[i])
  }

  /** The value of a decimal numeral. */
  function DecimalValue(s: string): nat
    requires AllDigits(s)
  {
    if |s| == 0 then 0
    else DecimalValue(s[..|s| - 1]) * 10 + (s[|s| - 1] as int - '0' as int)
  }

  /** Parses a non-empty run of decimal digits; anything else is rejected. */
  function ParseNat(s: string): (r: Option<nat>)
    ensures r.Some? <==> |s| > 0 && AllDigits(s)
  {
    if |s| > 0 && AllDigits(s) then Some(DecimalValue(s)) else None
  }

  // ---------------------------------------------------------------------
  // Lemmas

  lemma {:induction false} NatToStringDigits(n: nat)
    ensures |NatToString(n)| > 0 && AllDigits(NatToString(n))
    ensures DecimalValue(NatToString(n)) == n
  {
    if n >= 10 {
      NatToStringDigits(n / 10);
      var s := NatToString(n);
      assert s[..|s| - 1] == NatToString(n / 10);
    }
  }

  /** Distinct numbers have distinct numerals. */
  lemma NatToStringInjective(a: nat, b: nat)
    requires NatToString(a) == NatToString(b)
    ensures a == b
  {
    NatToStringDigits(a);
    NatToStringDigits(b);
  }

  /** Parsing undoes printing. */
  lemma ParseNatToString(n: nat)
    ensures ParseNat(NatToString(n)) == Some(n)
  {
    NatToStringDigits(n);
  }

  lemma {:induction false} TrimStartShape(s: string)
    ensures |TrimStart(s)| <= |s|
    ensures TrimStart(s) == s[|s| - |TrimStart(s)|..]
    ensures forall i :: 0 <= i < |s| - |TrimStart(s)| ==> IsWhiteSpace(s[i])
    ensures |TrimStart(s)| > 0 ==> !IsWhiteSpace(TrimStart(s)[0])
  {
    if |s| > 0 && IsWhiteSpace(s[0]) {
      TrimStartShape(s[1..]);
    }
  }

  lemma {:induction false} TrimEndShape(s: string)
    ensures |TrimEnd(s)| <= |s|
    ensures TrimEnd(s) == s[..|TrimEnd(s)|]
    ensures forall i :: |TrimEnd(s)| <= i < |s| ==> IsWhiteSpace(s[i])
    ensures |TrimEnd(s)| > 0 ==> !IsWhiteSpace(TrimEnd(s)[|TrimEnd(s)| - 1])
  {
    if |s| > 0 && IsWhiteSpace(s[|s| - 1]) {
      TrimEndShape(s[..|s| - 1]);
    }
  }

  /** `Trim` removes exactly the white space at the two ends: the result is a
    * piece of the input that is empty exactly when the input is blank, and
    * otherwise starts and ends with non-white-space characters. */
  lemma TrimShape(s: string) returns (k: nat)
    ensures k + |Trim(s)| <= |s|
    ensures Trim(s) == s[k..k + |Trim(s)|]
    ensures Trim(s) == "" <==> IsBlank(s)
    ensures |Trim(s)| > 0 ==> !IsWhiteSpace(Trim(s)[0]) && !IsWhiteSpace(Trim(s)[|Trim(s)| - 1])
  {
    var t := TrimStart(s);
    TrimStartShape(s);
    TrimEndShape(t);
    k := |s| - |t|;
    if |Trim(s)| > 0 {
      assert Trim(s)[0] == t[0] == s[k];
    }
  }

  /** Trimming twice trims nothing more. */
  lemma TrimIdempotent(s: string)
    ensures Trim(Trim(s)) == Trim(s)
    ensures !IsBlank(s) ==> !IsBlank(Trim(s))
  {
    var k := TrimShape(s);
    var t := Trim(s);
    if |t| > 0 {
      assert TrimStart(t) == t;
      assert TrimEnd(t) == t;
    }
  }

  lemma {:induction false} TrimNoWhiteSpace(s: string)
    requires forall i :: 0 <= i < |s| ==> !IsWhiteSpace(s[i])
    ensures Trim(s) == s
  {
    assert TrimStart(s) == s;
    assert TrimEnd(s) == s;
  }

  lemma {:induction false} TrimStartCharShape(s: string, c: char)
    ensures |TrimStartChar(s, c)| <= |s|
    ensures TrimStartChar(s, c) == s[|s| - |TrimStartChar(s, c)|..]
    ensures |TrimStartChar(s, c)| > 0 ==> TrimStartChar(s, c)[0] != c
  {
    if |s| > 0 && s[0] == c {
      TrimStartCharShape(s[1..], c);
    }
  }

  lemma {:induction false} TrimEndCharShape(s: string, c: char)
    ensures |TrimEndChar(s, c)| <= |s|
    ensures TrimEndChar(s, c) == s[..|TrimEndChar(s, c)|]
    ensures |TrimEndChar(s, c)| > 0 ==> TrimEndChar(s, c)[|TrimEndChar(s, c)| - 1] != c
  {
    if |s| > 0 && s[|s| - 1] == c {
      TrimEndCharShape(s[..|s| - 1], c);
    }
  }

  /** `Trim(c)` yields a piece of the input that neither starts nor ends with `c`. */
  lemma TrimCharShape(s: string, c: char) returns (k: nat)
    ensures k + |TrimChar(s, c)| <= |s|
    ensures TrimChar(s, c) == s[k..k + |TrimChar(s, c)|]
    ensures |TrimChar(s, c)| > 0 ==> TrimChar(s, c)[0] != c && TrimChar(s, c)[|TrimChar(s, c)| - 1] != c
  {
    var t := TrimStartChar(s, c);
    TrimStartCharShape(s, c);
    TrimEndCharShape(t, c);
    k := |s| - |t|;
    if |TrimChar(s, c)| > 0 {
      assert TrimChar(s, c)[0] == t[0];
    }
  }

  lemma {:induction false} TrimCharNoop(s: string, c: char)
    requires |s| > 0 ==> s[0] != c && s[|s| - 1] != c
    ensures TrimChar(s, c) == s
  {
    assert TrimStartChar(s, c) == s;
  }

  lemma {:induction false} SplitAllNoSep(s: string, sep: char)
    ensures forall p :: p in SplitAll(s, sep) ==> sep !in p
  {
    if |s| > 0 {
      SplitAllNoSep(s[1..], sep);
    }
  }

  lemma {:induction false} NonEmptyShape(parts: seq<string>)
    ensures forall p :: p in NonEmpty(parts) ==> p != "" && p in parts
    ensures (forall p :: p in parts ==> p != "") ==> NonEmpty(parts) == parts
  {
    if |parts| > 0 {
      NonEmptyShape(parts[1..]);
      assert forall p :: p in parts[1..] ==> p in parts;
      if forall p :: p in parts ==> p != "" {
        assert parts[0] in parts;
        assert parts == [parts[0]] + parts[1..];
      }
    }
  }

  lemma {:induction false} NonEmptyAppend(a: seq<string>, b: seq<string>)
    ensures NonEmpty(a + b) == NonEmpty(a) + NonEmpty(b)
  {
    if |a| > 0 {
      assert (a + b)[1..] == a[1..] + b;
      NonEmptyAppend(a[1..], b);
    } else {
      assert a + b == b;
    }
  }

  /** Every piece produced by `Split` is non-empty and free of the separator. */
  lemma SplitPieces(s: string, sep: char)
    ensures forall p :: p in Split(s, sep) ==> p != "" && sep !in p
  {
    SplitAllNoSep(s, sep);
    NonEmptyShape(SplitAll(s, sep));
  }

  lemma {:induction false} SplitAllPrefix(p: string, t: string, sep: char)
    requires sep !in p
    ensures SplitAll(p + t, sep) == [p + SplitAll(t, sep)[0]] + SplitAll(t, sep)[1..]
  {
    if |p| > 0 {
      assert (p + t)[1..] == p[1..] + t;
      SplitAllPrefix(p[1..], t, sep);
      assert [p[0]] + (p[1..] + SplitAll(t, sep)[0]) == p + SplitAll(t, sep)[0];
    } else {
      var r := SplitAll(t, sep);
      assert p + t == t;
      assert p + r[0] == r[0];
      assert r == [r[0]] + r[1..];
    }
  }

  lemma {:induction false} SplitAllJoin(parts: seq<string>, sep: char)
    requires |parts| >= 1
    requires forall p :: p in parts ==> sep !in p
    ensures SplitAll(Join(parts, sep), sep) == parts
  {
    if |parts| == 1 {
      SplitAllPrefix(parts[0], "", sep);
      assert parts[0] + "" == parts[0];
    } else {
      var rest := Join(parts[1..], sep);
      SplitAllJoin(parts[1..], sep);
      assert Join(parts, sep) == parts[0] + ([sep] + rest);
      SplitAllPrefix(parts[0], [sep] + rest, sep);
      assert ([sep] + rest)[1..] == rest;
      assert SplitAll([sep] + rest, sep) == [""] + parts[1..];
      assert parts[0] + "" == parts[0];
    }
  }

  /** Splitting undoes joining, for non-empty pieces free of the separator. */
  lemma SplitJoin(parts: seq<string>, sep: char)
    requires forall p :: p in parts ==> p != "" && sep !in p
    ensures Split(Join(parts, sep), sep) == parts
  {
    if |parts| > 0 {
      SplitAllJoin(parts, sep);
      NonEmptyShape(parts);
    } else {
      assert SplitAll("", sep) == [""];
      assert NonEmpty([""]) == NonEmpty([]);
    }
  }

  lemma {:induction false} JoinChars(parts: seq<string>, sep: char, P: char -> bool)
    requires P(sep)
    requires forall p, i :: p in parts && 0 <= i < |p| ==> P(p[i])
    ensures forall i :: 0 <= i < |Join(parts, sep)| ==> P(Join(parts, sep)[i])
  {
    if |parts| > 1 {
      JoinChars(parts[1..], sep, P);
      var j := Join(parts, sep);
      var rest := Join(parts[1..], sep);
      forall i | 0 <= i < |j| ensures P(j[i]) {
        if i < |parts[0]| {
          assert j[i] == parts[0][i];
        } else if i > |parts[0]| {
          assert j[i] == rest[i - |parts[0]| - 1];
        }
      }
    }
  }

  /** Joining one more piece appends the separator and that piece. */
  lemma {:induction false} JoinSnoc(parts: seq<string>, x: string, sep: char)
    requires |parts| > 0
    ensures Join(parts + [x], sep) == Join(parts, sep) + [sep] + x
  {
    if |parts| > 1 {
      assert (parts + [x])[1..] == parts[1..] + [x];
      JoinSnoc(parts[1..], x, sep);
    }
  }

  /** The first character of a join of non-empty pieces is the first piece's. */
  lemma JoinFirst(parts: seq<string>, sep: char)
    requires |parts| > 0 && parts[0] != ""
    ensures |Join(parts, sep)| > 0 && Join(parts, sep)[0] == parts[0][0]
  {
  }

  /** The last character of a join of non-empty pieces is the last piece's. */
  lemma {:induction false} JoinLast(parts: seq<string>, sep: char)
    requires |parts| > 0 && parts[|parts| - 1] != ""
    ensures |Join(parts, sep)| > 0
    ensures Join(parts, sep)[|Join(parts, sep)| - 1] == parts[|parts| - 1][|parts[|parts| - 1]| - 1]
  {
    if |parts| > 1 {
      JoinLast(parts[1..], sep);
    }
  }

  lemma {:induction false} SplitSepFront(s: string, sep: char)
    ensures Split([sep] + s, sep) == Split(s, sep)
  {
    assert ([sep] + s)[1..] == s;
  }

  lemma {:induction false} SplitAllSepBack(s: string, sep: char)
    ensures SplitAll(s + [sep], sep) == SplitAll(s, sep) + [""]
  {
    if |s| > 0 {
      assert (s + [sep])[1..] == s[1..] + [sep];
      SplitAllSepBack(s[1..], sep);
    } else {
      assert SplitAll([sep], sep) == [""] + SplitAll([], sep);
    }
  }

  lemma {:induction false} SplitSepBack(s: string, sep: char)
    ensures Split(s + [sep], sep) == Split(s, sep)
  {
    SplitAllSepBack(s, sep);
    NonEmptyAppend(SplitAll(s, sep), [""]);
    assert NonEmpty([""]) == [];
  }

  /** Trimming the separator off the ends does not change what `Split` yields. */
  lemma {:induction false} SplitTrimChar(s: string, sep: char)
    ensures Split(TrimChar(s, sep), sep) == Split(s, sep)
  {
    SplitTrimStart(s, sep);
    SplitTrimEnd(TrimStartChar(s, sep), sep);
  }

  lemma {:induction false} SplitTrimStart(s: string, sep: char)
    ensures Split(TrimStartChar(s, sep), sep) == Split(s, sep)
  {
    if |s| > 0 && s[0] == sep {
      SplitTrimStart(s[1..], sep);
      assert s == [sep] + s[1..];
      SplitSepFront(s[1..], sep);
    }
  }

  lemma {:induction false} SplitTrimEnd(s: string, sep: char)
    ensures Split(TrimEndChar(s, sep), sep) == Split(s, sep)
  {
    if |s| > 0 && s[|s| - 1] == sep {
      SplitTrimEnd(s[..|s| - 1], sep);
      assert s == s[..|s| - 1] + [sep];
      SplitSepBack(s[..|s| - 1], sep);
    }
  }

  lemma ToLowerIdentity(s: string)
    requires forall i :: 0 <= i < |s| ==> !IsAsciiUpper(s[i])
    ensures ToLower(s) == s
  {
  }

  /** Ordinal ordering is a total order. */
  lemma {:induction false} OrdinalLeTotal(a: string, b: string)
    ensures OrdinalLe(a, b) || OrdinalLe(b, a)
  {
    if |a| > 0 && |b| > 0 && a[0] == b[0] {
      OrdinalLeTotal(a[1..], b[1..]);
    }
  }

  lemma {:induction false} OrdinalLeTrans(a: string, b: string, c: string)
    requires OrdinalLe(a, b) && OrdinalLe(b, c)
    ensures OrdinalLe(a, c)
  {
    if |a| > 0 && |b| > 0 && |c| > 0 && a[0] == b[0] && b[0] == c[0] {
      OrdinalLeTrans(a[1..], b[1..], c[1..]);
    }
  }

  lemma {:induction false} OrdinalLeAntisym(a: string, b: string)
    requires OrdinalLe(a, b) && OrdinalLe(b, a)
    ensures a == b
  {
    if |a| > 0 && |b| > 0 {
      OrdinalLeAntisym(a[1..], b[1..]);
      assert a == [a[0]] + a[1..];
      assert b == [b[0]] + b[1..];
    }
  }
}
