/**
 * Canonical CMS URLs (`CmsUrlService`): slug-ising one path segment,
 * canonicalising a whole path, and reading its top-level segment.
 */
module CmsUrl {
  import opened Wrappers
  import opened Text

  /** A character that may appear in a normalised segment. */
  predicate SlugChar(c: char) { IsAsciiLower(c) || IsAsciiDigit(c) || c == '-' }

  predicate NoDoubleHyphen(s: string)
  {
    forall i :: 0 <= i < |s| - 1 ==> !(s[i] == '-' && s[i + 1] == '-')
  }

  /** The shape of every `NormalizeSegment` result: lower-case letters, digits and
    * single hyphens, with no hyphen at either end. */
  predicate IsSlug(s: string)
  {
    && (forall i :: 0 <= i < |s| ==> SlugChar(s[i]))
    && NoDoubleHyphen(s)
    && (|s| > 0 ==> s[0] != '-' && s[|s| - 1] != '-')
  }

  predicate EndsWithHyphen(b: string) { |b| > 0 && b[|b| - 1] == '-' }

  /** What the segment loop has appended to its builder after consuming `s`:
    * letters and digits are copied, and each run of other characters becomes
    * one hyphen. */
  function Hyphenate(s: string): string
  {
    if s == [] then []
    else
      var b := Hyphenate(s[..|s| - 1]);
      var c := s[|s| - 1];
      if IsLetterOrDigit(c) then b + [c]
      else if EndsWithHyphen(b) then b
      else b + ['-']
  }

  /** The value `NormalizeSegment` returns. */
  function NormalizedSegment(input: string): string
  {
    if IsBlank(input) then ""
    else TrimChar(Hyphenate(ToLower(Trim(input))), '-')
  }

  /** `CmsUrlService.NormalizeSegment`: slug-ises one segment with a
    * character loop that remembers whether it last emitted a hyphen. */
  method NormalizeSegment(input: string) returns (r: string)
    ensures r == NormalizedSegment(input)
  {
    if IsBlank(input) {
      return "";
    }
    var trimmed := ToLower(Trim(input));
    var builder := "";
    var lastWasHyphen := false;
    var i := 0;
    while i < |trimmed|
      invariant 0 <= i <= |trimmed|
      invariant builder == Hyphenate(trimmed[..i])
      invariant lastWasHyphen <==> EndsWithHyphen(builder)
    {
      var ch := trimmed[i];
      assert trimmed[..i + 1][..i] == trimmed[..i];
      if IsLetterOrDigit(ch) {
        builder := builder + [ch];
        lastWasHyphen := false;
      } else if !lastWasHyphen {
        builder := builder + ['-'];
        lastWasHyphen := true;
      }
      i := i + 1;
    }
    assert trimmed[..i] == trimmed;
    r := TrimChar(builder, '-');
  }

  /** `NormalizeSegment` applied to every piece, blank results dropped
    * (the `Select`/`Where` of `NormalizePath`). */
  function NormalizedSegments(segs: seq<string>): seq<string>
  {
    if segs == [] then []
    else
      var n := NormalizedSegment(segs[0]);
      (if IsBlank(n) then [] else [n]) + NormalizedSegments(segs[1..])
  }

  /** `CmsUrlService.NormalizePath`. */
  function NormalizePath(path: string): string
  {
    if IsBlank(path) || path == "/" then "/"
    else "/" + Join(NormalizedSegments(Split(path, '/')), '/')
  }

  /** `CmsUrlService.NormalizeCustomUrl`. */
  function NormalizeCustomUrl(path: string): string
  {
    if IsBlank(path) then "/" else NormalizePath(path)
  }

  /** `CmsUrlService.EnsureLeadingSlash`. */
  function EnsureLeadingSlash(path: string): (r: string)
    ensures StartsWith(r, "/")
    ensures IsBlank(path) ==> r == "/"
    ensures !IsBlank(path) && StartsWith(path, "/") ==> r == path
    ensures !IsBlank(path) && !StartsWith(path, "/") ==> r[0] == '/' && r[1..] == path
  {
    if IsBlank(path) then "/"
    else if StartsWith(path, "/") then path
    else "/" + path
  }

  /** `CmsUrlService.GetTopLevelSegment`; `None` stands for null. */
  function GetTopLevelSegment(path: string): Option<string>
  {
    if IsBlank(path) || path == "/" then None
    else
      var parts := Split(TrimChar(path, '/'), '/');
      if parts == [] then None else Some(parts[0])
  }

  /** A canonical path: `/` followed by non-empty slugs separated by `/`. */
  predicate IsCanonicalPath(p: string)
  {
    && |p| > 0 && p[0] == '/'
    && p == "/" + Join(Split(p, '/'), '/')
    && (forall s :: s in Split(p, '/') ==> s != "" && IsSlug(s))
  }

  // ---------------------------------------------------------------------
  // NormalizeSegment

  lemma {:induction false} HyphenateShape(s: string)
    requires forall i :: 0 <= i < |s| ==> !IsAsciiUpper(s[i])
    ensures |Hyphenate(s)| <= |s|
    ensures forall i :: 0 <= i < |Hyphenate(s)| ==> SlugChar(Hyphenate(s)[i])
    ensures NoDoubleHyphen(Hyphenate(s))
  {
    if s != [] {
      var p := s[..|s| - 1];
      HyphenateShape(p);
    }
  }

  /** Letters, digits and single hyphens pass through the loop unchanged. */
  lemma {:induction false} HyphenateFixed(s: string)
    requires forall i :: 0 <= i < |s| ==> IsLetterOrDigit(s[i]) || s[i] == '-'
    requires NoDoubleHyphen(s)
    ensures Hyphenate(s) == s
  {
    if s != [] {
      var p := s[..|s| - 1];
      HyphenateFixed(p);
      assert s == p + [s[|s| - 1]];
      if |p| > 0 && s[|s| - 1] == '-' {
        assert s[|s| - 2] != '-';
      }
    }
  }

  /** What `NormalizeSegment` returns: blank input gives the empty string;
    * the result is a slug (only lower-case letters, digits and hyphens, no
    * two hyphens in a row, no hyphen at either end) and is never longer than
    * the input. */
  lemma NormalizedSegmentShape(input: string)
    ensures IsBlank(input) ==> NormalizedSegment(input) == ""
    ensures IsSlug(NormalizedSegment(input))
    ensures |NormalizedSegment(input)| <= |input|
  {
    if !IsBlank(input) {
      var t := Trim(input);
      var _ := TrimShape(input);
      var l := ToLower(t);
      var h := Hyphenate(l);
      HyphenateShape(l);
      var k := TrimCharShape(h, '-');
      var r := TrimChar(h, '-');
      assert r == h[k..k + |r|];
      forall i | 0 <= i < |r| ensures SlugChar(r[i]) {
        assert r[i] == h[k + i];
      }
      forall i | 0 <= i < |r| - 1 ensures !(r[i] == '-' && r[i + 1] == '-') {
        assert r[i] == h[k + i] && r[i + 1] == h[k + i + 1];
      }
    }
  }

  /** The fixed points of `NormalizeSegment` are exactly the slugs. */
  lemma NormalizedSegmentFixedPoints(s: string)
    ensures NormalizedSegment(s) == s <==> IsSlug(s)
  {
    NormalizedSegmentShape(s);
    if IsSlug(s) && s != "" {
      assert !IsWhiteSpace(s[0]);
      TrimNoWhiteSpace(s);
      ToLowerIdentity(s);
      HyphenateFixed(s);
      TrimCharNoop(s, '-');
    }
  }

  /** `NormalizeSegment` is idempotent. */
  lemma NormalizeSegmentIdempotent(s: string)
    ensures NormalizedSegment(NormalizedSegment(s)) == NormalizedSegment(s)
  {
    NormalizedSegmentShape(s);
    NormalizedSegmentFixedPoints(NormalizedSegment(s));
  }

  // ---------------------------------------------------------------------
  // NormalizePath

  lemma {:induction false} NormalizedSegmentsShape(segs: seq<string>)
    ensures forall s :: s in NormalizedSegments(segs) ==> s != "" && IsSlug(s)
  {
    if segs != [] {
      NormalizedSegmentShape(segs[0]);
      NormalizedSegmentsShape(segs[1..]);
    }
  }

  /** Segments that are already non-empty slugs are kept as they are. */
  lemma {:induction false} NormalizedSegmentsFixed(segs: seq<string>)
    requires forall s :: s in segs ==> s != "" && IsSlug(s)
    ensures NormalizedSegments(segs) == segs
  {
    if segs != [] {
      NormalizedSegmentFixedPoints(segs[0]);
      assert segs[0] in segs;
      assert !IsBlank(segs[0]) by { assert !IsWhiteSpace(segs[0][0]); }
      assert forall s :: s in segs[1..] ==> s in segs;
      NormalizedSegmentsFixed(segs[1..]);
      assert segs == [segs[0]] + segs[1..];
    }
  }

  lemma SlugNoSlash(s: string)
    requires IsSlug(s)
    ensures '/' !in s
  {
    forall i | 0 <= i < |s| ensures s[i] != '/' {
      assert SlugChar(s[i]);
    }
  }

  /** `NormalizePath` yields `/` followed by the normalised, non-blank
    * segments of its input joined with `/`, and those are exactly its own
    * segments. */
  lemma NormalizePathSegments(path: string)
    ensures !(IsBlank(path) || path == "/") ==>
      Split(NormalizePath(path), '/') == NormalizedSegments(Split(path, '/'))
    ensures IsBlank(path) || path == "/" ==> NormalizePath(path) == "/"
    ensures IsCanonicalPath(NormalizePath(path))
  {
    var r := NormalizePath(path);
    if IsBlank(path) || path == "/" {
      assert Split("/", '/') == [] by { SplitSepFront("", '/'); }
      assert r == "/" + Join([], '/');
    } else {
      var segs := NormalizedSegments(Split(path, '/'));
      NormalizedSegmentsShape(Split(path, '/'));
      forall s | s in segs ensures s != "" && '/' !in s {
        SlugNoSlash(s);
      }
      SplitJoin(segs, '/');
      assert r == ['/'] + Join(segs, '/');
      SplitSepFront(Join(segs, '/'), '/');
    }
  }

  /** Every normalised path is canonical, and canonical paths are exactly
    * the fixed points of `NormalizePath`: it is idempotent. */
  lemma NormalizePathCanonical(p: string)
    ensures NormalizePath(p) == p <==> IsCanonicalPath(p)
    ensures NormalizePath(NormalizePath(p)) == NormalizePath(p)
  {
    NormalizePathSegments(p);
    if IsCanonicalPath(p) {
      CanonicalIsFixed(p);
    }
    CanonicalIsFixed(NormalizePath(p));
  }

  lemma CanonicalIsFixed(p: string)
    requires IsCanonicalPath(p)
    ensures NormalizePath(p) == p
  {
    var segs := Split(p, '/');
    if segs == [] {
      assert p == "/";
    } else {
      assert segs[0] in segs;
      JoinFirst(segs, '/');
      assert !IsBlank(p) by {
        assert !IsWhiteSpace(p[1]);
      }
      assert p != "/";
      NormalizedSegmentsFixed(segs);
    }
  }

  /** A normalised path ends with `/` only when it is exactly `/`, and it holds
    * nothing but slug characters and slashes (in particular no `.`). */
  lemma NormalizePathChars(path: string)
    ensures var r := NormalizePath(path);
      (r[|r| - 1] == '/' <==> r == "/")
      && (forall i :: 0 <= i < |r| ==> SlugChar(r[i]) || r[i] == '/')
  {
    NormalizePathSegments(path);
    var r := NormalizePath(path);
    var segs := Split(r, '/');
    assert r == "/" + Join(segs, '/');
    JoinChars(segs, '/', c => SlugChar(c) || c == '/');
    forall i | 0 <= i < |r| ensures SlugChar(r[i]) || r[i] == '/' {
      if i > 0 { assert r[i] == Join(segs, '/')[i - 1]; }
    }
    if segs != [] {
      var last := segs[|segs| - 1];
      assert last in segs;
      JoinLast(segs, '/');
      SlugNoSlash(last);
      assert last[|last| - 1] in last;
    }
  }

  /** `NormalizeCustomUrl` agrees with `NormalizePath` on every input. */
  lemma NormalizeCustomUrlIsNormalizePath(path: string)
    ensures NormalizeCustomUrl(path) == NormalizePath(path)
    ensures IsBlank(path) ==> NormalizeCustomUrl(path) == "/"
  {
  }

  /** `EnsureLeadingSlash` is idempotent and never yields a blank path. */
  lemma EnsureLeadingSlashIdempotent(path: string)
    ensures EnsureLeadingSlash(EnsureLeadingSlash(path)) == EnsureLeadingSlash(path)
    ensures !IsBlank(EnsureLeadingSlash(path))
  {
    var r := EnsureLeadingSlash(path);
    assert !IsWhiteSpace(r[0]);
  }

  // ---------------------------------------------------------------------
  // GetTopLevelSegment

  /** The top-level segment is null for blank input or `/`, and otherwise the
    * first non-empty `/`-separated piece of the path. */
  lemma TopLevelSegmentIsFirst(path: string)
    ensures GetTopLevelSegment(path) ==
      if IsBlank(path) || path == "/" || Split(path, '/') == [] then None
      else Some(Split(path, '/')[0])
  {
    SplitTrimChar(path, '/');
  }

  /** On a normalised path the top-level segment is its first segment: null
    * exactly for `/`, and otherwise a non-empty slug. */
  lemma TopLevelOfNormalized(path: string)
    ensures var r := NormalizePath(path);
      && (GetTopLevelSegment(r).None? <==> r == "/")
      && (GetTopLevelSegment(r).Some? ==>
            Split(r, '/') != [] && GetTopLevelSegment(r).value == Split(r, '/')[0]
            && GetTopLevelSegment(r).value != ""
            && IsSlug(GetTopLevelSegment(r).value))
  {
    var r := NormalizePath(path);
    NormalizePathSegments(path);
    TopLevelSegmentIsFirst(r);
    var segs := Split(r, '/');
    if segs != [] {
      assert segs[0] in segs;
      JoinFirst(segs, '/');
      assert !IsWhiteSpace(r[1]);
      assert r != "/";
    } else {
      assert r == "/";
    }
  }

  /** `/` followed by non-empty slugs joined with `/` is a canonical path
    * whose segments are exactly those slugs. */
  lemma SegmentsPath(segs: seq<string>)
    requires forall s :: s in segs ==> s != "" && IsSlug(s)
    ensures IsCanonicalPath("/" + Join(segs, '/'))
    ensures Split("/" + Join(segs, '/'), '/') == segs
  {
    forall s | s in segs ensures s != "" && '/' !in s {
      SlugNoSlash(s);
    }
    SplitJoin(segs, '/');
    assert "/" + Join(segs, '/') == ['/'] + Join(segs, '/');
    SplitSepFront(Join(segs, '/'), '/');
  }
}
