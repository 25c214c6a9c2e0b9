/**
 * `CmsUrlNormalizationMiddleware`: a GET or HEAD request for a page path that
 * is not in normal form is answered with a permanent redirect to its normal
 * form; every other request goes on to the next handler.
 */
module UrlMiddleware {
  import opened Wrappers
  import opened Text
  import opened CmsUrl

  /** What the middleware does with a request. */
  datatype Outcome =
    | Next
    | MovedPermanently(location: string)

  /** `HttpMethods.IsGet(m) || HttpMethods.IsHead(m)`, which ignore case. */
  predicate IsGetOrHead(httpMethod: string)
  {
    EqualsIgnoreCase(httpMethod, "GET") || EqualsIgnoreCase(httpMethod, "HEAD")
  }

  /** `Path.HasExtension` on the first `n` characters, with `/` as the only
    * directory separator: scanning back from the end, a `.` comes before
    * any `/`, and it is not the last character of `path`. */
  predicate HasExtensionBefore(path: string, n: nat)
    requires n <= |path|
  {
    if n == 0 then false
    else if path[n - 1] == '.' then n != |path|
    else if path[n - 1] == '/' then false
    else HasExtensionBefore(path, n - 1)
  }

  predicate HasExtension(path: string)
  {
    HasExtensionBefore(path, |path|)
  }

  /** The scan is the same as asking for a `.` that is not the final
    * character and that has neither `.` nor `/` after it. */
  lemma {:induction false} HasExtensionBeforeMeans(path: string, n: nat)
    requires n <= |path|
    ensures HasExtensionBefore(path, n) <==>
      exists i :: 0 <= i < n && i != |path| - 1 && path[i] == '.' && forall j :: i < j < n ==> path[j] != '.' && path[j] != '/'
  {
    if n > 0 && path[n - 1] != '.' && path[n - 1] != '/' {
      HasExtensionBeforeMeans(path, n - 1);
      if HasExtensionBefore(path, n - 1) {
        var i :| 0 <= i < n - 1 && i != |path| - 1 && path[i] == '.' && forall j :: i < j < n - 1 ==> path[j] != '.' && path[j] != '/';
        assert forall j :: i < j < n ==> path[j] != '.' && path[j] != '/';
      }
    }
  }

  lemma HasExtensionMeans(path: string)
    ensures HasExtension(path) <==>
      exists i :: 0 <= i < |path| - 1 && path[i] == '.' && forall j :: i < j < |path| ==> path[j] != '.' && path[j] != '/'
  {
    HasExtensionBeforeMeans(path, |path|);
  }

  /** `ShouldNormalize`. */
  predicate ShouldNormalize(httpMethod: string, path: string)
  {
    IsGetOrHead(httpMethod) && !(IsBlank(path) || path == "/") && !HasExtension(path)
  }

  /** `InvokeAsync`; a request without a path is taken to be for `/`, and
    * the query string is carried over to the redirect. */
  function Invoke(httpMethod: string, requestPath: Option<string>, queryString: string): (r: Outcome)
    ensures var path := if requestPath.Some? then requestPath.value else "/";
      r.MovedPermanently? ==> r.location == NormalizePath(path) + queryString
  {
    var path := if requestPath.Some? then requestPath.value else "/";
    if !ShouldNormalize(httpMethod, path) then Next
    else
      var normalized := NormalizePath(path);
      if path != normalized then MovedPermanently(normalized + queryString) else Next
  }

  /** A request is redirected exactly when the middleware looks at it and its
    * path is not canonical; a canonical path goes on unchanged. */
  lemma InvokeRedirectsNonCanonical(httpMethod: string, path: string, queryString: string)
    ensures Invoke(httpMethod, Some(path), queryString).MovedPermanently? <==>
      ShouldNormalize(httpMethod, path) && !IsCanonicalPath(path)
  {
    NormalizePathCanonical(path);
  }

  /** A normalised path has no extension: its characters are slug
    * characters and slashes, never `.`. */
  lemma NormalizedHasNoExtension(path: string)
    ensures !HasExtension(NormalizePath(path))
  {
    NormalizePathChars(path);
    HasExtensionMeans(NormalizePath(path));
  }

  /** Following a redirect never leads to a second one: the target is again
    * looked at (it has no extension) and is already in normal form. */
  lemma NoSecondRedirect(httpMethod: string, requestPath: Option<string>, queryString: string)
    requires Invoke(httpMethod, requestPath, queryString).MovedPermanently?
    ensures var target := NormalizePath(requestPath.value);
      && (target != "/" ==> ShouldNormalize(httpMethod, target))
      && Invoke(httpMethod, Some(target), queryString) == Next
  {
    var target := NormalizePath(requestPath.value);
    NormalizePathCanonical(requestPath.value);
    NormalizedHasNoExtension(requestPath.value);
    NormalizePathChars(requestPath.value);
    if target != "/" {
      assert !IsWhiteSpace(target[0]);
    }
  }
}
