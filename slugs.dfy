/**
 * The slug-suffixing loop shared by the content administration and the event
 * controllers: a first choice, then `base-2`, `base-3`, … until a candidate
 * matches none of the existing slugs case-insensitively.
 */
module Slugs {
  import opened Text
  import opened CmsUrl

  /** `existing.Any(s => string.Equals(s, slug, OrdinalIgnoreCase))`. */
  predicate Taken(existing: seq<string>, slug: string)
  {
    exists s :: s in existing && EqualsIgnoreCase(s, slug)
  }

  /** The `k`-th candidate the loop tries: `first`, then `base-k` for `k >= 2`. */
  function Candidate(first: string, base: string, k: nat): string
  {
    if k <= 1 then first else base + "-" + NatToString(k)
  }

  /** The lower-cased existing slugs. */
  ghost function Lowered(existing: seq<string>): set<string>
  {
    set s | s in existing :: ToLower(s)
  }

  /** The loop of `EnsureUniqueSlugAsync`: tries `first`, then `base-2`,
    * `base-3`, … and returns the first candidate that is not taken, so the
    * result is free and every earlier candidate is taken. It terminates
    * because distinct suffixes give case-insensitively distinct candidates
    * and only finitely many slugs exist. */
  method EnsureUniqueSlug(existing: seq<string>, first: string, base: string) returns (slug: string)
    ensures !Taken(existing, slug)
    ensures exists n :: n >= 1 && slug == Candidate(first, base, n) &&
                        (forall k :: 1 <= k < n ==> Taken(existing, Candidate(first, base, k)))
  {
    slug := first;
    var suffix := 2;
    ghost var remaining := Lowered(existing);
    while Taken(existing, slug)
      invariant suffix >= 2
      invariant slug == Candidate(first, base, suffix - 1)
      invariant forall k :: 1 <= k < suffix - 1 ==> Taken(existing, Candidate(first, base, k))
      invariant remaining <= Lowered(existing)
      invariant forall j :: j >= 2 && j >= suffix - 1 && ToLower(Candidate(first, base, j)) in Lowered(existing) ==>
        ToLower(Candidate(first, base, j)) in remaining
      decreases remaining, if suffix == 2 then 1 else 0
    {
      if suffix > 2 {
        var s :| s in existing && EqualsIgnoreCase(s, slug);
        var low := ToLower(slug);
        assert low in remaining;
        forall j | j >= 2 && j >= suffix && ToLower(Candidate(first, base, j)) in Lowered(existing)
          ensures ToLower(Candidate(first, base, j)) in remaining - {low}
        {
          CandidatesDistinct(first, base, suffix - 1, j);
        }
        remaining := remaining - {low};
      }
      slug := base + "-" + NatToString(suffix);
      suffix := suffix + 1;
    }
  }

  lemma ToLowerAppend(a: string, b: string)
    ensures ToLower(a + b) == ToLower(a) + ToLower(b)
  {
  }

  /** Suffixed candidates are distinct, even ignoring case. */
  lemma CandidatesDistinct(first: string, base: string, j: nat, k: nat)
    requires 2 <= j < k
    ensures ToLower(Candidate(first, base, j)) != ToLower(Candidate(first, base, k))
  {
    var dj, dk := NatToString(j), NatToString(k);
    NatToStringDigits(j);
    NatToStringDigits(k);
    ToLowerIdentity(dj);
    ToLowerIdentity(dk);
    ToLowerAppend(base + "-", dj);
    ToLowerAppend(base + "-", dk);
    var p := ToLower(base + "-");
    assert dj != dk by {
      if dj == dk { NatToStringInjective(j, k); }
    }
    assert (p + dj)[|p|..] == dj && (p + dk)[|p|..] == dk;
  }

  /** A suffixed slug is still a slug when the base is a non-empty slug. */
  lemma CandidateIsSlug(first: string, base: string, k: nat)
    requires first != "" && IsSlug(first)
    requires base != "" && IsSlug(base)
    ensures Candidate(first, base, k) != "" && IsSlug(Candidate(first, base, k))
  {
    if k >= 2 {
      var d := NatToString(k);
      NatToStringDigits(k);
      var r := base + "-" + d;
      assert r == base + ['-'] + d;
      forall i | 0 <= i < |r| ensures SlugChar(r[i]) {
        if i < |base| { assert r[i] == base[i]; }
        else if i > |base| { assert r[i] == d[i - |base| - 1]; }
      }
      forall i | 0 <= i < |r| - 1 ensures !(r[i] == '-' && r[i + 1] == '-') {
        if i + 1 < |base| { assert r[i] == base[i] && r[i + 1] == base[i + 1]; }
        else if i + 1 == |base| { assert r[i] == base[|base| - 1]; }
        else { assert r[i + 1] == d[i - |base|]; }
      }
      assert r[|r| - 1] == d[|d| - 1];
    }
  }
}
