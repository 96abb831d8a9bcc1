/** Normalisation of a listing URL (`clean_url`): the query and the fragment
    are dropped, so what is requested and what is shown in alerts is the
    scheme, host and path only. */
module Url {

  /** Characters that open the query and the fragment of a URL. */
  predicate IsDelimiter(c: char)
  {
    c == '?' || c == '#'
  }

  /** The URL up to, not including, its first `?` or `#`. */
  function CleanUrl(u: string): (r: string)
    ensures r <= u
    ensures forall i :: 0 <= i < |r| ==> !IsDelimiter(r[i])
    ensures |r| < |u| ==> IsDelimiter(u[|r|])
  {
    if u == [] || IsDelimiter(u[0]) then [] else [u[0]] + CleanUrl(u[1..])
  }

  /** The three properties of `CleanUrl`'s contract determine its result:
      whatever prefix of `u` stops at the first delimiter is `CleanUrl(u)`. */
  lemma {:induction false} CleanUrlUnique(u: string, r: string)
    requires r <= u
    requires forall i :: 0 <= i < |r| ==> !IsDelimiter(r[i])
    requires |r| < |u| ==> IsDelimiter(u[|r|])
    ensures r == CleanUrl(u)
  {
  }

  /** Cleaning twice is cleaning once. */
  lemma CleanUrlIdempotent(u: string)
    ensures CleanUrl(CleanUrl(u)) == CleanUrl(u)
  {
    var c := CleanUrl(u);
    CleanUrlUnique(c, c);
  }

  /** Whatever query or fragment follows a clean base URL is dropped, and the
      base is kept whole. */
  lemma CleanUrlDropsSuffix(base: string, delimiter: char, tail: string)
    requires forall i :: 0 <= i < |base| ==> !IsDelimiter(base[i])
    requires IsDelimiter(delimiter)
    ensures CleanUrl(base + [delimiter] + tail) == base
  {
    var u := base + [delimiter] + tail;
    assert u[|base|] == delimiter;
    CleanUrlUnique(u, base);
  }
}
