/**
 * The two URL helpers of pkg/crawler/crawler.go, `formatURL` and `isValidURL`.
 * Go's net/url package (Parse, ResolveReference, String) is not modelled: it is
 * passed in as a value of `UrlLib` whose functions are left uninterpreted.
 */
module NetUrl {
  import opened Wrappers

  /** The parts of a parsed URL the crawler inspects; the remaining components are kept opaque in `rest`. */
  datatype Url = Url(scheme: string, host: string, rest: string)

  /**
   * net/url as seen by the crawler: `parse` is url.Parse (None on a parse error),
   * `resolve(base, ref)` is base.ResolveReference(ref) and `render` is URL.String.
   */
  datatype UrlLib = UrlLib(parse: string -> Option<Url>, resolve: (Url, Url) -> Url, render: Url -> string)

  /** url.URL.IsAbs: the URL has a scheme. */
  predicate IsAbs(u: Url)
  {
    u.scheme != ""
  }

  /** `isValidURL`: the string parses and has a scheme and a host. */
  predicate IsValidURL(lib: UrlLib, s: string)
  {
    lib.parse(s).Some? && lib.parse(s).value.scheme != "" && lib.parse(s).value.host != ""
  }

  /**
   * `formatURL(base, l)`: an absolute href is returned as serialised; a relative one is
   * resolved against the page it was found on; any parse error yields "".
   */
  function FormatURL(lib: UrlLib, base: string, l: string): (r: string)
    ensures lib.parse(l).None? ==> r == ""
    ensures lib.parse(l).Some? && !IsAbs(lib.parse(l).value) && lib.parse(base).None? ==> r == ""
  {
    match lib.parse(l)
    case None => ""
    case Some(ref) =>
      if IsAbs(ref) then lib.render(ref)
      else
        match lib.parse(base)
        case None => ""
        case Some(b) => lib.render(lib.resolve(b, ref))
  }

  /** An absolute href is formatted the same whatever page it was found on. */
  lemma AbsoluteIgnoresBase(lib: UrlLib, base1: string, base2: string, l: string)
    requires lib.parse(l).Some? && IsAbs(lib.parse(l).value)
    ensures FormatURL(lib, base1, l) == FormatURL(lib, base2, l) == lib.render(lib.parse(l).value)
  {
  }

  /** url.Parse("") yields the empty URL (or fails), so "" never passes `isValidURL`. */
  lemma ValidURLIsNonEmpty(lib: UrlLib, s: string)
    requires lib.parse("").None? || lib.parse("").value.scheme == ""
    requires IsValidURL(lib, s)
    ensures s != ""
  {
  }
}
