/** pkg/crawler/types.go: the `CrawledLinks` map and its `List` method. */
module CrawledLinks {

  /** No element of `s` occurs twice. */
  predicate Distinct<T(==)>(s: seq<T>)
  {
    forall i, j :: 0 <= i < j < |s| ==> s[i] != s[j]
  }

  /** `links` lists every element of `keys` exactly once, in some order. */
  predicate IsListing<T(==)>(links: seq<T>, keys: set<T>)
  {
    && Distinct(links)
    && (forall i :: 0 <= i < |links| ==> links[i] in keys)
    && (forall k :: k in keys ==> k in links)
    && |links| == |keys|
  }

  /** Appending a new key to a listing lists the enlarged set. */
  lemma ListingAppend<T>(links: seq<T>, keys: set<T>, x: T)
    requires IsListing(links, keys) && x !in keys
    ensures IsListing(links + [x], keys + {x})
  {
  }

  /** `CrawledLinks.List`: the keys of the map, whatever boolean each maps to. */
  method List(v: map<string, bool>) returns (links: seq<string>)
    ensures IsListing(links, v.Keys)
  {
    links := [];
    var rest := v.Keys;
    while rest != {}
      invariant rest <= v.Keys
      invariant IsListing(links, v.Keys - rest)
      decreases |rest|
    {
      var s :| s in rest;
      assert (v.Keys - (rest - {s})) == (v.Keys - rest) + {s};
      ListingAppend(links, v.Keys - rest, s);
      links := links + [s];
      rest := rest - {s};
    }
    assert v.Keys - rest == v.Keys;
  }
}
