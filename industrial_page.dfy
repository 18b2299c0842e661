/** client/src/pages/industrial.tsx: the public industrial listing, the
    sample properties filtered by the current filters. */
module IndustrialPage {
  import opened Listings
  import PropertyFilters

  /** Both ends are inclusive. */
  predicate InRange(x: real, r: Range) {
    r.min <= x <= r.max
  }

  /** The filter predicate: industrial only; listing type, state and subtype
      only when that filter is non-empty; price and surface within their ranges. */
  predicate Matches(f: Filters, p: Listing) {
    && p.kind == "industrial"
    && (f.listingType == "" || p.listingType == f.listingType)
    && (f.location == "" || p.state == f.location)
    && (f.propertySubtype == "" || p.propertySubtype == f.propertySubtype)
    && InRange(p.price, f.priceRange)
    && InRange(p.surface, f.surfaceRange)
  }

  /** `a` is `b` with some elements left out, the rest in their order. */
  predicate IsSubsequence<T(==)>(a: seq<T>, b: seq<T>)
    decreases |b|
  {
    if a == [] then true
    else if b == [] then false
    else if a[0] == b[0] then IsSubsequence(a[1..], b[1..])
    else IsSubsequence(a, b[1..])
  }

  /** `sampleProperties.filter(...)`: the listings that match, in their original order. */
  function Filtered(f: Filters, ps: seq<Listing>): (r: seq<Listing>)
    ensures forall p :: p in r <==> p in ps && Matches(f, p)
    ensures |r| <= |ps|
  {
    if ps == [] then []
    else
      var rest := Filtered(f, ps[1..]);
      assert forall p :: p in ps <==> p == ps[0] || p in ps[1..];
      if Matches(f, ps[0]) then [ps[0]] + rest else rest
  }

  /** Each matching listing occurs in the result as often as in the input,
      and no other listing occurs at all. */
  lemma {:induction false} FilteredCounts(f: Filters, ps: seq<Listing>)
    ensures forall p :: multiset(Filtered(f, ps))[p] == if Matches(f, p) then multiset(ps)[p] else 0
    decreases |ps|
  {
    if ps != [] {
      FilteredCounts(f, ps[1..]);
      assert ps == [ps[0]] + ps[1..];
      assert multiset(ps) == multiset{ps[0]} + multiset(ps[1..]);
    }
  }

  /** What the page lists. */
  function FilteredProperties(f: Filters): seq<Listing> {
    Filtered(f, SampleProperties)
  }

  /** A filter that lets through at least what another lets through keeps
      at least that one's result, in the same order. */
  lemma {:induction false} WeakerFilterKeepsMore(f1: Filters, f2: Filters, ps: seq<Listing>)
    requires forall p :: Matches(f1, p) ==> Matches(f2, p)
    ensures IsSubsequence(Filtered(f1, ps), Filtered(f2, ps))
    decreases |ps|
  {
    if ps != [] {
      var a, b := Filtered(f1, ps[1..]), Filtered(f2, ps[1..]);
      WeakerFilterKeepsMore(f1, f2, ps[1..]);
      if Matches(f1, ps[0]) {
        assert ([ps[0]] + a)[1..] == a && ([ps[0]] + b)[1..] == b;
      } else if Matches(f2, ps[0]) {
        SubsequenceSkip(a, ps[0], b);
      }
    }
  }

  /** The result keeps the input's order: it is a subsequence of the sample. */
  lemma {:induction false} FilteredIsSubsequence(f: Filters, ps: seq<Listing>)
    ensures IsSubsequence(Filtered(f, ps), ps)
    decreases |ps|
  {
    if ps != [] {
      var a := Filtered(f, ps[1..]);
      FilteredIsSubsequence(f, ps[1..]);
      assert ps == [ps[0]] + ps[1..];
      if Matches(f, ps[0]) {
        assert ([ps[0]] + a)[1..] == a;
      } else {
        SubsequenceSkip(a, ps[0], ps[1..]);
      }
    }
  }

  /** Widening the price or surface range never drops a listing, nor reorders the rest. */
  lemma WideningKeepsListings(f: Filters, price: Range, surface: Range)
    requires price.min <= f.priceRange.min && f.priceRange.max <= price.max
    requires surface.min <= f.surfaceRange.min && f.surfaceRange.max <= surface.max
    ensures IsSubsequence(FilteredProperties(f), FilteredProperties(f.(priceRange := price, surfaceRange := surface)))
  {
    WeakerFilterKeepsMore(f, f.(priceRange := price, surfaceRange := surface), SampleProperties);
  }

  /** Every listed property is industrial. */
  lemma OnlyIndustrialListed(f: Filters)
    ensures forall p :: p in FilteredProperties(f) ==> p.kind == "industrial" && p in SampleProperties
  {
  }

  /** With the initial filters the page lists exactly sample property 1, the
      one industrial sale. */
  lemma InitialListing()
    ensures FilteredProperties(PropertyFilters.InitialFilters("industrial")) == [SampleProperties[0]]
    ensures SampleProperties[0].id == "1"
  {
    var f := PropertyFilters.InitialFilters("industrial");
    var s := SampleProperties;
    assert Matches(f, s[0]) && !Matches(f, s[1]) && !Matches(f, s[2]) && !Matches(f, s[3]);
    assert s[3..] == [s[3]] && s[3..][1..] == [];
    assert s[2..][1..] == s[3..] && s[1..][1..] == s[2..] && s[1..] == s[1..];
    assert Filtered(f, s[3..]) == [];
    assert Filtered(f, s[2..]) == [];
    assert Filtered(f, s[1..]) == [];
  }

  /** Leaving out one more leading element keeps a subsequence a subsequence. */
  lemma {:induction false} SubsequenceSkip<T>(a: seq<T>, x: T, b: seq<T>)
    requires IsSubsequence(a, b)
    ensures IsSubsequence(a, [x] + b)
    decreases |b|, 1
  {
    assert ([x] + b)[1..] == b;
    if a != [] && a[0] == x {
      SubsequenceDropHead(a, b);
    }
  }

  /** Dropping the head of a subsequence keeps it a subsequence. */
  lemma {:induction false} SubsequenceDropHead<T>(a: seq<T>, b: seq<T>)
    requires a != [] && IsSubsequence(a, b)
    ensures IsSubsequence(a[1..], b)
    decreases |b|, 0
  {
    assert b == [b[0]] + b[1..];
    if a[0] == b[0] {
      SubsequenceSkip(a[1..], b[0], b[1..]);
    } else {
      SubsequenceDropHead(a, b[1..]);
      SubsequenceSkip(a[1..], b[0], b[1..]);
    }
  }
}
