/** The search and price filter of the browse page. */
module BrowsePage {
  import opened Domain
  import opened Seqs
  import opened Strings

  /** The lower-cased search term occurs in the lower-cased name, location or description. */
  predicate MatchesSearch(p: Property, searchTerm: string) {
    var term := ToLower(searchTerm);
    Includes(ToLower(p.name), term) || Includes(ToLower(p.location), term) || Includes(ToLower(p.description), term)
  }

  /** An empty price field (None) does not filter; otherwise the nightly rate is at most the limit. */
  predicate MatchesPrice(p: Property, maxPrice: Option<Money>) {
    maxPrice.None? || p.pricePerNight <= maxPrice.value
  }

  /** filteredProperties: the listed properties that match both, in their listed order. */
  function FilteredProperties(properties: seq<Property>, searchTerm: string, maxPrice: Option<Money>): (r: seq<Property>)
    ensures IsSubsequence(r, properties)
    ensures forall p :: p in r <==> p in properties && MatchesSearch(p, searchTerm) && MatchesPrice(p, maxPrice)
    ensures forall p :: MatchesSearch(p, searchTerm) && MatchesPrice(p, maxPrice) ==> multiset(r)[p] == multiset(properties)[p]
    ensures maxPrice.Some? ==> forall p :: p in r ==> p.pricePerNight <= maxPrice.value
  {
    Filter(properties, (p: Property) => MatchesSearch(p, searchTerm) && MatchesPrice(p, maxPrice))
  }

  /** The empty search term occurs in every text. */
  lemma EmptySearchMatchesAll(p: Property)
    ensures MatchesSearch(p, "")
  {
    assert MatchesAt(ToLower(p.name), "", 0);
  }

  /** With an empty search box and an empty price box the whole list is shown. */
  lemma NoFilterShowsAll(properties: seq<Property>)
    ensures FilteredProperties(properties, "", None) == properties
  {
    forall p | p in properties ensures MatchesSearch(p, "") && MatchesPrice(p, None) {
      EmptySearchMatchesAll(p);
    }
    FilterKeepsAll(properties, (p: Property) => MatchesSearch(p, "") && MatchesPrice(p, None));
  }

  lemma LowerCharIdempotent(c: char)
    ensures LowerChar(LowerChar(c)) == LowerChar(c)
  {
  }

  /** Lower-casing twice is lower-casing once. */
  lemma ToLowerIdempotent(s: string)
    ensures ToLower(ToLower(s)) == ToLower(s)
  {
    forall i | 0 <= i < |s| ensures ToLower(ToLower(s))[i] == ToLower(s)[i] {
      LowerCharIdempotent(s[i]);
    }
  }

  /** The search ignores the case of the term: typing it in capitals finds the same properties. */
  lemma SearchIgnoresTermCase(p: Property, searchTerm: string)
    ensures MatchesSearch(p, ToLower(searchTerm)) == MatchesSearch(p, searchTerm)
  {
    ToLowerIdempotent(searchTerm);
  }
}
