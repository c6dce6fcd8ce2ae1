/** The header's product search (components/Header.tsx): a case-insensitive
    substring match on name or brand, cut to the first five hits, and no
    results at all for a blank term. */
module Search {
  import opened Types
  import opened Seqs
  import opened Text

  /** At most this many results are offered. */
  const ResultLimit: nat := 5

  /** The lower-cased term occurs in the lower-cased name or brand. The term
      is used as typed: it is not trimmed. */
  predicate Matches(p: Product, term: string)
  {
    Includes(ToLower(p.name), ToLower(term)) || Includes(ToLower(p.brand), ToLower(term))
  }

  /** Every matching product of the catalog, in catalog order. */
  function Matching(catalog: seq<Product>, term: string): (r: seq<Product>)
    ensures forall p :: p in r <==> p in catalog && Matches(p, term)
    ensures forall p :: multiset(r)[p] == if Matches(p, term) then multiset(catalog)[p] else 0
    ensures IsSubsequence(r, catalog)
  {
    FilterIsSubsequence(catalog, p => Matches(p, term));
    FilterCounts(catalog, p => Matches(p, term));
    var r := Filter(catalog, p => Matches(p, term));
    assert forall p :: p in r ==> p in catalog && Matches(p, term);
    r
  }

  function Min(a: int, b: int): int
  {
    if a <= b then a else b
  }

  /** The suggestions shown for `term`: nothing for a term that is blank once
      trimmed, otherwise the first five matches in catalog order (all of them
      when there are fewer). */
  function SearchResults(catalog: seq<Product>, term: string): (r: seq<Product>)
    ensures Trim(term) == "" ==> r == []
    ensures |r| <= ResultLimit
    ensures forall p :: p in r ==> p in catalog && Matches(p, term)
    ensures Trim(term) != "" ==>
      var m := Matching(catalog, term);
      |r| == Min(ResultLimit, |m|) && r == m[..|r|]
  {
    if Trim(term) == "" then []
    else
      var m := Matching(catalog, term);
      var r := FirstFew(m);
      assert forall p :: p in r ==> p in catalog && Matches(p, term) by {
        assert forall p :: p in m ==> p in catalog && Matches(p, term);
      }
      r
  }

  /** The leading `ResultLimit` elements of `m`, or all of `m` when it is shorter. */
  function FirstFew(m: seq<Product>): (r: seq<Product>)
    ensures |r| == Min(ResultLimit, |m|) && r == m[..|r|]
    ensures forall p :: p in r ==> p in m
  {
    var r := m[..Min(ResultLimit, |m|)];
    assert forall p :: p in r ==> p in m;
    r
  }

  /** Results never reorder the catalog. */
  lemma SearchResultsInCatalogOrder(catalog: seq<Product>, term: string)
    ensures IsSubsequence(SearchResults(catalog, term), catalog)
  {
    var r := SearchResults(catalog, term);
    if Trim(term) == "" {
      assert IsEmbedding(r, catalog, []);
    } else {
      var m := Matching(catalog, term);
      PrefixIsSubsequence(m, catalog, |r|);
    }
  }

  /** When at most five products match a non-blank term, the suggestions
      are all of them. */
  lemma FewMatchesAllShown(catalog: seq<Product>, term: string)
    ensures Trim(term) != "" && |Matching(catalog, term)| <= ResultLimit ==>
      SearchResults(catalog, term) == Matching(catalog, term)
  {
  }

  /** Searching is case-insensitive: the term's capitalisation does not matter. */
  lemma SearchIgnoresCase(catalog: seq<Product>, term: string)
    ensures SearchResults(catalog, ToLower(term)) == SearchResults(catalog, term)
  {
    ToLowerKeepsBlank(term);
    ToLowerIdempotent(term);
    FilterAgrees(catalog, p => Matches(p, ToLower(term)), p => Matches(p, term));
  }

  /** A product named "Phone" by brand "Acme". */
  function Phone(): Product
  {
    Product(1, "Phone", "phones", "Acme", 100, "", "", "", 4.5, 0, map[], Variants(None, None))
  }

  /** The term is trimmed only to decide whether it is blank: "phone " with a
      trailing space is not blank, yet it finds nothing in a catalog holding
      "Phone", which its trimmed form would find. */
  lemma UntrimmedTermIsMatched()
    ensures Trim("phone ") == "phone"
    ensures Matches(Phone(), Trim("phone "))
    ensures SearchResults([Phone()], "phone ") == []
  {
    TrimPhone();
    PhoneMatchesTrimmedTerm();
    PhoneMissesUntrimmedTerm();
    assert Matching([Phone()], "phone ") == [];
  }

  lemma TrimPhone()
    ensures Trim("phone ") == "phone"
  {
    TrimStartPhone();
    TrimEndPhone();
  }

  lemma TrimStartPhone()
    ensures TrimStart("phone ") == "phone "
  {
    assert !IsSpace("phone "[0]);
  }

  lemma TrimEndPhone()
    ensures TrimEnd("phone ") == "phone"
  {
    var s: string := "phone ";
    assert IsSpace(s[5]) && s[..5] == "phone";
    assert !IsSpace("phone"[4]);
    assert TrimEnd("phone") == "phone";
  }

  lemma PhoneMatchesTrimmedTerm()
    ensures Matches(Phone(), "phone")
  {
    assert forall i :: 0 <= i < 5 ==> ToLower("Phone")[i] == "phone"[i];
    assert ToLower("Phone") == ToLower("phone");
    assert OccursAt(ToLower("Phone"), ToLower("phone"), 0);
  }

  lemma PhoneMissesUntrimmedTerm()
    ensures !Matches(Phone(), "phone ")
  {
    var lowered := ToLower("phone ");
    assert |lowered| == 6;
    assert !Includes(ToLower("Phone"), lowered);
    assert !Includes(ToLower("Acme"), lowered);
  }
}
