/**
 * The grocery assistant's dashboard search: the constant product list, and `handleSearch`, which
 * shows every product for a blank query and otherwise the products whose lower-cased name contains
 * the lower-cased query.
 *
 * `String.prototype.trim` is modelled with JavaScript's whitespace and line-terminator characters;
 * `toLowerCase` only folds the ASCII letters.
 */
module GroceryDashboard {
  import opened Sequences

  /** One entry of `PRODUCTS` (`match` is the suitability score). */
  datatype Product = Product(id: int, name: string, price: real, image: string, tags: seq<string>, matchScore: int)

  const Placeholder := "/placeholder.svg?height=80&width=80"

  /** `PRODUCTS` */
  const Products: seq<Product> := [
    Product(1, "Organic Fresh Milk", 4.99, Placeholder, ["Organic", "Low-fat"], 95),
    Product(2, "Whole Wheat Bread", 3.5, Placeholder, ["Whole grain", "Low sugar"], 90),
    Product(3, "Fresh Vegetable Salad", 5.25, Placeholder, ["Organic", "Vegetarian"], 85),
    Product(4, "Low-fat Yogurt", 2.99, Placeholder, ["Low-fat", "Low sugar"], 80)]

  /** The characters `trim` removes: ECMAScript's WhiteSpace and LineTerminator. */
  predicate IsJsWhitespace(c: char) {
    c == '\t' || c == '\n' || c == '\U{000B}' || c == '\U{000C}' || c == '\r' || c == ' '
    || c == '\U{00A0}' || c == '\U{1680}' || ('\U{2000}' <= c <= '\U{200A}')
    || c == '\U{2028}' || c == '\U{2029}' || c == '\U{202F}' || c == '\U{205F}'
    || c == '\U{3000}' || c == '\U{FEFF}'
  }

  /** Nothing but whitespace. */
  predicate Blank(s: string) {
    forall i :: 0 <= i < |s| ==> IsJsWhitespace(s[i])
  }

  /** Drops the leading whitespace. */
  function TrimStart(s: string): (r: string)
    ensures |r| <= |s| && r == s[|s| - |r|..] && Blank(s[..|s| - |r|])
    ensures r == [] || !IsJsWhitespace(r[0])
  {
    if s != [] && IsJsWhitespace(s[0]) then
      var r := TrimStart(s[1..]);
      var n := |s| - |r|;
      assert s[1..][n - 1..] == s[n..];
      assert s[..n] == [s[0]] + s[1..][..n - 1];
      r
    else
      s
  }

  /** Drops the trailing whitespace. */
  function TrimEnd(s: string): (r: string)
    ensures |r| <= |s| && r == s[..|r|] && Blank(s[|r|..])
    ensures r == [] || !IsJsWhitespace(r[|r| - 1])
  {
    if s != [] && IsJsWhitespace(s[|s| - 1]) then
      var r := TrimEnd(s[..|s| - 1]);
      assert s[|r|..] == s[..|s| - 1][|r|..] + [s[|s| - 1]];
      r
    else
      s
  }

  /** `s.trim()` */
  function Trim(s: string): string {
    TrimEnd(TrimStart(s))
  }

  lemma {:induction false} TrimStartEmptyIffBlank(s: string)
    ensures TrimStart(s) == [] <==> Blank(s)
  {
    if s != [] && IsJsWhitespace(s[0]) {
      TrimStartEmptyIffBlank(s[1..]);
      assert Blank(s) <==> Blank(s[1..]) by {
        assert forall i :: 1 <= i < |s| ==> s[i] == s[1..][i - 1];
      }
    }
  }

  lemma {:induction false} TrimEndEmptyIffBlank(s: string)
    ensures TrimEnd(s) == [] <==> Blank(s)
  {
    if s != [] && IsJsWhitespace(s[|s| - 1]) {
      TrimEndEmptyIffBlank(s[..|s| - 1]);
      assert Blank(s) <==> Blank(s[..|s| - 1]) by {
        assert forall i :: 0 <= i < |s| - 1 ==> s[i] == s[..|s| - 1][i];
      }
    }
  }

  /** A query trims to nothing exactly when every character of it is whitespace. */
  lemma TrimEmptyIffBlank(s: string)
    ensures Trim(s) == "" <==> Blank(s)
  {
    var t := TrimStart(s);
    TrimStartEmptyIffBlank(s);
    TrimEndEmptyIffBlank(t);
    assert t != [] ==> !Blank(t);
  }

  /** `toLowerCase` on the ASCII letters. */
  function LowerChar(c: char): char {
    if 'A' <= c <= 'Z' then (c as int - 'A' as int + 'a' as int) as char else c
  }

  function Lower(s: string): (r: string)
    ensures |r| == |s| && forall i :: 0 <= i < |s| ==> r[i] == LowerChar(s[i])
  {
    seq(|s|, (i: int) requires 0 <= i < |s| => LowerChar(s[i]))
  }

  /** `haystack.includes(needle)` */
  function Includes(haystack: string, needle: string): bool {
    needle <= haystack || (haystack != [] && Includes(haystack[1..], needle))
  }

  /** `needle` occurs in `haystack` starting at offset `i`. */
  predicate OccursAt(haystack: string, needle: string, i: int) {
    0 <= i <= |haystack| - |needle| && haystack[i..i + |needle|] == needle
  }

  /** An occurrence past the first offset is an occurrence in the tail, one offset earlier. */
  lemma OccursInTail(haystack: string, needle: string, i: int)
    requires haystack != [] && i >= 1
    ensures OccursAt(haystack, needle, i) <==> OccursAt(haystack[1..], needle, i - 1)
  {
    if 0 <= i - 1 <= |haystack| - 1 - |needle| {
      assert haystack[1..][i - 1..i - 1 + |needle|] == haystack[i..i + |needle|];
    }
  }

  /** `includes` finds `needle` exactly when it occurs at some offset of `haystack`. */
  lemma {:induction false} IncludesIffOccurs(haystack: string, needle: string)
    ensures Includes(haystack, needle) <==> exists i :: OccursAt(haystack, needle, i)
  {
    if needle <= haystack {
      assert OccursAt(haystack, needle, 0);
    } else if haystack != [] {
      IncludesIffOccurs(haystack[1..], needle);
      if exists i :: OccursAt(haystack, needle, i) {
        var i :| OccursAt(haystack, needle, i);
        assert i != 0;
        OccursInTail(haystack, needle, i);
      }
      if Includes(haystack[1..], needle) {
        var i :| OccursAt(haystack[1..], needle, i);
        OccursInTail(haystack, needle, i + 1);
      }
    }
  }

  /** The `filter` predicate: the lower-cased name contains the lower-cased, untrimmed query. */
  function NameMatches(query: string): Product -> bool {
    (p: Product) => Includes(Lower(p.name), Lower(query))
  }

  /** The list `handleSearch` shows for `query`. */
  function SearchResults(query: string): (r: seq<Product>)
    ensures Trim(query) == "" ==> r == Products
    ensures Trim(query) != "" ==> forall p :: p in r <==> p in Products && Includes(Lower(p.name), Lower(query))
    ensures IsSubsequence(r, Products)
  {
    if Trim(query) == "" then
      SubsequenceOfItself(Products);
      Products
    else
      FilterIsSubsequence(Products, NameMatches(query));
      Filter(Products, NameMatches(query))
  }

  /** Typing a product's full name, in any letter case, finds that product. */
  lemma FullNameFindsProduct(query: string, p: Product)
    requires p in Products && Lower(query) == Lower(p.name)
    ensures p in SearchResults(query)
  {
    assert Includes(Lower(p.name), Lower(query));
  }

  lemma LowerKeepsBlankness(s: string)
    ensures Blank(Lower(s)) <==> Blank(s)
  {
    assert forall i :: 0 <= i < |s| ==> (IsJsWhitespace(Lower(s)[i]) <==> IsJsWhitespace(s[i]));
  }

  lemma LowerIsIdempotent(s: string)
    ensures Lower(Lower(s)) == Lower(s)
  {
  }

  /** Lower-casing the query first changes nothing: the search is case-insensitive. */
  lemma SearchIgnoresCase(query: string)
    ensures SearchResults(Lower(query)) == SearchResults(query)
  {
    TrimEmptyIffBlank(query);
    TrimEmptyIffBlank(Lower(query));
    LowerKeepsBlankness(query);
    LowerIsIdempotent(query);
    FilterCongruent(Products, NameMatches(Lower(query)), NameMatches(query));
  }

  class Dashboard {
    /** The `searchQuery` state, bound to the search box. */
    var searchQuery: string
    /** The `products` state: the list the page shows. */
    var products: seq<Product>

    /** The initial state: an empty query and the full product list. */
    constructor()
      ensures searchQuery == "" && products == Products
    {
      searchQuery := "";
      products := Products;
    }

    /** The input's `onChange`. */
    method SetSearchQuery(value: string)
      modifies this
      ensures searchQuery == value && products == old(products)
    {
      searchQuery := value;
    }

    /**
     * `handleSearch`: the shown list becomes the search results for the current query, computed
     * from `PRODUCTS` and not from the list shown before, so repeating a search changes nothing.
     */
    method HandleSearch()
      modifies this
      ensures products == SearchResults(searchQuery) && searchQuery == old(searchQuery)
    {
      if Trim(searchQuery) == "" {
        products := Products;
      } else {
        var filtered := Filter(Products, NameMatches(searchQuery));
        products := filtered;
      }
    }
  }
}
