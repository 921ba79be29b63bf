/** The home page's product listing: an optional "trending" restriction to a
    fixed list of category names, and an optional search query matched against
    the product name and the category name, ignoring case. */
module Catalog {
  import opened Models

  /** The category names the trending listing keeps. */
  const TrendingCategories: seq<string> := ["Ovens", "Coolers", "Cameras", "Earbuds", "Watches", "Mobiles"]

  /** ASCII lower-casing, the folding SQLite's LIKE applies; other characters are kept as they are. */
  function LowerChar(c: char): char
  {
    if 'A' <= c <= 'Z' then (c as int + 32) as char else c
  }

  function Lower(s: string): string
  {
    seq(|s|, i requires 0 <= i < |s| => LowerChar(s[i]))
  }

  /** `needle` occurs in `hay` starting at position `i`. */
  ghost predicate OccursAt(needle: string, hay: string, i: int)
  {
    0 <= i <= |hay| - |needle| && hay[i..i + |needle|] == needle
  }

  /** `needle` occurs as a contiguous piece of `hay`. */
  ghost predicate Occurs(needle: string, hay: string)
  {
    exists i :: OccursAt(needle, hay, i)
  }

  /** When `needle` is not a prefix of `hay`, it occurs in `hay` exactly when it occurs in `hay[1..]`. */
  lemma OccursInTail(needle: string, hay: string)
    requires |needle| <= |hay| && hay[..|needle|] != needle
    ensures Occurs(needle, hay) <==> Occurs(needle, hay[1..])
  {
    var n := |needle|;
    if Occurs(needle, hay) {
      var i :| OccursAt(needle, hay, i);
      assert i != 0;
      forall k | 0 <= k < n ensures hay[1..][i - 1..i - 1 + n][k] == needle[k] {
        assert hay[1..][i - 1 + k] == hay[i..i + n][k];
      }
      assert OccursAt(needle, hay[1..], i - 1);
    }
    if Occurs(needle, hay[1..]) {
      var j :| OccursAt(needle, hay[1..], j);
      forall k | 0 <= k < n ensures hay[j + 1..j + 1 + n][k] == needle[k] {
        assert hay[j + 1 + k] == hay[1..][j..j + n][k];
      }
      assert OccursAt(needle, hay, j + 1);
    }
  }

  /** Substring search, scanning start positions from the left. */
  function Contains(hay: string, needle: string): (b: bool)
    ensures b <==> Occurs(needle, hay)
    decreases |hay|
  {
    if |needle| > |hay| then false
    else if hay[..|needle|] == needle then
      assert OccursAt(needle, hay, 0);
      true
    else
      OccursInTail(needle, hay);
      Contains(hay[1..], needle)
  }

  /** Django's `icontains` on SQLite: the query occurs in the text once both are lower-cased. */
  predicate IContains(text: string, query: string)
  {
    Contains(Lower(text), Lower(query))
  }

  predicate IsTrending(p: Product)
  {
    p.category in TrendingCategories
  }

  /** `name__icontains=query | category__name__icontains=query`. */
  predicate MatchesQuery(p: Product, query: string)
  {
    IContains(p.name, query) || IContains(p.category, query)
  }

  /** A queryset `.filter(...)`: the rows satisfying `keep`, in their original order. */
  function Keep(products: seq<Product>, keep: Product -> bool): (r: seq<Product>)
    ensures forall p :: p in r <==> p in products && keep(p)
    ensures |r| <= |products|
  {
    if products == [] then []
    else (if keep(products[0]) then [products[0]] else []) + Keep(products[1..], keep)
  }

  /** The `trending` parameter switches the restriction on only when it is exactly "1". */
  predicate TrendingRequested(trending: Option<string>)
  {
    trending == Some("1")
  }

  /** The `q` parameter filters only when present and non-empty (Python's `if query:`). */
  predicate QueryRequested(query: Option<string>)
  {
    query.Some? && query.value != ""
  }

  /** The product list of the home view: the trending filter, then the query filter. */
  function Home(products: seq<Product>, query: Option<string>, trending: Option<string>): (r: seq<Product>)
    ensures forall p :: p in r <==>
      && p in products
      && (TrendingRequested(trending) ==> IsTrending(p))
      && (QueryRequested(query) ==> MatchesQuery(p, query.value))
    ensures !TrendingRequested(trending) && !QueryRequested(query) ==> r == products
    ensures |r| <= |products|
  {
    var listed := if TrendingRequested(trending) then Keep(products, IsTrending) else products;
    if QueryRequested(query) then Keep(listed, p => MatchesQuery(p, query.value)) else listed
  }

  lemma LowerIdempotent(s: string)
    ensures Lower(Lower(s)) == Lower(s)
  {
  }

  /** The case of the query does not matter: searching for `q` and for its
      lower-case form lists the same products. */
  lemma HomeIgnoresQueryCase(products: seq<Product>, q: string, trending: Option<string>)
    ensures forall p :: p in Home(products, Some(q), trending) <==> p in Home(products, Some(Lower(q)), trending)
  {
    LowerIdempotent(q);
    assert |Lower(q)| == |q|;
  }
}
