/** The catalog search box: a case-insensitive substring filter over product names and
    descriptions that keeps the catalog's order. */
module Catalog {
  import opened Records

  /** ASCII lower-casing of one character. */
  function LowerChar(c: char): (r: char)
    ensures !('A' <= r <= 'Z')
    ensures !('A' <= c <= 'Z') ==> r == c
    ensures 'A' <= c <= 'Z' ==> r as int == c as int + ('a' as int - 'A' as int)
  {
    if 'A' <= c <= 'Z' then (c as int - 'A' as int + 'a' as int) as char else c
  }

  /** `toLowerCase()` on ASCII: same length, each capital becomes its small letter, every other
      character kept. */
  function Lower(s: string): (r: string)
    ensures |r| == |s|
    ensures forall i :: 0 <= i < |s| ==> !('A' <= r[i] <= 'Z')
    ensures forall i :: 0 <= i < |s| && !('A' <= s[i] <= 'Z') ==> r[i] == s[i]
    ensures forall i :: 0 <= i < |s| && 'A' <= s[i] <= 'Z' ==> r[i] as int == s[i] as int + ('a' as int - 'A' as int)
  {
    seq(|s|, i requires 0 <= i < |s| => LowerChar(s[i]))
  }

  predicate IsPrefix(sub: string, s: string)
  {
    |sub| <= |s| && s[..|sub|] == sub
  }

  /** `sub` occurs in `s` starting at position `i`. */
  predicate OccursAt(s: string, sub: string, i: int)
  {
    0 <= i && i + |sub| <= |s| && s[i..i + |sub|] == sub
  }

  /** `s.includes(sub)`: `sub` occurs in `s` at some position. */
  function Includes(s: string, sub: string): (r: bool)
    ensures sub == [] ==> r
    ensures r ==> |sub| <= |s|
    decreases |s|
  {
    IsPrefix(sub, s) || (s != [] && Includes(s[1..], sub))
  }

  /** `Includes` is substring containment: it holds exactly when `sub` occurs somewhere in `s`. */
  lemma {:induction false} IncludesOccurs(s: string, sub: string)
    ensures Includes(s, sub) <==> exists i :: OccursAt(s, sub, i)
    decreases |s|
  {
    if s == [] {
      if sub == [] {
        assert OccursAt(s, sub, 0);
      }
    } else {
      IncludesOccurs(s[1..], sub);
      if Includes(s, sub) {
        if IsPrefix(sub, s) {
          assert OccursAt(s, sub, 0);
        } else {
          var i :| OccursAt(s[1..], sub, i);
          assert s[i + 1..i + 1 + |sub|] == s[1..][i..i + |sub|];
          assert OccursAt(s, sub, i + 1);
        }
      }
      if i :| OccursAt(s, sub, i) {
        if i == 0 {
          assert IsPrefix(sub, s);
        } else {
          assert s[1..][i - 1..i - 1 + |sub|] == s[i..i + |sub|];
          assert OccursAt(s[1..], sub, i - 1);
        }
      }
    }
  }

  /** The predicate handed to `Array.filter`; `needle` is the already lower-cased query. */
  function Matches(p: Product, needle: string): (r: bool)
    ensures needle == [] ==> r
    ensures r ==> |needle| <= |p.name| || |needle| <= |p.description|
  {
    Includes(Lower(p.name), needle) || Includes(Lower(p.description), needle)
  }

  /** `products.filter(...)`: the products that match, in catalog order. */
  function Filter(ps: seq<Product>, needle: string): (r: seq<Product>)
    ensures |r| <= |ps|
    ensures forall p :: p in r <==> p in ps && Matches(p, needle)
  {
    if ps == [] then []
    else if Matches(ps[0], needle) then [ps[0]] + Filter(ps[1..], needle)
    else Filter(ps[1..], needle)
  }

  /** `a` is `b` with some elements left out and the rest kept in order. */
  ghost predicate IsSubsequence(a: seq<Product>, b: seq<Product>)
    decreases |b|
  {
    a == [] || (b != [] && ((a[0] == b[0] && IsSubsequence(a[1..], b[1..])) || IsSubsequence(a, b[1..])))
  }

  lemma {:induction false} FilterIsSubsequence(ps: seq<Product>, needle: string)
    ensures IsSubsequence(Filter(ps, needle), ps)
  {
    if ps != [] {
      FilterIsSubsequence(ps[1..], needle);
      if Matches(ps[0], needle) {
        assert Filter(ps, needle)[1..] == Filter(ps[1..], needle);
      }
    }
  }

  /** Each matching product is kept as often as it occurs in the catalog, and no other product. */
  lemma {:induction false} FilterCounts(ps: seq<Product>, needle: string)
    ensures forall p :: multiset(Filter(ps, needle))[p] == if Matches(p, needle) then multiset(ps)[p] else 0
  {
    if ps != [] {
      FilterCounts(ps[1..], needle);
      assert ps == [ps[0]] + ps[1..];
      assert multiset(ps) == multiset{ps[0]} + multiset(ps[1..]);
    }
  }

  /** `includes("")` holds of every string, so the empty query leaves the whole catalog. */
  lemma {:induction false} FilterEmptyQuery(ps: seq<Product>)
    ensures Filter(ps, "") == ps
  {
    if ps != [] {
      FilterEmptyQuery(ps[1..]);
      assert Matches(ps[0], "");
    }
  }

  /** Filtering the filtered list with the same query changes nothing. */
  lemma {:induction false} FilterIdempotent(ps: seq<Product>, needle: string)
    ensures Filter(Filter(ps, needle), needle) == Filter(ps, needle)
  {
    if ps != [] {
      FilterIdempotent(ps[1..], needle);
      if Matches(ps[0], needle) {
        assert ([ps[0]] + Filter(ps[1..], needle))[1..] == Filter(ps[1..], needle);
      }
    }
  }

  /** The search ignores case: typing a product's name in any mix of upper and lower case
      finds that product. */
  lemma NameFindsProduct(p: Product, query: string)
    requires Lower(query) == Lower(p.name)
    ensures Matches(p, Lower(query))
  {
    assert IsPrefix(Lower(query), Lower(p.name));
  }
}
