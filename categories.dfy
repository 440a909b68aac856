/**
 * The category selector's options: the distinct categories of the list in
 * the order they first occur (what a JavaScript Set built from the list's
 * categories yields), preceded by the "all" option.
 */
module Categories {
  import opened Wrappers
  import opened Quotes
  import opened Selection

  predicate NoDuplicates(s: seq<string>) {
    forall i, j :: 0 <= i < j < |s| ==> s[i] != s[j]
  }

  /** The category of each quote, in list order. */
  function CategoryList(qs: seq<Quote>): (cs: seq<string>)
    ensures |cs| == |qs|
    ensures forall i :: 0 <= i < |qs| ==> cs[i] == qs[i].category
  {
    if qs == [] then [] else [qs[0].category] + CategoryList(qs[1..])
  }

  /** The position at which x first occurs in s. */
  function FirstIndex(s: seq<string>, x: string): (i: nat)
    requires x in s
    ensures i < |s| && s[i] == x
    ensures forall k :: 0 <= k < i ==> s[k] != x
  {
    if s[0] == x then 0 else 1 + FirstIndex(s[1..], x)
  }

  /** The elements of s without repetitions, each kept where it first occurs:
      s is read from left to right and an element is added at the end unless
      it is already there, as Set insertion does. */
  function Distinct(s: seq<string>): (r: seq<string>)
    ensures NoDuplicates(r)
    ensures forall x :: x in r <==> x in s
    ensures |r| <= |s|
  {
    if s == [] then []
    else
      var d := Distinct(s[..|s| - 1]);
      assert forall x :: x in s <==> x in s[..|s| - 1] || x == s[|s| - 1] by {
        assert s == s[..|s| - 1] + [s[|s| - 1]];
      }
      if s[|s| - 1] in d then d else d + [s[|s| - 1]]
  }

  /** Every element of r occurs in s, and they occur first in s in the order r lists them. */
  predicate FirstSeenOrder(s: seq<string>, r: seq<string>) {
    (forall x :: x in r ==> x in s) &&
    forall i, j :: 0 <= i < j < |r| ==> FirstIndex(s, r[i]) < FirstIndex(s, r[j])
  }

  lemma {:induction false} FirstIndexExtend(p: seq<string>, y: string, x: string)
    requires x in p
    ensures FirstIndex(p + [y], x) == FirstIndex(p, x)
  {
    if p[0] != x {
      assert (p + [y])[1..] == p[1..] + [y];
      FirstIndexExtend(p[1..], y, x);
    }
  }

  /** Distinct keeps first-seen order: of two results, the earlier one occurs
      first in s. */
  lemma {:induction false} DistinctFirstSeen(s: seq<string>)
    ensures FirstSeenOrder(s, Distinct(s))
    decreases |s|
  {
    if s != [] {
      var p := s[..|s| - 1];
      var y := s[|s| - 1];
      assert s == p + [y];
      DistinctFirstSeen(p);
      var d := Distinct(p);
      var r := Distinct(s);
      assert r == d || r == d + [y];
      forall i, j | 0 <= i < j < |r| ensures FirstIndex(s, r[i]) < FirstIndex(s, r[j]) {
        assert r[i] == d[i] && d[i] in p;
        FirstIndexExtend(p, y, d[i]);
        if j < |d| {
          assert r[j] == d[j] && d[j] in p;
          FirstIndexExtend(p, y, d[j]);
          assert FirstSeenOrder(p, d);
          assert FirstIndex(p, d[i]) < FirstIndex(p, d[j]);
        } else {
          assert r[j] == y && y !in p;
          assert FirstIndex(s, y) == |p|;
        }
      }
    }
  }

  lemma FirstSeenHead(s: seq<string>, a: seq<string>, x: string)
    requires FirstSeenOrder(s, a) && x in a
    ensures x in s && FirstIndex(s, a[0]) <= FirstIndex(s, x)
    ensures x != a[0] ==> FirstIndex(s, a[0]) < FirstIndex(s, x)
  {
    var j :| 0 <= j < |a| && a[j] == x;
  }

  lemma FirstSeenTail(s: seq<string>, a: seq<string>)
    requires FirstSeenOrder(s, a) && a != []
    ensures FirstSeenOrder(s, a[1..])
    ensures a[0] !in a[1..]
  {
    var t := a[1..];
    assert forall x :: x in t ==> x in a;
    forall i, j | 0 <= i < j < |t| ensures FirstIndex(s, t[i]) < FirstIndex(s, t[j]) {
      assert t[i] == a[i + 1] && t[j] == a[j + 1];
    }
  }

  lemma {:induction false} FirstSeenOrderUnique(s: seq<string>, a: seq<string>, b: seq<string>)
    requires FirstSeenOrder(s, a) && FirstSeenOrder(s, b)
    requires forall x :: x in a <==> x in b
    ensures a == b
    decreases |a|
  {
    if a == [] {
      assert forall j :: 0 <= j < |b| ==> b[j] !in a;
    } else {
      assert a[0] in b;
      FirstSeenHead(s, b, a[0]);
      FirstSeenHead(s, a, b[0]);
      assert a[0] == b[0] by {
        assert a[0] == s[FirstIndex(s, a[0])];
        assert b[0] == s[FirstIndex(s, b[0])];
      }
      FirstSeenTail(s, a);
      FirstSeenTail(s, b);
      forall x ensures x in a[1..] <==> x in b[1..] {
        assert x in a[1..] <==> x in a && x != a[0];
        assert x in b[1..] <==> x in b && x != b[0];
      }
      FirstSeenOrderUnique(s, a[1..], b[1..]);
      assert a == [a[0]] + a[1..] && b == [b[0]] + b[1..];
    }
  }

  /** Distinct is the only duplicate-free list of the elements of s in
      first-seen order. */
  lemma DistinctUnique(s: seq<string>, r: seq<string>)
    requires forall x :: x in r <==> x in s
    requires FirstSeenOrder(s, r)
    ensures r == Distinct(s)
  {
    DistinctFirstSeen(s);
    FirstSeenOrderUnique(s, r, Distinct(s));
  }

  /** The distinct categories of the list, in first-seen order. */
  function DistinctCategories(qs: seq<Quote>): (r: seq<string>)
    ensures NoDuplicates(r)
    ensures forall c :: c in r <==> exists q :: q in qs && q.category == c
    ensures FirstSeenOrder(CategoryList(qs), r)
  {
    var cs := CategoryList(qs);
    var r := Distinct(cs);
    DistinctFirstSeen(cs);
    assert forall c :: c in cs <==> exists q :: q in qs && q.category == c by {
      forall c ensures c in cs <==> exists q :: q in qs && q.category == c {
        if c in cs {
          var i :| 0 <= i < |cs| && cs[i] == c;
          assert qs[i] in qs;
        }
        if exists q :: q in qs && q.category == c {
          var q :| q in qs && q.category == c;
          var i :| 0 <= i < |qs| && qs[i] == q;
          assert cs[i] == c;
        }
      }
    }
    r
  }

  /** The option values of the category selector: "all" first, then the
      distinct categories. */
  function CategoryOptions(qs: seq<Quote>): (r: seq<string>)
    ensures |r| >= 1 && r[0] == AllCategories
    ensures r[1..] == DistinctCategories(qs)
  {
    [AllCategories] + DistinctCategories(qs)
  }

  /** The options repeat a value exactly when some quote is filed under the
      category "all", which then shares its option value with "All Categories". */
  lemma OptionsDistinctIff(qs: seq<Quote>)
    ensures NoDuplicates(CategoryOptions(qs)) <==> forall q :: q in qs ==> q.category != AllCategories
  {
    var r := CategoryOptions(qs);
    var d := DistinctCategories(qs);
    if exists q :: q in qs && q.category == AllCategories {
      assert AllCategories in d;
      var j :| 0 <= j < |d| && d[j] == AllCategories;
      assert r[0] == r[j + 1];
    } else {
      assert AllCategories !in d;
      forall i, j | 0 <= i < j < |r| ensures r[i] != r[j] {
        assert r[j] == d[j - 1];
        if i > 0 { assert r[i] == d[i - 1]; }
      }
    }
  }

  /** Choosing any option the selector offers for a category shows a quote.
      The page reads the option's value through the "all" fallback, so an
      empty category (possible in imported or stored quotes) and the category
      "all" both show any quote; every other category shows one of its own. */
  lemma OfferedCategoryShows(qs: seq<Quote>, c: string, r: real)
    requires c in DistinctCategories(qs) && 0.0 <= r < 1.0
    ensures RandomQuote(qs, SelectedCategory(Some(c)), r).Some?
    ensures c != [] && c != AllCategories ==>
      RandomQuote(qs, SelectedCategory(Some(c)), r).value.category == c
  {
    var q :| q in qs && q.category == c;
    assert q in Filtered(qs, SelectedCategory(Some(c)));
  }

  /** The defaults offer their three categories in seed order. */
  lemma DistinctDefaults()
    ensures DistinctCategories(DefaultQuotes()) == ["Inspiration", "Life", "Philosophy"]
  {
    var cs := ["Inspiration", "Life", "Philosophy"];
    assert CategoryList(DefaultQuotes()) == cs;
    DistinctOfThree(cs);
  }

  lemma DistinctOfThree(cs: seq<string>)
    requires |cs| == 3 && cs[0] != cs[1] && cs[0] != cs[2] && cs[1] != cs[2]
    ensures Distinct(cs) == cs
  {
    var c1, c2 := cs[..1], cs[..2];
    assert c1[..0] == [] && c2[..1] == c1 && cs[..2] == c2;
    assert Distinct(c1) == c1;
    assert cs[1] !in c1;
    assert Distinct(c2) == c2;
    assert cs[2] !in c2;
  }
}
