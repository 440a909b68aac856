/**
 * What "show a random quote" computes: the category in effect, the quotes
 * it admits, the index drawn from a random number in [0, 1), and the text
 * put on the page.
 */
module Selection {
  import opened Wrappers
  import opened Quotes

  /** The filter value meaning "no filtering". */
  const AllCategories: string := "all"

  /** Shown when there is no quote to show. */
  const NoQuotesMessage: string := "No quotes available."

  /** The category in effect: the selector's value, or "all" when the selector
      is missing or its value is the empty string. */
  function SelectedCategory(selector: Option<string>): (c: string)
    ensures c != []
    ensures selector.Some? && selector.value != [] ==> c == selector.value
    ensures selector.None? || selector.value == [] ==> c == AllCategories
  {
    if selector.Some? && selector.value != [] then selector.value else AllCategories
  }

  /** The quotes filed under category c, in list order. */
  function OfCategory(qs: seq<Quote>, c: string): (r: seq<Quote>)
    ensures |r| <= |qs|
    ensures forall q :: q in r ==> q in qs && q.category == c
    ensures forall q :: q in qs && q.category == c ==> q in r
    ensures forall q :: multiset(r)[q] == if q.category == c then multiset(qs)[q] else 0
  {
    if qs == [] then []
    else
      var rest := OfCategory(qs[1..], c);
      assert qs == [qs[0]] + qs[1..];
      if qs[0].category == c then [qs[0]] + rest else rest
  }

  /** Filtering commutes with concatenation, so the quotes kept appear in
      the order they have in the list. */
  lemma {:induction false} OfCategoryAppend(a: seq<Quote>, b: seq<Quote>, c: string)
    ensures OfCategory(a + b, c) == OfCategory(a, c) + OfCategory(b, c)
  {
    if a == [] {
      assert a + b == b;
    } else {
      assert (a + b)[0] == a[0];
      assert (a + b)[1..] == a[1..] + b;
      OfCategoryAppend(a[1..], b, c);
    }
  }

  /** Filtering an already filtered list changes nothing. */
  lemma {:induction false} OfCategoryIdempotent(qs: seq<Quote>, c: string)
    ensures OfCategory(OfCategory(qs, c), c) == OfCategory(qs, c)
  {
    if qs != [] {
      OfCategoryIdempotent(qs[1..], c);
    }
  }

  /** The quotes the category in effect admits. */
  function Filtered(qs: seq<Quote>, selected: string): (r: seq<Quote>)
    ensures selected == AllCategories ==> r == qs
    ensures selected != AllCategories ==>
      (forall q :: q in r ==> q in qs && q.category == selected) &&
      (forall q :: q in qs && q.category == selected ==> q in r)
  {
    if selected == AllCategories then qs else OfCategory(qs, selected)
  }

  /** floor(r * len), the index drawn from r in [0, 1). */
  function PickIndex(r: real, len: nat): (k: nat)
    requires 0.0 <= r < 1.0
    ensures len > 0 ==> k < len
    ensures len == 0 ==> k == 0
  {
    var x := r * len as real;
    assert 0.0 <= x by { ProductBounds(r, len as real); }
    assert len > 0 ==> x < len as real by { ProductBounds(r, len as real); }
    x.Floor
  }

  lemma ProductBounds(r: real, n: real)
    requires 0.0 <= r < 1.0 && 0.0 <= n
    ensures 0.0 <= r * n
    ensures 0.0 < n ==> r * n < n
  {
  }

  /** Every index of a non-empty list is drawn from some r in [0, 1). */
  lemma PickIndexReaches(k: nat, len: nat)
    requires k < len
    ensures var r := k as real / len as real; 0.0 <= r < 1.0 && PickIndex(r, len) == k
  {
    var r := k as real / len as real;
    assert r * len as real == k as real;
  }

  /** The quote shown: the drawn element of the filtered list, or none when
      that list is empty. */
  function RandomQuote(qs: seq<Quote>, selected: string, r: real): (q: Option<Quote>)
    requires 0.0 <= r < 1.0
    ensures q.Some? <==> Filtered(qs, selected) != []
    ensures q.Some? ==> q.value in Filtered(qs, selected) && q.value in qs
    ensures q.Some? && selected != AllCategories ==> q.value.category == selected
  {
    var f := Filtered(qs, selected);
    if f == [] then None else Some(f[PickIndex(r, |f|)])
  }

  /** Every quote the filter admits is shown for some r in [0, 1). */
  lemma RandomQuoteReaches(qs: seq<Quote>, selected: string, q: Quote)
    requires q in Filtered(qs, selected)
    ensures exists r: real :: 0.0 <= r < 1.0 && RandomQuote(qs, selected, r) == Some(q)
  {
    var f := Filtered(qs, selected);
    var k :| 0 <= k < |f| && f[k] == q;
    PickIndexReaches(k, |f|);
    var r := k as real / |f| as real;
    assert RandomQuote(qs, selected, r) == Some(q);
  }

  /** The text put on the page: the quote's text, falling back to the
      message when there is no quote or its text is empty. */
  function Display(q: Option<Quote>): (s: string)
    ensures s != []
    ensures q.Some? && q.value.text != [] ==> s == q.value.text
    ensures q.None? || q.value.text == [] ==> s == NoQuotesMessage
  {
    if q.Some? && q.value.text != [] then q.value.text else NoQuotesMessage
  }
}
