/** The quote record and the fixed seed list used when nothing is stored. */
module Quotes {
  import opened Wrappers
  import opened Text

  /** One quote: its text and the category it is filed under. */
  datatype Quote = Quote(text: string, category: string)

  /** The three quotes a first visit starts with. */
  function DefaultQuotes(): (r: seq<Quote>)
    ensures |r| == 3
    ensures r[0].category == "Inspiration" && r[1].category == "Life" && r[2].category == "Philosophy"
    ensures forall q :: q in r ==> q.text != [] && q.category != []
  {
    [ Quote("The journey of a thousand miles begins with one step.", "Inspiration"),
      Quote("Life is what happens when you're busy making other plans.", "Life"),
      Quote("To be or not to be, that is the question.", "Philosophy") ]
  }

  /** The list the page starts with: the stored list if there is one, as it
      is, otherwise the defaults. */
  function Loaded(stored: Option<seq<Quote>>): (r: seq<Quote>)
    ensures stored.Some? ==> r == stored.value
    ensures stored.None? ==> |r| == 3 && r[0].category == "Inspiration"
                             && r[1].category == "Life" && r[2].category == "Philosophy"
  {
    if stored.Some? then stored.value else DefaultQuotes()
  }

  /** The add-quote form's check: both fields are trimmed and the quote is
      refused when either is then empty. */
  function Validated(text: string, category: string): (r: Option<Quote>)
    ensures r.None? <==> AllSpace(text) || AllSpace(category)
    ensures r.Some? ==> r.value.text == Trim(text) && r.value.category == Trim(category)
    ensures r.Some? ==> r.value.text != [] && r.value.category != []
                        && Trimmed(r.value.text) && Trimmed(r.value.category)
  {
    var t := Trim(text);
    var c := Trim(category);
    if t == [] || c == [] then None else Some(Quote(t, c))
  }

  /** A quote that passed the check passes it again unchanged. */
  lemma ValidatedStable(text: string, category: string)
    requires Validated(text, category).Some?
    ensures var q := Validated(text, category).value; Validated(q.text, q.category) == Some(q)
  {
    TrimIdempotent(text);
    TrimIdempotent(category);
  }
}
