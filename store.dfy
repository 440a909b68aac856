/**
 * The page's quote list and the two storage entries it keeps ("quotes" and
 * "lastFilter"), with the operations that change them.
 */
module Store {
  import opened Wrappers
  import opened Quotes
  import opened Selection
  import opened Categories
  import opened Server

  class QuoteStore {
    /** The in-memory list every operation works on. */
    var quotes: seq<Quote>
    /** The storage entry "quotes", already parsed; None when absent. */
    var storedQuotes: Option<seq<Quote>>
    /** The storage entry "lastFilter"; None when absent. */
    var lastFilter: Option<string>

    /** The storage entry holds exactly the in-memory list. */
    ghost predicate Saved()
      reads this
    {
      storedQuotes == Some(quotes)
    }

    /** The state before the page has loaded: an empty list and whatever
        storage holds. */
    constructor (stored: Option<seq<Quote>>, savedFilter: Option<string>)
      ensures quotes == [] && storedQuotes == stored && lastFilter == savedFilter
    {
      quotes := [];
      storedQuotes := stored;
      lastFilter := savedFilter;
    }

    /** Takes the stored list if there is one, otherwise the defaults, and
        writes the result back to storage. */
    method LoadQuotes()
      modifies this`quotes, this`storedQuotes
      ensures quotes == Loaded(old(storedQuotes))
      ensures old(storedQuotes).None? ==> quotes == DefaultQuotes()
      ensures Saved()
    {
      quotes := Loaded(storedQuotes);
      storedQuotes := Some(quotes);
    }

    /** Picks a quote of the category in effect with the random number r and
        returns the text to show; a specific category is remembered in
        "lastFilter", "all" is not. */
    method ShowRandomQuote(selector: Option<string>, r: real) returns (shown: string)
      requires 0.0 <= r < 1.0
      modifies this`lastFilter
      ensures var selected := SelectedCategory(selector);
        && shown == Display(RandomQuote(quotes, selected, r))
        && lastFilter == if selected != AllCategories then Some(selected) else old(lastFilter)
    {
      var selected := SelectedCategory(selector);
      shown := Display(RandomQuote(quotes, selected, r));
      if selected != AllCategories {
        lastFilter := Some(selected);
      }
    }

    /** Appends the form's quote, trimmed, unless a trimmed field is empty,
        in which case nothing changes. */
    method AddQuote(text: string, category: string) returns (added: bool)
      modifies this`quotes, this`storedQuotes
      ensures added <==> Validated(text, category).Some?
      ensures added ==> quotes == old(quotes) + [Validated(text, category).value] && Saved()
      ensures !added ==> quotes == old(quotes) && storedQuotes == old(storedQuotes)
    {
      var q := Validated(text, category);
      added := q.Some?;
      if added {
        quotes := quotes + [q.value];
        storedQuotes := Some(quotes);
      }
    }

    /** Appends every parsed record; a file that did not parse changes nothing. */
    method ImportQuotes(parsed: Option<seq<Quote>>) returns (imported: bool)
      modifies this`quotes, this`storedQuotes
      ensures imported == parsed.Some?
      ensures imported ==> quotes == old(quotes) + parsed.value && Saved()
      ensures !imported ==> quotes == old(quotes) && storedQuotes == old(storedQuotes)
    {
      imported := parsed.Some?;
      if imported {
        quotes := quotes + parsed.value;
        storedQuotes := Some(quotes);
      }
    }

    /** Puts quotes made from the first three server posts in front of the
        list; when the fetch or its decoding fails nothing changes. */
    method SyncWithServer(response: Option<seq<Post>>) returns (synced: bool)
      modifies this`quotes, this`storedQuotes
      ensures synced == response.Some?
      ensures synced ==> quotes == Merged(response.value, old(quotes)) && Saved()
      ensures !synced ==> quotes == old(quotes) && storedQuotes == old(storedQuotes)
    {
      synced := response.Some?;
      if synced {
        quotes := Merged(response.value, quotes);
        storedQuotes := Some(quotes);
      }
    }
  }

  /** A first visit with empty storage, then an export re-imported, a file
      imported and two syncs, using only the contracts above. */
  method FirstVisit(file: seq<Quote>, posts: seq<Post>)
  {
    var store := new QuoteStore(None, None);
    store.LoadQuotes();
    assert store.quotes == DefaultQuotes();
    assert CategoryOptions(store.quotes) == ["all", "Inspiration", "Life", "Philosophy"] by {
      DistinctDefaults();
    }
    var exported := store.quotes;
    var ok := store.ImportQuotes(Some(exported));
    assert store.quotes == DefaultQuotes() + DefaultQuotes();
    ok := store.ImportQuotes(Some(file));
    assert store.quotes == DefaultQuotes() + DefaultQuotes() + file;
    var before := store.quotes;
    ok := store.SyncWithServer(Some(posts));
    ok := store.SyncWithServer(Some(posts));
    assert store.quotes == ServerQuotes(posts) + ServerQuotes(posts) + before by {
      MergeTwice(posts, before);
    }
    ok := store.SyncWithServer(None);
    assert store.Saved();
  }
}
