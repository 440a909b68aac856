/**
 * The mock server sync: the first three posts the server returns become
 * quotes filed under "Server" and go in front of the list. Nothing is
 * deduplicated.
 */
module Server {
  import opened Quotes

  /** A post as the server returns it; only its title is used. */
  datatype Post = Post(title: string)

  /** How many posts one sync takes. */
  const SyncBatch: nat := 3

  /** The category given to every synced quote. */
  const ServerCategory: string := "Server"

  function Min(a: nat, b: nat): nat {
    if a <= b then a else b
  }

  /** The first three posts (fewer if there are fewer), each as a quote. */
  function ServerQuotes(posts: seq<Post>): (r: seq<Quote>)
    ensures |r| == Min(SyncBatch, |posts|)
    ensures forall i :: 0 <= i < |r| ==> r[i] == Quote(posts[i].title, ServerCategory)
  {
    var n := Min(SyncBatch, |posts|);
    seq(n, i requires 0 <= i < n => Quote(posts[i].title, ServerCategory))
  }

  /** The list after a sync: the server quotes, then the old list. */
  function Merged(posts: seq<Post>, qs: seq<Quote>): (r: seq<Quote>)
    ensures |r| == Min(SyncBatch, |posts|) + |qs|
    ensures r[|r| - |qs|..] == qs
    ensures r[..|r| - |qs|] == ServerQuotes(posts)
  {
    ServerQuotes(posts) + qs
  }

  /** Posts past the third never reach the list. */
  lemma ServerQuotesIgnoresRest(posts: seq<Post>, more: seq<Post>)
    requires |posts| >= SyncBatch
    ensures ServerQuotes(posts + more) == ServerQuotes(posts)
  {
    var a := ServerQuotes(posts + more);
    var b := ServerQuotes(posts);
    assert |a| == |b|;
    forall i | 0 <= i < |a| ensures a[i] == b[i] {
      assert (posts + more)[i] == posts[i];
    }
  }

  /** Syncing twice with the same posts puts their quotes in front twice: the
      list grows on every sync, so the sync is not idempotent. */
  lemma MergeTwice(posts: seq<Post>, qs: seq<Quote>)
    ensures Merged(posts, Merged(posts, qs)) == ServerQuotes(posts) + ServerQuotes(posts) + qs
    ensures posts != [] ==> Merged(posts, Merged(posts, qs)) != Merged(posts, qs)
  {
    var once := Merged(posts, qs);
    var twice := Merged(posts, once);
    assert twice == ServerQuotes(posts) + (ServerQuotes(posts) + qs);
    if posts != [] {
      assert |twice| > |once|;
    }
  }
}
