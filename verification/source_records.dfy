// Source records and the first-occurrence-wins deduplication by URL that
// collect_sources applies to the matchers' combined output.
module SourceRecords {

  /** A curated link: a title and the URL that identifies it. */
  datatype Source = Source(title: string, url: string)

  function Urls(s: seq<Source>): (urls: set<string>) {
    set x | x in s :: x.url
  }

  /** No two records share a URL. */
  predicate NoDupUrls(s: seq<Source>) {
    forall i, j :: 0 <= i < j < |s| ==> s[i].url != s[j].url
  }

  /** a is an order-preserving subsequence of b. */
  predicate IsSubsequence(a: seq<Source>, b: seq<Source>)
    decreases |b|
  {
    if a == [] then true
    else if b == [] then false
    else (a[|a| - 1] == b[|b| - 1] && IsSubsequence(a[..|a| - 1], b[..|b| - 1]))
         || IsSubsequence(a, b[..|b| - 1])
  }

  lemma {:induction false} UrlsSnoc(s: seq<Source>, x: Source)
    ensures Urls(s + [x]) == Urls(s) + {x.url}
  {
    assert forall y :: y in s + [x] <==> y in s || y == x;
  }

  /** The specification of the dedup loop: walking s from the front, a record
      is kept when no record kept before it has its URL. The result has no
      duplicate URL, covers the same URLs as s and is no longer than s. */
  function Dedup(s: seq<Source>): (r: seq<Source>)
    ensures |r| <= |s|
    ensures NoDupUrls(r)
    ensures Urls(r) == Urls(s)
    decreases |s|
  {
    if s == [] then []
    else
      var init, x := s[..|s| - 1], s[|s| - 1];
      var kept := Dedup(init);
      UrlsSnoc(init, x);
      UrlsSnoc(kept, x);
      assert s == init + [x];
      if x.url in Urls(kept) then kept else kept + [x]
  }

  /** One step of the loop: the next record is kept exactly when its URL has
      not been kept yet. */
  lemma {:induction false} DedupSnoc(s: seq<Source>, x: Source)
    ensures Dedup(s + [x]) == if x.url in Urls(Dedup(s)) then Dedup(s) else Dedup(s) + [x]
  {
    assert (s + [x])[..|s|] == s;
  }

  /** The loop of collect_sources: walk the records in order, remembering
      the URLs seen so far in a set, and append each record whose URL is new. */
  method KeepFirstPerUrl(sources: seq<Source>) returns (unique: seq<Source>)
    ensures unique == Dedup(sources)
  {
    var seen: set<string> := {};
    unique := [];
    for i := 0 to |sources|
      invariant unique == Dedup(sources[..i])
      invariant seen == Urls(unique)
    {
      var s := sources[i];
      assert sources[..i + 1] == sources[..i] + [s];
      DedupSnoc(sources[..i], s);
      if s.url !in seen {
        UrlsSnoc(unique, s);
        seen := seen + {s.url};
        unique := unique + [s];
      }
    }
    assert sources[..|sources|] == sources;
  }

  /** The position of the first record of s that has URL u. */
  function FirstIndex(s: seq<Source>, u: string): (i: nat)
    requires u in Urls(s)
    ensures i < |s| && s[i].url == u
    ensures forall j :: 0 <= j < i ==> s[j].url != u
  {
    if s[0].url == u then 0
    else
      assert u in Urls(s[1..]) by {
        var x :| x in s && x.url == u;
        var k :| 0 <= k < |s| && s[k] == x;
        assert s[1..][k - 1] == x;
      }
      1 + FirstIndex(s[1..], u)
  }

  lemma {:induction false} FirstIndexSnoc(s: seq<Source>, x: Source, u: string)
    requires u in Urls(s)
    ensures u in Urls(s + [x]) && FirstIndex(s + [x], u) == FirstIndex(s, u)
  {
    UrlsSnoc(s, x);
    var k := FirstIndex(s, u);
    assert (s + [x])[k] == s[k];
  }

  /** Deduplication is an order-preserving subsequence of its input. */
  lemma {:induction false} DedupIsSubsequence(s: seq<Source>)
    ensures IsSubsequence(Dedup(s), s)
    decreases |s|
  {
    if s != [] {
      var init, x := s[..|s| - 1], s[|s| - 1];
      DedupIsSubsequence(init);
      var kept := Dedup(init);
      if x.url !in Urls(kept) {
        assert (kept + [x])[..|kept|] == kept;
      }
    }
  }

  /** Each kept record is the first record of the input with its URL. */
  lemma {:induction false} DedupKeepsFirst(s: seq<Source>)
    ensures forall k :: 0 <= k < |Dedup(s)| ==> Dedup(s)[k] == s[FirstIndex(s, Dedup(s)[k].url)]
    decreases |s|
  {
    if s != [] {
      var init, x := s[..|s| - 1], s[|s| - 1];
      assert s == init + [x];
      DedupKeepsFirst(init);
      var kept := Dedup(init);
      forall k | 0 <= k < |Dedup(s)|
        ensures Dedup(s)[k] == s[FirstIndex(s, Dedup(s)[k].url)]
      {
        if k < |kept| {
          assert Dedup(s)[k] == kept[k];
          assert kept[k] in kept;
          FirstIndexSnoc(init, x, kept[k].url);
        } else {
          assert Dedup(s)[k] == x && x.url !in Urls(init);
          assert FirstIndex(s, x.url) == |init|;
        }
      }
    }
  }

  /** A list that already has unique URLs is left unchanged. */
  lemma {:induction false} DedupOfUnique(s: seq<Source>)
    requires NoDupUrls(s)
    ensures Dedup(s) == s
    decreases |s|
  {
    if s != [] {
      var init, x := s[..|s| - 1], s[|s| - 1];
      assert NoDupUrls(init) by {
        forall i, j | 0 <= i < j < |init| ensures init[i].url != init[j].url {
          assert init[i] == s[i] && init[j] == s[j];
        }
      }
      DedupOfUnique(init);
      assert x.url !in Urls(init) by {
        forall y | y in init ensures y.url != x.url {
          var j :| 0 <= j < |init| && init[j] == y;
          assert s[j] == y;
        }
      }
      assert s == init + [x];
      DedupSnoc(init, x);
    }
  }

  /** Deduplicating twice is the same as deduplicating once. */
  lemma {:induction false} DedupIdempotent(s: seq<Source>)
    ensures Dedup(Dedup(s)) == Dedup(s)
  {
    DedupOfUnique(Dedup(s));
  }

  /** Deduplicating a longer list starts with the deduplication of its
      prefix: later records never displace earlier ones. */
  lemma {:induction false} DedupPrefix(a: seq<Source>, b: seq<Source>)
    ensures Dedup(a) <= Dedup(a + b)
    decreases |b|
  {
    if b == [] {
      assert a + b == a;
    } else {
      var init := b[..|b| - 1];
      assert a + b == (a + init) + [b[|b| - 1]];
      assert (a + b)[..|a + b| - 1] == a + init;
      DedupPrefix(a, init);
    }
  }

  /** A prefix whose URLs are already unique survives deduplication
      unchanged, at the front. */
  lemma {:induction false} DedupKeepsUniquePrefix(p: seq<Source>, rest: seq<Source>)
    requires NoDupUrls(p)
    ensures p <= Dedup(p + rest)
  {
    DedupPrefix(p, rest);
    DedupOfUnique(p);
  }

  /** The result is empty exactly when the input is. */
  lemma {:induction false} DedupEmpty(s: seq<Source>)
    ensures Dedup(s) == [] <==> s == []
  {
    if s != [] {
      assert s[0] in s;
      assert s[0].url in Urls(s);
    }
  }
}
