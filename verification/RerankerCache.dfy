/**
 A cache of reranker logits that survives interruption, and the exact condition
 on the queries under which it answers as the scorer it stands for.
 */
module RerankerCache {
  import opened Wrappers

  const NEWLINE := "\n"

  /** The text whose digest is the cache key. */
  function Text(query: string, document: string): string { query + NEWLINE + document }

  /** Neither query, with its newline, begins the other. */
  predicate Apart(p: string, q: string) { !(p + NEWLINE <= q + NEWLINE) && !(q + NEWLINE <= p + NEWLINE) }

  predicate Separable(queries: set<string>) {
    forall p <- queries, q <- queries :: p != q ==> Apart(p, q)
  }

  /** Two queries share the key of some pair of documents exactly when one begins the other at a newline. */
  lemma KeysCollideIff(p: string, q: string)
    ensures (exists d: string, e: string :: Text(p, d) == Text(q, e)) <==> !Apart(p, q)
  {
    forall d: string, e: string | Text(p, d) == Text(q, e) ensures !Apart(p, q) {
      var text := Text(p, d);
      assert text[..|p| + 1] == p + NEWLINE && text[..|q| + 1] == q + NEWLINE;
    }
    if p + NEWLINE <= q + NEWLINE {
      assert Text(p, (q + NEWLINE)[|p| + 1..]) == Text(q, "");
    }
    if q + NEWLINE <= p + NEWLINE {
      assert Text(q, (p + NEWLINE)[|q| + 1..]) == Text(p, "");
    }
  }

  /** Queries of one line are always apart. */
  lemma OneLineQueriesSeparable(queries: set<string>)
    requires forall q <- queries :: '\n' !in q
    ensures Separable(queries)
  {
    forall p <- queries, q <- queries ensures p != q ==> Apart(p, q) {
      OneLinePrefix(p, q);
      OneLinePrefix(q, p);
    }
  }

  lemma OneLinePrefix(p: string, q: string)
    requires '\n' !in q
    ensures p + NEWLINE <= q + NEWLINE ==> p == q
  {
    if p + NEWLINE <= q + NEWLINE {
      assert (q + NEWLINE)[|p|] == '\n';
      assert |p| == |q|;
      assert (q + NEWLINE)[..|q|] == q && (p + NEWLINE)[..|p|] == p;
    }
  }

  /** Under one query the document is read back from the key. */
  lemma SameQuerySameDocument(query: string, d: string, e: string)
    requires Text(query, d) == Text(query, e)
    ensures d == e
  {
    assert Text(query, d)[|query| + 1..] == d && Text(query, e)[|query| + 1..] == e;
  }

  lemma SeparableKeysMatch(queries: set<string>, p: string, d: string, q: string, e: string)
    requires Separable(queries) && p in queries && q in queries && Text(p, d) == Text(q, e)
    ensures p == q && d == e
  {
    KeysCollideIff(p, q);
    if p == q {
      SameQuerySameDocument(p, d, e);
    }
  }

  ghost predicate Injective(digest: string -> string) {
    forall a, b :: digest(a) == digest(b) ==> a == b
  }

  /** Every logit is the score of some pair with that key, asked under one of these queries. */
  ghost predicate Backed(
      logits: map<string, real>, queries: set<string>, score: (string, string) -> real, digest: string -> string) {
    forall key <- logits :: exists q: string, d: string ::
      q in queries && digest(Text(q, d)) == key && logits[key] == score(q, d)
  }

  // ------------------------------------------------------- sequences of calls

  datatype Batch = Batch(query: string, documents: seq<string>)

  /** The cache after one call: every document whose key is new is scored and stored. */
  function Extended(
      cache: map<string, real>, batch: Batch, score: (string, string) -> real, digest: string -> string): map<string, real>
    decreases |batch.documents|
  {
    if batch.documents == [] then cache
    else
      var n := |batch.documents| - 1;
      var before := Extended(cache, batch.(documents := batch.documents[..n]), score, digest);
      var key := digest(Text(batch.query, batch.documents[n]));
      if key in before then before else before[key := score(batch.query, batch.documents[n])]
  }

  /** What a call adds, and that it changes nothing else. */
  lemma {:induction false} ExtendedIs(
      cache: map<string, real>, batch: Batch, score: (string, string) -> real, digest: string -> string)
    requires Injective(digest)
    ensures var after := Extended(cache, batch, score, digest);
      && (forall key <- cache :: key in after && after[key] == cache[key])
      && (forall d <- batch.documents :: digest(Text(batch.query, d)) in after)
      && (forall key <- after :: key !in cache ==>
            exists d <- batch.documents :: key == digest(Text(batch.query, d)) && after[key] == score(batch.query, d))
    decreases |batch.documents|
  {
    if batch.documents != [] {
      var n := |batch.documents| - 1;
      var init := batch.(documents := batch.documents[..n]);
      ExtendedIs(cache, init, score, digest);
      assert forall d <- batch.documents :: d in init.documents || d == batch.documents[n];
      assert batch.documents[n] in batch.documents && forall d <- init.documents :: d in batch.documents;
    }
  }

  /** Two caches that a call may have left are the same. */
  lemma {:induction false} ExtendedUnique(
      cache: map<string, real>, after: map<string, real>, batch: Batch, score: (string, string) -> real,
      digest: string -> string)
    requires Injective(digest)
    requires forall key <- cache :: key in after && after[key] == cache[key]
    requires forall d <- batch.documents :: digest(Text(batch.query, d)) in after
    requires forall key <- after :: key !in cache ==>
      exists d <- batch.documents :: key == digest(Text(batch.query, d)) && after[key] == score(batch.query, d)
    ensures after == Extended(cache, batch, score, digest)
  {
    var spec := Extended(cache, batch, score, digest);
    ExtendedIs(cache, batch, score, digest);
    forall key <- after ensures key in spec && spec[key] == after[key] {
      if key !in cache {
        var d :| d in batch.documents && key == digest(Text(batch.query, d)) && after[key] == score(batch.query, d);
        assert digest(Text(batch.query, d)) in spec;
        var e :| e in batch.documents && key == digest(Text(batch.query, e)) && spec[key] == score(batch.query, e);
        SameQuerySameDocument(batch.query, d, e);
      }
    }
    forall key <- spec ensures key in after {
      if key !in cache {
        var d :| d in batch.documents && key == digest(Text(batch.query, d)) && spec[key] == score(batch.query, d);
        assert digest(Text(batch.query, d)) in after;
      }
    }
  }

  /** The cache after a sequence of calls on an empty one. */
  function CacheAfter(batches: seq<Batch>, score: (string, string) -> real, digest: string -> string): map<string, real> {
    if batches == [] then map[]
    else Extended(CacheAfter(batches[..|batches| - 1], score, digest), batches[|batches| - 1], score, digest)
  }

  /** The last call is answered with the scorer's own logits. */
  predicate LastExact(batches: seq<Batch>, score: (string, string) -> real, digest: string -> string)
    requires batches != []
  {
    var last, cache := batches[|batches| - 1], CacheAfter(batches, score, digest);
    forall d <- last.documents ::
      digest(Text(last.query, d)) in cache && cache[digest(Text(last.query, d))] == score(last.query, d)
  }

  predicate AskedUnder(batches: seq<Batch>, queries: set<string>) { forall b <- batches :: b.query in queries }

  lemma {:induction false} CacheAfterBacked(
      batches: seq<Batch>, queries: set<string>, score: (string, string) -> real, digest: string -> string)
    requires Injective(digest) && AskedUnder(batches, queries)
    ensures Backed(CacheAfter(batches, score, digest), queries, score, digest)
  {
    if batches != [] {
      var init, last := batches[..|batches| - 1], batches[|batches| - 1];
      assert last in batches && forall b <- init :: b in batches;
      CacheAfterBacked(init, queries, score, digest);
      ExtendedBacked(CacheAfter(init, score, digest), last, queries, score, digest);
    }
  }

  lemma {:induction false} ExtendedBacked(
      cache: map<string, real>, batch: Batch, queries: set<string>, score: (string, string) -> real, digest: string -> string)
    requires Backed(cache, queries, score, digest) && batch.query in queries
    ensures Backed(Extended(cache, batch, score, digest), queries, score, digest)
    decreases |batch.documents|
  {
    if batch.documents != [] {
      var n := |batch.documents| - 1;
      var init := batch.(documents := batch.documents[..n]);
      ExtendedBacked(cache, init, queries, score, digest);
      BackedPut(Extended(cache, init, score, digest), queries, score, digest, batch.query, batch.documents[n]);
    }
  }

  lemma SeparableLastExact(
      batches: seq<Batch>, queries: set<string>, score: (string, string) -> real, digest: string -> string)
    requires Injective(digest) && batches != [] && AskedUnder(batches, queries) && Separable(queries)
    ensures LastExact(batches, score, digest)
  {
    var last, cache := batches[|batches| - 1], CacheAfter(batches, score, digest);
    CacheAfterBacked(batches, queries, score, digest);
    ExtendedIs(CacheAfter(batches[..|batches| - 1], score, digest), last, score, digest);
    assert last in batches;
    forall d <- last.documents
      ensures digest(Text(last.query, d)) in cache && cache[digest(Text(last.query, d))] == score(last.query, d)
    {
      var key := digest(Text(last.query, d));
      var q: string, e: string :| q in queries && digest(Text(q, e)) == key && cache[key] == score(q, e);
      SeparableKeysMatch(queries, q, e, last.query, d);
    }
  }

  /** A scorer that tells the two queries apart, and the two calls after which it is answered for wrongly. */
  lemma CollidingCalls(p: string, q: string, digest: string -> string)
    returns (batches: seq<Batch>, score: (string, string) -> real)
    requires Injective(digest) && p != q && !Apart(p, q)
    ensures batches != [] && AskedUnder(batches, {p, q}) && !LastExact(batches, score, digest)
  {
    KeysCollideIff(p, q);
    var d: string, e: string :| Text(p, d) == Text(q, e);
    score := (x, y) => if x == p then 0.0 else 1.0;
    var first, second := Batch(p, [d]), Batch(q, [e]);
    batches := [first, second];
    var key := digest(Text(p, d));
    assert batches[..1] == [first] && [first][..0] == [];
    assert CacheAfter([], score, digest) == map[];
    ExtendedIs(map[], first, score, digest);
    assert first.documents[0] in first.documents;
    assert CacheAfter([first], score, digest)[key] == 0.0;
    ExtendedIs(CacheAfter([first], score, digest), second, score, digest);
    assert second.documents[0] in second.documents && digest(Text(q, e)) == key;
    assert CacheAfter(batches, score, digest)[key] == 0.0;
  }

  /**
   Separable queries are exactly those under which no sequence of calls, duplicates included, is ever
   answered with anything but the scorer's own logits.
   */
  lemma ExactIffSeparable(queries: set<string>, digest: string -> string)
    requires Injective(digest)
    ensures Separable(queries) <==> forall batches: seq<Batch>, score: (string, string) -> real ::
      batches != [] && AskedUnder(batches, queries) ==> LastExact(batches, score, digest)
  {
    if Separable(queries) {
      forall batches: seq<Batch>, score: (string, string) -> real | batches != [] && AskedUnder(batches, queries)
        ensures LastExact(batches, score, digest)
      {
        SeparableLastExact(batches, queries, score, digest);
      }
    } else {
      var p, q :| p in queries && q in queries && p != q && !Apart(p, q);
      var batches, score := CollidingCalls(p, q, digest);
      assert AskedUnder(batches, queries);
    }
  }

  datatype Payload = Payload(model: string, revision: string, logits: map<string, real>)

  class CachedRerankerBackend {
    const model: string
    const revision: string
    // The delegate scores each document on its own.
    const score: (string, string) -> real
    const digest: string -> string
    var cache: map<string, real>
    var file: Option<Payload>
    // The queries seen so far, and the pairs the delegate was asked for.
    ghost var queries: set<string>
    ghost var asked: seq<(string, string)>

    ghost predicate Valid()
      reads this
    {
      Injective(digest) && Backed(cache, queries, score, digest)
    }

    /** A file of another model or revision is ignored. */
    constructor (model: string, revision: string, score: (string, string) -> real, digest: string -> string,
                 file: Option<Payload>, ghost past: set<string>)
      requires Injective(digest)
      requires file.Some? && file.value.model == model && file.value.revision == revision
        ==> Backed(file.value.logits, past, score, digest)
      ensures Valid() && queries == past && asked == [] && this.file == file
      ensures this.model == model && this.revision == revision && this.score == score && this.digest == digest
      ensures cache == if file.Some? && file.value.model == model && file.value.revision == revision
        then file.value.logits else map[]
    {
      this.model, this.revision, this.score, this.digest := model, revision, score, digest;
      this.file, this.queries, this.asked := file, past, [];
      if file.Some? && file.value.model == model && file.value.revision == revision {
        cache := file.value.logits;
      } else {
        cache := map[];
      }
    }

    function Key(query: string, document: string): string { digest(Text(query, document)) }

    function Keys(query: string, documents: seq<string>): seq<string> {
      seq(|documents|, i requires 0 <= i < |documents| => Key(query, documents[i]))
    }

    method MissingOf(items: seq<string>, keys: seq<string>) returns (missing: seq<string>)
      requires |items| == |keys|
      ensures missing == Missing(items, keys, cache)
    {
      missing := [];
      for i := 0 to |items|
        invariant missing == Missing(items[..i], keys[..i], cache)
      {
        assert items[..i + 1][..i] == items[..i] && keys[..i + 1][..i] == keys[..i];
        if keys[i] !in cache {
          missing := missing + [items[i]];
        }
      }
      assert items[..|items|] == items && keys[..|keys|] == keys;
    }

    /**
     The scores of a batch, with the delegate asked only for keys not yet cached. They are the
     delegate's own scores whenever the queries seen so far are separable.
     */
    method ScoreLogits(query: string, documents: seq<string>) returns (logits: seq<real>)
      requires Valid()
      modifies this
      ensures Valid() && queries == old(queries) + {query}
      ensures |logits| == |documents|
      ensures Separable(queries) ==> forall i | 0 <= i < |documents| :: logits[i] == score(query, documents[i])
      ensures var keys := Keys(query, documents);
        forall i | 0 <= i < |documents| :: keys[i] in cache && logits[i] == cache[keys[i]]
      ensures cache == Extended(old(cache), Batch(query, documents), score, digest)
      ensures var missing := Missing(documents, Keys(query, documents), old(cache));
        && asked == old(asked) + Pairs(query, missing)
        && file == (if missing == [] then old(file) else Some(Payload(model, revision, cache)))
        && (missing == [] ==> cache == old(cache))
    {
      var keys := Keys(query, documents);
      BackedMore(cache, queries, query, score, digest);
      queries := queries + {query};
      Fill(query, documents, keys);
      logits := ReadBack(query, documents, keys);
    }

    /** Ask the delegate for the missing documents only, store what it says and save the file. */
    method Fill(query: string, documents: seq<string>, keys: seq<string>)
      requires Valid() && query in queries && keys == Keys(query, documents)
      modifies this`cache, this`file, this`asked
      ensures Valid() && forall key <- keys :: key in cache
      ensures cache == Extended(old(cache), Batch(query, documents), score, digest)
      ensures var missing := Missing(documents, keys, old(cache));
        && asked == old(asked) + Pairs(query, missing)
        && file == (if missing == [] then old(file) else Some(Payload(model, revision, cache)))
        && (missing == [] ==> cache == old(cache))
    {
      var missing := MissingOf(documents, keys);
      MissingAlign(documents, keys, cache, query, digest);
      if missing != [] {
        var values := seq(|missing|, i requires 0 <= i < |missing| => score(query, missing[i]));
        asked := asked + Pairs(query, missing);
        var missingKeys := MissingOf(keys, keys);
        Store(query, missing, missingKeys, values);
        file := Some(Payload(model, revision, cache));
      }
      StoredIsExtended(documents, keys, old(cache), cache, query, score, digest);
    }

    /** The strict zip of keys and values; a key that comes twice is written twice. */
    method Store(query: string, ghost documents: seq<string>, keys: seq<string>, values: seq<real>)
      requires Valid() && query in queries
      requires |keys| == |values| == |documents|
      requires forall i | 0 <= i < |keys| ::
        keys[i] == digest(Text(query, documents[i])) && values[i] == score(query, documents[i]) && keys[i] !in cache
      modifies this`cache
      ensures Valid()
      ensures forall key <- keys :: key in cache
      ensures forall key <- old(cache) :: key in cache && cache[key] == old(cache)[key]
      ensures forall key <- cache :: key !in old(cache) ==>
        exists d <- documents :: key == digest(Text(query, d)) && cache[key] == score(query, d)
    {
      for i := 0 to |values|
        invariant Backed(cache, queries, score, digest)
        invariant forall k | 0 <= k < i :: keys[k] in cache
        invariant forall key <- old(cache) :: key in cache && cache[key] == old(cache)[key]
        invariant forall key <- cache :: key !in old(cache) ==>
          exists d <- documents :: key == digest(Text(query, d)) && cache[key] == score(query, d)
      {
        assert documents[i] in documents;
        BackedPut(cache, queries, score, digest, query, documents[i]);
        cache := cache[keys[i] := values[i]];
      }
    }

    method ReadBack(query: string, documents: seq<string>, keys: seq<string>) returns (logits: seq<real>)
      requires Valid() && query in queries && keys == Keys(query, documents)
      requires forall key <- keys :: key in cache
      ensures |logits| == |documents|
      ensures Separable(queries) ==> forall i | 0 <= i < |documents| :: logits[i] == score(query, documents[i])
      ensures forall i | 0 <= i < |documents| :: keys[i] in cache && logits[i] == cache[keys[i]]
    {
      logits := seq(|keys|, i requires 0 <= i < |keys| && keys[i] in cache reads this => cache[keys[i]]);
      if Separable(queries) {
        forall i | 0 <= i < |documents| ensures logits[i] == score(query, documents[i]) {
          var q: string, d: string :| q in queries && digest(Text(q, d)) == keys[i] && cache[keys[i]] == score(q, d);
          SeparableKeysMatch(queries, q, d, query, documents[i]);
        }
      }
    }
  }

  function Missing(items: seq<string>, keys: seq<string>, cache: map<string, real>): seq<string>
    requires |items| == |keys|
  {
    if items == [] then []
    else
      var n := |items| - 1;
      Missing(items[..n], keys[..n], cache) + if keys[n] in cache then [] else [items[n]]
  }

  function Pairs(query: string, documents: seq<string>): seq<(string, string)> {
    seq(|documents|, i requires 0 <= i < |documents| => (query, documents[i]))
  }

  /** The missing keys are the keys of the missing documents, repeats included. */
  lemma {:induction false} MissingAlign(
      documents: seq<string>, keys: seq<string>, cache: map<string, real>, query: string, digest: string -> string)
    requires |keys| == |documents|
    requires forall i | 0 <= i < |keys| :: keys[i] == digest(Text(query, documents[i]))
    ensures var d, k := Missing(documents, keys, cache), Missing(keys, keys, cache);
      && |d| == |k|
      && (forall i | 0 <= i < |d| :: k[i] == digest(Text(query, d[i])) && k[i] !in cache)
      && (forall key <- keys :: key !in cache ==> key in k)
  {
    if documents != [] {
      var n := |documents| - 1;
      MissingAlign(documents[..n], keys[..n], cache, query, digest);
      assert forall key <- keys :: key in keys[..n] || key == keys[n];
    }
  }

  lemma StoredIsExtended(
      documents: seq<string>, keys: seq<string>, before: map<string, real>, after: map<string, real>, query: string,
      score: (string, string) -> real, digest: string -> string)
    requires Injective(digest) && |keys| == |documents|
    requires forall i | 0 <= i < |keys| :: keys[i] == digest(Text(query, documents[i]))
    requires forall key <- before :: key in after && after[key] == before[key]
    requires forall key <- Missing(keys, keys, before) :: key in after
    requires forall key <- after :: key !in before ==>
      exists d <- Missing(documents, keys, before) :: key == digest(Text(query, d)) && after[key] == score(query, d)
    ensures (forall key <- keys :: key in after) && after == Extended(before, Batch(query, documents), score, digest)
  {
    MissingAlign(documents, keys, before, query, digest);
    MissingAmong(documents, keys, before);
    forall d <- documents ensures digest(Text(query, d)) in after {
      var i :| 0 <= i < |documents| && documents[i] == d;
      assert keys[i] in keys;
    }
    ExtendedUnique(before, after, Batch(query, documents), score, digest);
  }

  lemma {:induction false} MissingAmong(items: seq<string>, keys: seq<string>, cache: map<string, real>)
    requires |items| == |keys|
    ensures forall m <- Missing(items, keys, cache) :: m in items
  {
    if items != [] {
      var n := |items| - 1;
      MissingAmong(items[..n], keys[..n], cache);
      assert items[n] in items && forall m <- items[..n] :: m in items;
    }
  }

  lemma BackedMore(
      logits: map<string, real>, queries: set<string>, query: string, score: (string, string) -> real,
      digest: string -> string)
    requires Backed(logits, queries, score, digest)
    ensures Backed(logits, queries + {query}, score, digest)
  {
    forall key <- logits
      ensures exists q: string, d: string ::
        q in queries + {query} && digest(Text(q, d)) == key && logits[key] == score(q, d)
    {
      var q: string, d: string :| q in queries && digest(Text(q, d)) == key && logits[key] == score(q, d);
      assert q in queries + {query};
    }
  }

  lemma BackedPut(
      logits: map<string, real>, queries: set<string>, score: (string, string) -> real, digest: string -> string,
      query: string, document: string)
    requires Backed(logits, queries, score, digest) && query in queries
    ensures Backed(logits[digest(Text(query, document)) := score(query, document)], queries, score, digest)
  {
    var key := digest(Text(query, document));
    var after := logits[key := score(query, document)];
    forall k <- after
      ensures exists q: string, d: string :: q in queries && digest(Text(q, d)) == k && after[k] == score(q, d)
    {
      if k == key {
        assert query in queries && digest(Text(query, document)) == k && after[k] == score(query, document);
      } else {
        var q: string, d: string :| q in queries && digest(Text(q, d)) == k && logits[k] == score(q, d);
        assert after[k] == score(q, d);
      }
    }
  }
}
