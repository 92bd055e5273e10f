/**
  TF-IDF search over code chunks: an inverted index, scoring by accumulation over its postings,
  and a cache of answers.

  Tokenizing, counting text matches, logarithm and square root are parameters (`Kit`); the
  results hold for every choice of them.
*/
module SemanticSearch {
  import opened SearchRanking

  datatype Kit = Kit(
    tokenize: string -> seq<string>,
    occurrences: (string, string) -> nat,  // of a query in a content; positive iff it is contained
    ln: real -> real,
    sqrt: real -> real)

  datatype Chunk = Chunk(file: string, content: string)

  datatype Posting = Posting(chunk: nat, weight: real)

  type Index = map<string, seq<Posting>>

  function Times(a: real, b: real): real {
    a * b
  }

  // ---- counting tokens ----------------------------------------------------------------------------

  function Count(tokens: seq<string>, t: string): nat {
    if tokens == [] then 0 else Count(tokens[..|tokens| - 1], t) + if tokens[|tokens| - 1] == t then 1 else 0
  }

  /** The keys of a dict or Counter filled from `tokens`: first occurrences, in order. */
  function Distinct(tokens: seq<string>): (r: seq<string>)
    ensures forall t :: t in r <==> t in tokens
  {
    if tokens == [] then []
    else
      var last := tokens[|tokens| - 1];
      var r := Distinct(tokens[..|tokens| - 1]);
      assert forall t :: t in tokens <==> t in tokens[..|tokens| - 1] || t == last;
      if last in r then r else r + [last]
  }

  /** `doc_freq`: it adds one per token occurrence, not one per chunk. */
  function DocFreq(kit: Kit, chunks: seq<Chunk>, t: string): nat {
    if chunks == [] then 0
    else DocFreq(kit, chunks[..|chunks| - 1], t) + Count(kit.tokenize(chunks[|chunks| - 1].content), t)
  }

  lemma {:induction false} CountIsMultiplicity(tokens: seq<string>, t: string)
    ensures Count(tokens, t) == multiset(tokens)[t]
  {
    if tokens == [] {
    } else {
      var n := |tokens| - 1;
      CountIsMultiplicity(tokens[..n], t);
      assert tokens == tokens[..n] + [tokens[n]];
    }
  }

  /** The tokens of all chunks. */
  function AllTokens(kit: Kit, chunks: seq<Chunk>): multiset<string> {
    if chunks == [] then multiset{}
    else multiset(kit.tokenize(chunks[0].content)) + AllTokens(kit, chunks[1..])
  }

  lemma {:induction false} AllTokensSnoc(kit: Kit, chunks: seq<Chunk>, c: Chunk)
    ensures AllTokens(kit, chunks + [c]) == AllTokens(kit, chunks) + multiset(kit.tokenize(c.content))
  {
    if chunks == [] {
      assert ([] + [c])[1..] == [];
    } else {
      AllTokensSnoc(kit, chunks[1..], c);
      assert (chunks + [c])[1..] == chunks[1..] + [c];
    }
  }

  /** `doc_freq` of a token is how often it occurs in the tokens of all chunks together. */
  lemma {:induction false} DocFreqIsMultiplicity(kit: Kit, chunks: seq<Chunk>, t: string)
    ensures DocFreq(kit, chunks, t) == AllTokens(kit, chunks)[t]
  {
    if chunks == [] {
    } else {
      var front, last := chunks[..|chunks| - 1], chunks[|chunks| - 1];
      DocFreqIsMultiplicity(kit, front, t);
      CountIsMultiplicity(kit.tokenize(last.content), t);
      assert chunks == front + [last];
      AllTokensSnoc(kit, front, last);
    }
  }

  // ---- the reference: weights and scores without an index --------------------------------------------

  /** The share of a token among the tokens of a chunk. */
  function Share(tokens: seq<string>, t: string): real {
    Count(tokens, t) as real / (if tokens == [] then 1 else |tokens|) as real
  }

  function Idf(kit: Kit, documents: nat, occurrences: nat): real {
    kit.ln(documents as real / (occurrences + 1) as real) + 1.0
  }

  function Weight(kit: Kit, chunks: seq<Chunk>, i: nat, t: string): real
    requires i < |chunks|
  {
    Times(Share(kit.tokenize(chunks[i].content), t), Idf(kit, |chunks|, DocFreq(kit, chunks, t)))
  }

  /**
    The weight of a token in a chunk: its share of the tokens of the chunk, times one plus the
    logarithm of the number of chunks over one plus its occurrences in all of them.
  */
  lemma WeightInCounts(kit: Kit, chunks: seq<Chunk>, i: nat, t: string, ratio: real)
    requires i < |chunks| && Times(ratio, (1 + AllTokens(kit, chunks)[t]) as real) == |chunks| as real
    ensures var tokens := kit.tokenize(chunks[i].content);
      Times(|tokens| as real, Weight(kit, chunks, i, t)) == Times(multiset(tokens)[t] as real, 1.0 + kit.ln(ratio))
  {
    hide Times, Weight;
    DocFreqIsMultiplicity(kit, chunks, t);
    CountIsMultiplicity(kit.tokenize(chunks[i].content), t);
    WeightScaled(kit, chunks, i, t, ratio);
  }

  lemma WeightScaled(kit: Kit, chunks: seq<Chunk>, i: nat, t: string, ratio: real)
    requires i < |chunks| && Times(ratio, (1 + DocFreq(kit, chunks, t)) as real) == |chunks| as real
    ensures var tokens := kit.tokenize(chunks[i].content);
      Times(|tokens| as real, Weight(kit, chunks, i, t)) == Times(Count(tokens, t) as real, 1.0 + kit.ln(ratio))
  {
    hide Times, Share, Idf;
    IdfOfRatio(kit, |chunks|, DocFreq(kit, chunks, t), ratio);
    ShareOfAll(kit.tokenize(chunks[i].content), t, 1.0 + kit.ln(ratio));
  }

  lemma IdfOfRatio(kit: Kit, documents: nat, occurrences: nat, ratio: real)
    requires Times(ratio, (1 + occurrences) as real) == documents as real
    ensures Idf(kit, documents, occurrences) == 1.0 + kit.ln(ratio)
  {
    assert ratio == documents as real / (occurrences + 1) as real;
  }

  lemma ShareOfAll(tokens: seq<string>, t: string, x: real)
    ensures Times(|tokens| as real, Times(Share(tokens, t), x)) == Times(Count(tokens, t) as real, x)
  {
    if tokens == [] {
      NoShare(Times(Share(tokens, t), x), x);
    } else {
      ShareOf(Count(tokens, t) as real, |tokens| as real, x);
    }
  }

  lemma NoShare(weight: real, idf: real)
    ensures Times(0.0, weight) == Times(0.0, idf)
  {
  }

  lemma ShareOf(count: real, total: real, idf: real)
    requires total > 0.0
    ensures Times(total, Times(count / total, idf)) == Times(count, idf)
  {
    var share := count / total;
    assert total * share == count;
    assert total * (share * idf) == (total * share) * idf;
  }

  predicate Contains(kit: Kit, chunks: seq<Chunk>, i: nat, t: string)
    requires i < |chunks|
  {
    t in kit.tokenize(chunks[i].content)
  }

  datatype Term = Term(token: string, weight: real)

  /** The contribution of one query term to the score of chunk `i`. */
  function Contribution(kit: Kit, chunks: seq<Chunk>, i: nat, q: Term): real
    requires i < |chunks|
  {
    if Contains(kit, chunks, i, q.token) then Times(q.weight, Weight(kit, chunks, i, q.token)) else 0.0
  }

  /** Brute force: the dot product of the query vector with the weights of chunk `i`. */
  function DirectScore(kit: Kit, chunks: seq<Chunk>, i: nat, query: seq<Term>): real
    requires i < |chunks|
  {
    if query == [] then 0.0
    else DirectScore(kit, chunks, i, query[..|query| - 1]) + Contribution(kit, chunks, i, query[|query| - 1])
  }

  // ---- the index ------------------------------------------------------------------------------------

  /** The postings of `t` among the first `n` chunks. */
  function Postings(kit: Kit, chunks: seq<Chunk>, t: string, n: nat): (r: seq<Posting>)
    requires n <= |chunks|
    ensures forall p :: p in r ==> p.chunk < n
  {
    if n == 0 then []
    else
      Postings(kit, chunks, t, n - 1) +
      if Contains(kit, chunks, n - 1, t) then [Posting(n - 1, Weight(kit, chunks, n - 1, t))] else []
  }

  function Lookup(index: Index, t: string): seq<Posting> {
    if t in index then index[t] else []
  }

  ghost predicate IndexOf(kit: Kit, chunks: seq<Chunk>, index: Index) {
    && (forall t :: Lookup(index, t) == Postings(kit, chunks, t, |chunks|))
    && (forall t :: t in index ==> index[t] != [])
  }

  ghost predicate DocFreqOf(kit: Kit, chunks: seq<Chunk>, docFreq: map<string, nat>) {
    forall t :: (if t in docFreq then docFreq[t] else 0) == DocFreq(kit, chunks, t)
  }

  // ---- accumulating scores over the postings ------------------------------------------------------------

  /** A dict from chunk indices to scores, as its items in insertion order. */
  type Scores = seq<Scored<nat>>

  predicate HasScore(scores: Scores, chunk: nat) {
    exists k :: 0 <= k < |scores| && scores[k].item == chunk
  }

  /** `scores[chunk] += x`, starting from 0. */
  function AddScore(scores: Scores, chunk: nat, x: real): Scores {
    if scores == [] then [Scored(chunk, 0.0 + x)]
    else if scores[0].item == chunk then [Scored(chunk, scores[0].score + x)] + scores[1..]
    else [scores[0]] + AddScore(scores[1..], chunk, x)
  }

  function AddPostings(scores: Scores, w: real, ps: seq<Posting>): Scores
    decreases |ps|
  {
    if ps == [] then scores else AddPostings(AddScore(scores, ps[0].chunk, Times(w, ps[0].weight)), w, ps[1..])
  }

  /** `chunk_scores` after all query terms. */
  function Accumulate(kit: Kit, chunks: seq<Chunk>, query: seq<Term>): Scores {
    if query == [] then []
    else
      var last := query[|query| - 1];
      AddPostings(Accumulate(kit, chunks, query[..|query| - 1]), last.weight,
                  Postings(kit, chunks, last.token, |chunks|))
  }

  /** The entry of a chunk in the score dict; 0 if it has none. */
  function ScoreOf(scores: Scores, chunk: nat): real {
    if scores == [] then 0.0 else if scores[0].item == chunk then scores[0].score else ScoreOf(scores[1..], chunk)
  }

  predicate OneEntryEach(scores: Scores) {
    forall i, j :: 0 <= i < j < |scores| ==> scores[i].item != scores[j].item
  }

  lemma {:induction false} AddScoreEffect(scores: Scores, chunk: nat, x: real)
    requires OneEntryEach(scores)
    ensures OneEntryEach(AddScore(scores, chunk, x))
    ensures forall c :: HasScore(AddScore(scores, chunk, x), c) <==> HasScore(scores, c) || c == chunk
    ensures forall c :: ScoreOf(AddScore(scores, chunk, x), c) == ScoreOf(scores, c) + if c == chunk then x else 0.0
  {
    var r := AddScore(scores, chunk, x);
    if scores != [] {
      if scores[0].item == chunk {
        assert r[1..] == scores[1..];
        forall c
          ensures HasScore(r, c) <==> HasScore(scores, c) || c == chunk
        {
          assert forall k :: 0 <= k < |r| ==> r[k].item == scores[k].item;
          if HasScore(r, c) {
            var k :| 0 <= k < |r| && r[k].item == c;
            assert scores[k].item == c;
          }
          if HasScore(scores, c) {
            var k :| 0 <= k < |scores| && scores[k].item == c;
            assert r[k].item == c;
          }
        }
        NoScore(scores[1..], chunk);
      } else {
        AddScoreEffect(scores[1..], chunk, x);
        var r1 := AddScore(scores[1..], chunk, x);
        assert r[1..] == r1;
        forall c
          ensures HasScore(r, c) <==> c == scores[0].item || HasScore(r1, c)
          ensures HasScore(scores, c) <==> c == scores[0].item || HasScore(scores[1..], c)
        {
          HasScoreHead(r, c);
          HasScoreHead(scores, c);
        }
        assert !HasScore(scores[1..], scores[0].item);
        forall i | 0 <= i < |r1|
          ensures r1[i].item != scores[0].item
        {
          assert HasScore(r1, r1[i].item);
        }
      }
    } else {
      assert r[0].item == chunk;
    }
  }

  lemma HasScoreHead(scores: Scores, c: nat)
    requires scores != []
    ensures HasScore(scores, c) <==> scores[0].item == c || HasScore(scores[1..], c)
  {
    if HasScore(scores, c) && scores[0].item != c {
      var k :| 0 <= k < |scores| && scores[k].item == c;
      assert scores[1..][k - 1].item == c;
    }
    if HasScore(scores[1..], c) {
      var k :| 0 <= k < |scores[1..]| && scores[1..][k].item == c;
      assert scores[k + 1].item == c;
    }
  }

  lemma {:induction false} NoScore(scores: Scores, c: nat)
    requires !HasScore(scores, c)
    ensures ScoreOf(scores, c) == 0.0
  {
    if scores == [] {
    } else {
      HasScoreHead(scores, c);
      NoScore(scores[1..], c);
    }
  }

  lemma {:induction false} AddPostingsConcat(scores: Scores, w: real, a: seq<Posting>, b: seq<Posting>)
    ensures AddPostings(scores, w, a + b) == AddPostings(AddPostings(scores, w, a), w, b)
    decreases |a|
  {
    if a == [] {
      assert a + b == b;
    } else {
      var first := AddScore(scores, a[0].chunk, Times(w, a[0].weight));
      assert (a + b)[0] == a[0] && (a + b)[1..] == a[1..] + b;
      assert AddPostings(scores, w, a + b) == AddPostings(first, w, a[1..] + b);
      AddPostingsConcat(first, w, a[1..], b);
    }
  }

  /** The contribution of a posting list to chunk `c`: the list has at most one posting for it. */
  function PostedWeight(ps: seq<Posting>, w: real, c: nat): real {
    if ps == [] then 0.0
    else if ps[|ps| - 1].chunk == c then Times(w, ps[|ps| - 1].weight)
    else PostedWeight(ps[..|ps| - 1], w, c)
  }

  predicate Posted(ps: seq<Posting>, c: nat) {
    ps != [] && (ps[|ps| - 1].chunk == c || Posted(ps[..|ps| - 1], c))
  }

  predicate InOrder(ps: seq<Posting>) {
    forall i, j :: 0 <= i < j < |ps| ==> ps[i].chunk < ps[j].chunk
  }

  lemma {:induction false} NotPosted(ps: seq<Posting>, w: real, c: nat)
    requires forall i :: 0 <= i < |ps| ==> ps[i].chunk < c
    ensures !Posted(ps, c) && PostedWeight(ps, w, c) == 0.0
  {
    if ps == [] {
    } else {
      NotPosted(ps[..|ps| - 1], w, c);
    }
  }

  lemma {:induction false} AddPostingsEffect(scores: Scores, w: real, ps: seq<Posting>, c: nat)
    requires OneEntryEach(scores) && InOrder(ps)
    ensures OneEntryEach(AddPostings(scores, w, ps))
    ensures HasScore(AddPostings(scores, w, ps), c) <==> HasScore(scores, c) || Posted(ps, c)
    ensures ScoreOf(AddPostings(scores, w, ps), c) == ScoreOf(scores, c) + PostedWeight(ps, w, c)
    decreases |ps|
  {
    if ps == [] {
    } else {
      var front, last := ps[..|ps| - 1], ps[|ps| - 1];
      AddPostingsEffect(scores, w, front, c);
      assert front + [last] == ps;
      AddPostingsConcat(scores, w, front, [last]);
      var r := AddPostings(scores, w, front);
      assert [last][1..] == [];
      assert AddPostings(r, w, [last]) == AddScore(r, last.chunk, Times(w, last.weight));
      AddScoreEffect(r, last.chunk, Times(w, last.weight));
      if c == last.chunk {
        NotPosted(front, w, c);
      }
    }
  }

  lemma {:induction false} PostingsInOrder(kit: Kit, chunks: seq<Chunk>, t: string, n: nat)
    requires n <= |chunks|
    ensures InOrder(Postings(kit, chunks, t, n))
  {
    if n == 0 {
    } else {
      PostingsInOrder(kit, chunks, t, n - 1);
      var before := Postings(kit, chunks, t, n - 1);
      forall i | 0 <= i < |before|
        ensures before[i].chunk < n - 1
      {
        assert before[i] in before;
      }
    }
  }

  lemma {:induction false} PostingsContribute(kit: Kit, chunks: seq<Chunk>, q: Term, n: nat, c: nat)
    requires n <= |chunks|
    ensures Posted(Postings(kit, chunks, q.token, n), c) <==> c < n && Contains(kit, chunks, c, q.token)
    ensures PostedWeight(Postings(kit, chunks, q.token, n), q.weight, c)
            == if c < n then Contribution(kit, chunks, c, q) else 0.0
  {
    if n == 0 {
    } else {
      PostingsContribute(kit, chunks, q, n - 1, c);
      var before, ps := Postings(kit, chunks, q.token, n - 1), Postings(kit, chunks, q.token, n);
      if Contains(kit, chunks, n - 1, q.token) {
        PostedSnoc(before, Posting(n - 1, Weight(kit, chunks, n - 1, q.token)), q.weight, c);
      } else {
        assert ps == before;
      }
    }
  }

  lemma PostedSnoc(ps: seq<Posting>, p: Posting, w: real, c: nat)
    ensures Posted(ps + [p], c) <==> p.chunk == c || Posted(ps, c)
    ensures PostedWeight(ps + [p], w, c) == if p.chunk == c then Times(w, p.weight) else PostedWeight(ps, w, c)
  {
    assert (ps + [p])[..|ps + [p]| - 1] == ps;
  }

  /**
    The index agrees with brute force: every chunk that shares a token with the query has one
    entry, no other chunk has one, and its score is the direct dot product.
  */
  lemma {:induction false} AccumulatedIsDirect(kit: Kit, chunks: seq<Chunk>, query: seq<Term>, c: nat)
    ensures var scores := Accumulate(kit, chunks, query);
      && OneEntryEach(scores)
      && (HasScore(scores, c) <==> c < |chunks| && exists q :: q in query && Contains(kit, chunks, c, q.token))
      && (c < |chunks| ==> ScoreOf(scores, c) == DirectScore(kit, chunks, c, query))
    decreases |query|
  {
    if query == [] {
    } else {
      var front, last := query[..|query| - 1], query[|query| - 1];
      AccumulatedIsDirect(kit, chunks, front, c);
      PostingsInOrder(kit, chunks, last.token, |chunks|);
      PostingsContribute(kit, chunks, last, |chunks|, c);
      AddPostingsEffect(Accumulate(kit, chunks, front), last.weight, Postings(kit, chunks, last.token, |chunks|), c);
      assert forall q :: q in query <==> q in front || q == last;
    }
  }

  // ---- a whole search --------------------------------------------------------------------------------

  function SumSquares(tokens: seq<string>, keys: seq<string>): real {
    if keys == [] then 0.0
    else
      var v := Count(tokens, keys[|keys| - 1]) as real;
      SumSquares(tokens, keys[..|keys| - 1]) + Times(v, v)
  }

  /** The query vector: counts, divided by their norm if that is positive. */
  function QueryTerm(kit: Kit, tokens: seq<string>, t: string): Term {
    var norm := kit.sqrt(SumSquares(tokens, Distinct(tokens)));
    var v := Count(tokens, t) as real;
    Term(t, if norm > 0.0 then v / norm else v)
  }

  function QueryVector(kit: Kit, tokens: seq<string>): seq<Term> {
    var keys := Distinct(tokens);
    seq(|keys|, i requires 0 <= i < |keys| => QueryTerm(kit, tokens, keys[i]))
  }

  /** The sum of the squared weights. */
  function SquaredNorm(terms: seq<Term>): real {
    if terms == [] then 0.0
    else
      var w := terms[|terms| - 1].weight;
      SquaredNorm(terms[..|terms| - 1]) + Times(w, w)
  }

  /** The terms of a list of tokens, with weights that are counts divided by `norm`. */
  ghost predicate Proportional(tokens: seq<string>, keys: seq<string>, terms: seq<Term>, norm: real) {
    && |terms| == |keys|
    && forall i :: 0 <= i < |keys| ==> IsShare(tokens, keys[i], terms[i], norm)
  }

  ghost predicate IsShare(tokens: seq<string>, key: string, q: Term, norm: real) {
    q.token == key && Times(q.weight, norm) == Count(tokens, key) as real
  }

  lemma {:induction false} NormOfProportional(tokens: seq<string>, keys: seq<string>, terms: seq<Term>, norm: real)
    requires Proportional(tokens, keys, terms, norm)
    ensures Times(SquaredNorm(terms), Times(norm, norm)) == SumSquares(tokens, keys)
  {
    if keys == [] {
      NoShare(norm, Times(norm, norm));
    } else {
      var n := |keys| - 1;
      NormOfProportional(tokens, keys[..n], terms[..n], norm);
      assert IsShare(tokens, keys[n], terms[n], norm);
      OneMoreTerm(tokens, keys, terms, norm);
    }
  }

  lemma OneMoreTerm(tokens: seq<string>, keys: seq<string>, terms: seq<Term>, norm: real)
    requires keys != [] && |terms| == |keys| && IsShare(tokens, keys[|keys| - 1], terms[|keys| - 1], norm)
    requires Times(SquaredNorm(terms[..|keys| - 1]), Times(norm, norm)) == SumSquares(tokens, keys[..|keys| - 1])
    ensures Times(SquaredNorm(terms), Times(norm, norm)) == SumSquares(tokens, keys)
  {
    hide Times;
    var n := |keys| - 1;
    OneMoreSquare(SquaredNorm(terms[..n]), SumSquares(tokens, keys[..n]), terms[n].weight,
                  Count(tokens, keys[n]) as real, norm);
  }

  lemma OneMoreSquare(squares: real, sum: real, w: real, v: real, norm: real)
    requires Times(squares, Times(norm, norm)) == sum && Times(w, norm) == v
    ensures Times(squares + Times(w, w), Times(norm, norm)) == sum + Times(v, v)
  {
    assert (w * w) * (norm * norm) == (w * norm) * (w * norm);
    assert (squares + w * w) * (norm * norm) == squares * (norm * norm) + (w * w) * (norm * norm);
  }

  /**
    The vector of a query with tokens has length one, if `sqrt` is a square root; it has one term
    per different token, in the order of first occurrences, with weights proportional to the counts.
  */
  lemma QueryVectorIsUnit(kit: Kit, tokens: seq<string>)
    requires tokens != [] && SquareRoot(kit)
    ensures var vector := QueryVector(kit, tokens);
      && SquaredNorm(vector) == 1.0
      && (exists norm :: norm > 0.0 && Counts(tokens, vector, norm))
      && (forall i, j :: 0 <= i < j < |vector| ==> FirstBefore(tokens, vector[i].token, vector[j].token))
  {
    var keys, vector := Distinct(tokens), QueryVector(kit, tokens);
    var norm := kit.sqrt(SumSquares(tokens, keys));
    SomethingToSum(tokens);
    VectorProportional(kit, tokens);
    NormOfProportional(tokens, keys, vector, norm);
    OnlyOne(SquaredNorm(vector), Times(norm, norm));
    VectorCounts(tokens, vector, norm);
    DistinctInOrder(tokens);
  }

  ghost predicate SquareRoot(kit: Kit) {
    forall x :: x > 0.0 ==> kit.sqrt(x) > 0.0 && Times(kit.sqrt(x), kit.sqrt(x)) == x
  }

  /** The terms are the tokens, each once, with weights proportional to how often they occur. */
  ghost predicate Counts(tokens: seq<string>, terms: seq<Term>, norm: real) {
    && (forall q :: q in terms ==> Times(q.weight, norm) == multiset(tokens)[q.token] as real)
    && (forall t :: t in tokens <==> exists i :: 0 <= i < |terms| && terms[i].token == t)
    && (forall i, j :: 0 <= i < j < |terms| ==> terms[i].token != terms[j].token)
  }

  lemma VectorProportional(kit: Kit, tokens: seq<string>)
    requires kit.sqrt(SumSquares(tokens, Distinct(tokens))) > 0.0
    ensures Proportional(tokens, Distinct(tokens), QueryVector(kit, tokens),
                         kit.sqrt(SumSquares(tokens, Distinct(tokens))))
  {
    var keys, vector := Distinct(tokens), QueryVector(kit, tokens);
    var norm := kit.sqrt(SumSquares(tokens, keys));
    forall i | 0 <= i < |keys|
      ensures IsShare(tokens, keys[i], vector[i], norm)
    {
      Scaled(Count(tokens, keys[i]) as real, norm);
    }
  }

  lemma VectorCounts(tokens: seq<string>, vector: seq<Term>, norm: real)
    requires Proportional(tokens, Distinct(tokens), vector, norm)
    ensures Counts(tokens, vector, norm)
  {
    var keys := Distinct(tokens);
    DistinctNoDup(tokens);
    forall q | q in vector
      ensures Times(q.weight, norm) == multiset(tokens)[q.token] as real
    {
      var i :| 0 <= i < |vector| && vector[i] == q;
      assert IsShare(tokens, keys[i], vector[i], norm);
      CountIsMultiplicity(tokens, q.token);
    }
    assert forall i :: 0 <= i < |keys| ==> IsShare(tokens, keys[i], vector[i], norm) && vector[i].token == keys[i];
    forall t
      ensures t in tokens <==> exists i :: 0 <= i < |vector| && vector[i].token == t
    {
      if t in keys {
        var i :| 0 <= i < |keys| && keys[i] == t;
        assert vector[i].token == t;
      }
    }
  }

  lemma Scaled(v: real, norm: real)
    requires norm > 0.0
    ensures Times(v / norm, norm) == v
  {
  }

  lemma OnlyOne(x: real, sum: real)
    requires sum > 0.0 && Times(x, sum) == sum
    ensures x == 1.0
  {
    assert x == x * sum / sum;
  }

  lemma {:induction false} SumNotNegative(tokens: seq<string>, keys: seq<string>)
    ensures SumSquares(tokens, keys) >= 0.0
    ensures keys != [] && Count(tokens, keys[|keys| - 1]) > 0 ==> SumSquares(tokens, keys) > 0.0
  {
    if keys == [] {
    } else {
      SumNotNegative(tokens, keys[..|keys| - 1]);
      var v := Count(tokens, keys[|keys| - 1]) as real;
      ProductSign(v, v);
    }
  }

  lemma ProductSign(a: real, b: real)
    requires a >= 0.0 && b >= 0.0
    ensures Times(a, b) >= 0.0 && (a > 0.0 && b > 0.0 ==> Times(a, b) > 0.0)
  {
    if a > 0.0 && b > 0.0 {
      assert a * b > 0.0;
    }
  }

  lemma SomethingToSum(tokens: seq<string>)
    requires tokens != []
    ensures SumSquares(tokens, Distinct(tokens)) > 0.0
  {
    var keys := Distinct(tokens);
    assert tokens[0] in keys;
    var last := keys[|keys| - 1];
    assert last in tokens;
    CountIsMultiplicity(tokens, last);
    SumNotNegative(tokens, keys);
  }

  /** `a` occurs in `tokens`, before any occurrence of `b`. */
  ghost predicate FirstBefore(tokens: seq<string>, a: string, b: string) {
    exists k :: 0 <= k < |tokens| && tokens[k] == a && b !in tokens[..k + 1]
  }

  lemma {:induction false} DistinctInOrder(tokens: seq<string>)
    ensures forall i, j :: 0 <= i < j < |Distinct(tokens)| ==>
              FirstBefore(tokens, Distinct(tokens)[i], Distinct(tokens)[j])
  {
    if tokens == [] {
    } else {
      var n := |tokens| - 1;
      var before, r := Distinct(tokens[..n]), Distinct(tokens);
      DistinctInOrder(tokens[..n]);
      forall i, j | 0 <= i < j < |r|
        ensures FirstBefore(tokens, r[i], r[j])
      {
        if j < |before| {
          FirstBeforeSnoc(tokens, r[i], r[j]);
        } else {
          assert r[i] in tokens[..n];
          var k :| 0 <= k < n && tokens[..n][k] == r[i];
          assert tokens[k] == r[i] && forall m :: 0 <= m < k + 1 ==> tokens[m] in tokens[..n];
        }
      }
    }
  }

  lemma FirstBeforeSnoc(tokens: seq<string>, a: string, b: string)
    requires tokens != [] && FirstBefore(tokens[..|tokens| - 1], a, b)
    ensures FirstBefore(tokens, a, b)
  {
    var front := tokens[..|tokens| - 1];
    var k :| 0 <= k < |front| && front[k] == a && b !in front[..k + 1];
    assert tokens[k] == a && tokens[..k + 1] == front[..k + 1];
  }

  /** The hits of the exact text search, in chunk order. */
  function TextHits(kit: Kit, chunks: seq<Chunk>, query: string, n: nat): (r: Scores)
    requires n <= |chunks|
    ensures forall h :: h in r ==> h.item < n
  {
    if n == 0 then []
    else
      var k := kit.occurrences(query, chunks[n - 1].content);
      TextHits(kit, chunks, query, n - 1) +
      if k > 0 then [Scored(n - 1, if k as real / 10.0 < 1.0 then k as real / 10.0 else 1.0)] else []
  }

  /** A tenth for each occurrence of the query, but no more than 1. */
  ghost predicate TextScore(kit: Kit, chunks: seq<Chunk>, query: string, h: Scored<nat>) {
    && h.item < |chunks|
    && var k := kit.occurrences(query, chunks[h.item].content);
       k > 0 && 10.0 * h.score == if k < 10 then k as real else 10.0
  }

  /** A chunk is a hit exactly if it contains the query; the hits are listed in chunk order. */
  lemma {:induction false} TextHitsExact(kit: Kit, chunks: seq<Chunk>, query: string, n: nat, c: nat)
    requires n <= |chunks|
    ensures var hits := TextHits(kit, chunks, query, n);
      && (forall i, j :: 0 <= i < j < |hits| ==> hits[i].item < hits[j].item)
      && (HasScore(hits, c) <==> c < n && kit.occurrences(query, chunks[c].content) > 0)
      && (forall h :: h in hits ==> TextScore(kit, chunks, query, h))
  {
    if n == 0 {
    } else {
      TextHitsExact(kit, chunks, query, n - 1, c);
      var before, k := TextHits(kit, chunks, query, n - 1), kit.occurrences(query, chunks[n - 1].content);
      if k > 0 {
        var h := Scored(n - 1, if k as real / 10.0 < 1.0 then k as real / 10.0 else 1.0);
        assert TextScore(kit, chunks, query, h) && TextHits(kit, chunks, query, n) == before + [h];
        HitsSnoc(before, h, c);
      } else {
        assert TextHits(kit, chunks, query, n) == before;
      }
    }
  }

  lemma HitsSnoc(hits: Scores, h: Scored<nat>, c: nat)
    requires forall i, j :: 0 <= i < j < |hits| ==> hits[i].item < hits[j].item
    requires forall g :: g in hits ==> g.item < h.item
    ensures forall i, j :: 0 <= i < j < |hits + [h]| ==> (hits + [h])[i].item < (hits + [h])[j].item
    ensures HasScore(hits + [h], c) <==> HasScore(hits, c) || c == h.item
  {
    assert (hits + [h])[|hits|] == h;
    assert forall i :: 0 <= i < |hits| ==> (hits + [h])[i] == hits[i] && hits[i] in hits;
  }

  /** The whole ranking of a query, before slicing: text hits if there are any, semantic scores otherwise. */
  function Ranking(kit: Kit, chunks: seq<Chunk>, query: string): Scores {
    var hits := TextHits(kit, chunks, query, |chunks|);
    SortDescending(if hits != [] then hits else Accumulate(kit, chunks, QueryVector(kit, kit.tokenize(query))))
  }

  /** A query without text hits and without tokens is answered but not cached. */
  predicate Cacheable(kit: Kit, chunks: seq<Chunk>, query: string) {
    TextHits(kit, chunks, query, |chunks|) != [] || kit.tokenize(query) != []
  }

  /** What a search answers without the cache. */
  function Fresh(kit: Kit, chunks: seq<Chunk>, query: string, topK: int): Scores {
    Take(Ranking(kit, chunks, query), topK)
  }

  lemma NoTokensNoRanking(kit: Kit, chunks: seq<Chunk>, query: string)
    requires !Cacheable(kit, chunks, query)
    ensures Ranking(kit, chunks, query) == []
  {
  }

  /**
    A semantic answer is a top-k list by brute force: each listed chunk carries its direct score,
    and no chunk that shares a token with the query and is left out scores higher.
  */
  lemma SemanticAnswerIsTopK(kit: Kit, chunks: seq<Chunk>, query: string, topK: int, i: nat, c: nat)
    requires forall d :: 0 <= d < |chunks| ==> kit.occurrences(query, chunks[d].content) == 0
    requires i < |Fresh(kit, chunks, query, topK)| && c < |chunks|
    ensures var answer, vector := Fresh(kit, chunks, query, topK), QueryVector(kit, kit.tokenize(query));
      && answer[i].item < |chunks|
      && answer[i].score == DirectScore(kit, chunks, answer[i].item, vector)
      && (!HasScore(answer, c) && (exists q :: q in vector && Contains(kit, chunks, c, q.token))
          ==> DirectScore(kit, chunks, c, vector) <= answer[i].score)
  {
    NoTextHits(kit, chunks, query);
    var vector := QueryVector(kit, kit.tokenize(query));
    var scores := Accumulate(kit, chunks, vector);
    var answer := Fresh(kit, chunks, query, topK);
    ListedIsScored(scores, topK, i);
    EntryIsScore(kit, chunks, vector, answer[i]);
    if !HasScore(answer, c) && exists q :: q in vector && Contains(kit, chunks, c, q.token) {
      AccumulatedIsDirect(kit, chunks, vector, c);
      LeftOutScoresLower(scores, topK, i, c);
      var k :| 0 <= k < |scores| && scores[k].item == c && scores[k].score <= answer[i].score;
      EntryIsScore(kit, chunks, vector, scores[k]);
    }
  }

  lemma NoTextHits(kit: Kit, chunks: seq<Chunk>, query: string)
    requires forall d :: 0 <= d < |chunks| ==> kit.occurrences(query, chunks[d].content) == 0
    ensures TextHits(kit, chunks, query, |chunks|) == []
  {
    var hits := TextHits(kit, chunks, query, |chunks|);
    if hits != [] {
      assert HasScore(hits, hits[0].item);
      TextHitsExact(kit, chunks, query, |chunks|, hits[0].item);
      assert false;
    }
  }

  /**
    As soon as some chunk contains the query, the answer is a top-k list of the chunks that do:
    each listed chunk has its score, and no hit that is left out scores higher.
  */
  lemma TextAnswerIsTopK(kit: Kit, chunks: seq<Chunk>, query: string, topK: int, i: nat, c: nat, left: real)
    requires exists d :: 0 <= d < |chunks| && kit.occurrences(query, chunks[d].content) > 0
    requires i < |Fresh(kit, chunks, query, topK)|
    ensures var answer := Fresh(kit, chunks, query, topK);
      && TextScore(kit, chunks, query, answer[i])
      && (TextScore(kit, chunks, query, Scored(c, left)) && !HasScore(answer, c) ==> left <= answer[i].score)
  {
    var hits, answer := TextHits(kit, chunks, query, |chunks|), Fresh(kit, chunks, query, topK);
    var d :| 0 <= d < |chunks| && kit.occurrences(query, chunks[d].content) > 0;
    TextHitsExact(kit, chunks, query, |chunks|, d);
    assert hits != [];
    ListedIsScored(hits, topK, i);
    if TextScore(kit, chunks, query, Scored(c, left)) && !HasScore(answer, c) {
      TextHitsExact(kit, chunks, query, |chunks|, c);
      LeftOutScoresLower(hits, topK, i, c);
      var k :| 0 <= k < |hits| && hits[k].item == c && hits[k].score <= answer[i].score;
      assert hits[k] in hits;
    }
  }

  lemma ListedIsScored(scores: Scores, topK: int, i: nat)
    requires i < |Take(SortDescending(scores), topK)|
    ensures Take(SortDescending(scores), topK)[i] in scores
  {
    var ranked := SortDescending(scores);
    SortSorts(scores);
    TakeIsPrefix(ranked, topK);
    assert ranked[i] in multiset(ranked) && ranked[i] in multiset(scores);
  }

  lemma LeftOutScoresLower(scores: Scores, topK: int, i: nat, c: nat)
    requires HasScore(scores, c) && i < |Take(SortDescending(scores), topK)|
    requires !HasScore(Take(SortDescending(scores), topK), c)
    ensures exists k :: 0 <= k < |scores| && scores[k].item == c
              && scores[k].score <= Take(SortDescending(scores), topK)[i].score
  {
    var ranked := SortDescending(scores);
    SortSorts(scores);
    var answer := Take(ranked, topK);
    var k :| 0 <= k < |scores| && scores[k].item == c;
    assert scores[k] in multiset(scores) && scores[k] in multiset(ranked);
    var j :| 0 <= j < |ranked| && ranked[j] == scores[k];
    TakeIsPrefix(ranked, topK);
    assert forall m :: 0 <= m < |answer| ==> answer[m] == ranked[m] && answer[m].item != c;
  }

  lemma EntryIsScore(kit: Kit, chunks: seq<Chunk>, vector: seq<Term>, e: Scored<nat>)
    requires e in Accumulate(kit, chunks, vector)
    ensures e.item < |chunks| && e.score == DirectScore(kit, chunks, e.item, vector)
  {
    var scores := Accumulate(kit, chunks, vector);
    AccumulatedIsDirect(kit, chunks, vector, e.item);
    var k :| 0 <= k < |scores| && scores[k] == e;
    assert HasScore(scores, e.item);
    ScoreAt(scores, k);
  }

  lemma {:induction false} ScoreAt(scores: Scores, k: nat)
    requires OneEntryEach(scores) && k < |scores|
    ensures ScoreOf(scores, scores[k].item) == scores[k].score
  {
    if k == 0 {
    } else {
      ScoreAt(scores[1..], k - 1);
    }
  }

  // ---- the cache -----------------------------------------------------------------------------------

  /** An answer cached at one bound and sliced at another is a prefix of the fresh answer. */
  lemma CachedIsPrefix(kit: Kit, chunks: seq<Chunk>, query: string, cachedAt: int, topK: int)
    ensures Take(Fresh(kit, chunks, query, cachedAt), topK) <= Fresh(kit, chunks, query, topK)
  {
    SliceOfSliceIsPrefix(Ranking(kit, chunks, query), cachedAt, topK);
  }

  /**
    It is the fresh answer exactly if the cached one is the whole ranking, or holds at least the
    number asked for, or a negative bound leaves nothing of the ranking.
  */
  lemma CachedIsFreshIff(kit: Kit, chunks: seq<Chunk>, query: string, cachedAt: int, topK: int)
    ensures var cached, ranking := Fresh(kit, chunks, query, cachedAt), Ranking(kit, chunks, query);
      Take(cached, topK) == Fresh(kit, chunks, query, topK) <==>
        cached == ranking || (if topK >= 0 then topK <= |cached| else |ranking| + topK <= 0)
  {
    SliceOfSliceIff(Ranking(kit, chunks, query), cachedAt, topK);
  }

  // ---- the class -------------------------------------------------------------------------------------

  function Frequency(docFreq: map<string, nat>, t: string): nat {
    if t in docFreq then docFreq[t] else 0
  }

  lemma CountNext(tokens: seq<string>, j: nat, t: string)
    requires j < |tokens|
    ensures Count(tokens[..j + 1], t) == Count(tokens[..j], t) + if tokens[j] == t then 1 else 0
  {
    assert tokens[..j + 1][..j] == tokens[..j];
  }

  lemma DocFreqNext(kit: Kit, chunks: seq<Chunk>, i: nat, t: string)
    requires i < |chunks|
    ensures DocFreq(kit, chunks[..i + 1], t) == DocFreq(kit, chunks[..i], t) + Count(kit.tokenize(chunks[i].content), t)
  {
    assert chunks[..i + 1][..i] == chunks[..i];
  }

  lemma {:induction false} DistinctNoDup(tokens: seq<string>)
    ensures forall i, j :: 0 <= i < j < |Distinct(tokens)| ==> Distinct(tokens)[i] != Distinct(tokens)[j]
  {
    if tokens == [] {
    } else {
      DistinctNoDup(tokens[..|tokens| - 1]);
    }
  }

  /** The posting lists of `after` for the tokens in `done`, those of `before` for all others. */
  ghost predicate Between(index: Index, done: seq<string>, before: string -> seq<Posting>,
                          after: string -> seq<Posting>)
  {
    && (forall t :: t in index ==> index[t] != [])
    && (forall t :: Lookup(index, t) == if t in done then after(t) else before(t))
  }

  function PostingsOf(kit: Kit, chunks: seq<Chunk>, n: nat): string -> seq<Posting>
    requires n <= |chunks|
  {
    t => Postings(kit, chunks, t, n)
  }

  /** The second pass at chunk `i`, with the tokens in `done` already posted for it. */
  ghost predicate PartialIndex(kit: Kit, chunks: seq<Chunk>, index: Index, i: nat, done: seq<string>)
    requires i < |chunks|
  {
    Between(index, done, PostingsOf(kit, chunks, i), PostingsOf(kit, chunks, i + 1))
  }

  ghost predicate IndexUpTo(kit: Kit, chunks: seq<Chunk>, index: Index, i: nat)
    requires i <= |chunks|
  {
    && (forall t :: t in index ==> index[t] != [])
    && (forall t :: Lookup(index, t) == Postings(kit, chunks, t, i))
  }

  lemma PostingsNext(kit: Kit, chunks: seq<Chunk>, t: string, i: nat)
    requires i < |chunks| && Contains(kit, chunks, i, t)
    ensures Postings(kit, chunks, t, i + 1) == Postings(kit, chunks, t, i) + [Posting(i, Weight(kit, chunks, i, t))]
  {
  }

  lemma LookupUpdated(index: Index, t: string, ps: seq<Posting>, u: string)
    ensures Lookup(index[t := ps], u) == if u == t then ps else Lookup(index, u)
  {
    if u != t {
      assert u in index[t := ps] <==> u in index;
    }
  }

  lemma PostToken(index: Index, done: seq<string>, before: string -> seq<Posting>, after: string -> seq<Posting>,
                  t: string, p: Posting)
    requires Between(index, done, before, after) && t !in done && after(t) == before(t) + [p]
    ensures Between(index[t := Lookup(index, t) + [p]], done + [t], before, after)
  {
    var index' := index[t := Lookup(index, t) + [p]];
    forall u
      ensures Lookup(index', u) == if u in done + [t] then after(u) else before(u)
    {
      LookupUpdated(index, t, Lookup(index, t) + [p], u);
    }
  }

  lemma ChunkPosted(kit: Kit, chunks: seq<Chunk>, index: Index, i: nat, done: seq<string>)
    requires i < |chunks| && PartialIndex(kit, chunks, index, i, done)
    requires forall t :: t in done <==> Contains(kit, chunks, i, t)
    ensures IndexUpTo(kit, chunks, index, i + 1)
  {
    forall t
      ensures Lookup(index, t) == Postings(kit, chunks, t, i + 1)
    {
      if t !in done {
        assert Postings(kit, chunks, t, i + 1) == Postings(kit, chunks, t, i) + [];
      }
    }
  }

  class SemanticSearch {
    const kit: Kit
    var chunks: seq<Chunk>
    var invertedIndex: Index
    var docFreq: map<string, nat>
    var searchCache: map<string, Scores>
    ghost var cachedAt: map<string, int>  // the bound each answer was cached at

    ghost predicate Indexed()
      reads this
    {
      IndexOf(kit, chunks, invertedIndex) && DocFreqOf(kit, chunks, docFreq)
    }

    ghost predicate Valid()
      reads this
    {
      && Indexed() && searchCache.Keys == cachedAt.Keys
      && forall q :: q in searchCache ==> searchCache[q] == Fresh(kit, chunks, q, cachedAt[q])
    }

    constructor (kit: Kit)
      ensures Valid() && this.kit == kit && chunks == [] && searchCache == map[]
    {
      this.kit := kit;
      chunks, invertedIndex, docFreq, searchCache, cachedAt := [], map[], map[], map[], map[];
    }

    method Index(newChunks: seq<Chunk>)
      modifies this
      ensures Valid() && chunks == newChunks && searchCache == map[]
    {
      chunks := newChunks;
      searchCache, cachedAt := map[], map[];
      docFreq := CountDocuments(newChunks);
      invertedIndex := PostAll(newChunks, docFreq);
    }

    /** First pass. */
    method CountDocuments(chunks: seq<Chunk>) returns (docFreq: map<string, nat>)
      ensures DocFreqOf(kit, chunks, docFreq)
    {
      docFreq := map[];
      for i := 0 to |chunks|
        invariant forall t :: Frequency(docFreq, t) == DocFreq(kit, chunks[..i], t)
      {
        var tokens := kit.tokenize(chunks[i].content);
        ghost var before := docFreq;
        for j := 0 to |tokens|
          invariant forall t :: Frequency(docFreq, t) == Frequency(before, t) + Count(tokens[..j], t)
        {
          ghost var previous := docFreq;
          docFreq := docFreq[tokens[j] := Frequency(docFreq, tokens[j]) + 1];
          forall t
            ensures Frequency(docFreq, t) == Frequency(before, t) + Count(tokens[..j + 1], t)
          {
            CountNext(tokens, j, t);
          }
        }
        assert tokens[..|tokens|] == tokens;
        forall t
          ensures Frequency(docFreq, t) == DocFreq(kit, chunks[..i + 1], t)
        {
          DocFreqNext(kit, chunks, i, t);
        }
      }
      assert chunks[..|chunks|] == chunks;
    }

    /** Second pass. */
    method PostAll(chunks: seq<Chunk>, docFreq: map<string, nat>) returns (index: map<string, seq<Posting>>)
      requires DocFreqOf(kit, chunks, docFreq)
      ensures IndexOf(kit, chunks, index)
    {
      index := map[];
      for i := 0 to |chunks|
        invariant IndexUpTo(kit, chunks, index, i)
      {
        index := PostChunk(chunks, docFreq, index, i);
      }
    }

    /** The second pass at one chunk. */
    method PostChunk(chunks: seq<Chunk>, docFreq: map<string, nat>, before: map<string, seq<Posting>>, i: nat)
      returns (index: map<string, seq<Posting>>)
      requires DocFreqOf(kit, chunks, docFreq) && i < |chunks| && IndexUpTo(kit, chunks, before, i)
      ensures IndexUpTo(kit, chunks, index, i + 1)
    {
      hide Times, Share, Idf;
      index := before;
      var tokens := kit.tokenize(chunks[i].content);
      var keys := Distinct(tokens);
      DistinctNoDup(tokens);
      for j := 0 to |keys|
        invariant PartialIndex(kit, chunks, index, i, keys[..j])
      {
        var token := keys[j];
        var tfidf := Times(Share(tokens, token), Idf(kit, |chunks|, Frequency(docFreq, token)));
        assert tfidf == Weight(kit, chunks, i, token);
        assert token !in keys[..j] && token in keys && keys[..j + 1] == keys[..j] + [token];
        PostingsNext(kit, chunks, token, i);
        PostToken(index, keys[..j], PostingsOf(kit, chunks, i), PostingsOf(kit, chunks, i + 1),
                  token, Posting(i, tfidf));
        index := index[token := Lookup(index, token) + [Posting(i, tfidf)]];
      }
      assert keys[..|keys|] == keys;
      ChunkPosted(kit, chunks, index, i, keys);
    }

    method AddChunk(chunk: Chunk)
      modifies this
      ensures Valid() && chunks == old(chunks) + [chunk] && searchCache == map[]
    {
      Index(chunks + [chunk]);
    }

    method RemoveChunksForFile(file: string)
      modifies this
      ensures Valid() && chunks == Others(old(chunks), file) && searchCache == map[]
    {
      Index(Others(chunks, file));
    }

    /**
      A cached answer, sliced, or the fresh answer, which is then cached unless the query has no
      tokens and no hits.
    */
    method Search(query: string, topK: int) returns (results: Scores)
      requires Valid()
      modifies this`searchCache, this`cachedAt
      ensures Valid()
      ensures query in old(searchCache) ==>
                results == Take(old(searchCache[query]), topK) && searchCache == old(searchCache)
      ensures query !in old(searchCache) ==>
                results == Fresh(kit, chunks, query, topK)
                && searchCache ==
                  (if Cacheable(kit, chunks, query) then old(searchCache)[query := results] else old(searchCache))
    {
      if query in searchCache {
        return Take(searchCache[query], topK);
      }
      var hits := ExactTextHits(query);
      if hits != [] {
        results := Take(SortDescending(hits), topK);
        searchCache, cachedAt := searchCache[query := results], cachedAt[query := topK];
        return;
      }
      var tokens := kit.tokenize(query);
      if tokens == [] {
        NoTokensNoRanking(kit, chunks, query);
        return [];
      }
      var vector := QueryVector(kit, tokens);
      var chunkScores := ScoreChunks(vector);
      results := Take(SortDescending(chunkScores), topK);
      searchCache, cachedAt := searchCache[query := results], cachedAt[query := topK];
    }

    method ExactTextHits(query: string) returns (hits: Scores)
      ensures hits == TextHits(kit, chunks, query, |chunks|)
    {
      hits := [];
      for i := 0 to |chunks|
        invariant hits == TextHits(kit, chunks, query, i)
      {
        var matches := kit.occurrences(query, chunks[i].content);
        if matches > 0 {
          var score := if matches as real / 10.0 < 1.0 then matches as real / 10.0 else 1.0;
          hits := hits + [Scored(i, score)];
        }
      }
    }

    /** Accumulation over the inverted index. */
    method ScoreChunks(vector: seq<Term>) returns (chunkScores: Scores)
      requires Indexed()
      ensures chunkScores == Accumulate(kit, chunks, vector)
    {
      chunkScores := [];
      for i := 0 to |vector|
        invariant chunkScores == Accumulate(kit, chunks, vector[..i])
      {
        var q := vector[i];
        ghost var before := chunkScores;
        assert vector[..i + 1][..i] == vector[..i];
        if q.token in invertedIndex {
          var ps := invertedIndex[q.token];
          assert ps == Lookup(invertedIndex, q.token) && ps[0..] == ps;
          for j := 0 to |ps|
            invariant AddPostings(before, q.weight, ps) == AddPostings(chunkScores, q.weight, ps[j..])
          {
            assert ps[j..][1..] == ps[j + 1..];
            chunkScores := AddScore(chunkScores, ps[j].chunk, Times(q.weight, ps[j].weight));
          }
        } else {
          assert Lookup(invertedIndex, q.token) == [];
        }
      }
      assert vector[..|vector|] == vector;
    }
  }

  function Others(chunks: seq<Chunk>, file: string): seq<Chunk> {
    if chunks == [] then []
    else Others(chunks[..|chunks| - 1], file) + if chunks[|chunks| - 1].file != file then [chunks[|chunks| - 1]] else []
  }

  /** Exactly the chunks of other files stay, as often as before ... */
  lemma {:induction false} OthersExact(chunks: seq<Chunk>, file: string, c: Chunk)
    ensures multiset(Others(chunks, file))[c] == if c.file != file then multiset(chunks)[c] else 0
  {
    if chunks == [] {
    } else {
      var front, last := chunks[..|chunks| - 1], chunks[|chunks| - 1];
      OthersExact(front, file, c);
      assert chunks == front + [last];
    }
  }

  /** ... and in their order. */
  lemma {:induction false} OthersConcat(a: seq<Chunk>, b: seq<Chunk>, file: string)
    ensures Others(a + b, file) == Others(a, file) + Others(b, file)
  {
    if b == [] {
      assert a + b == a;
    } else {
      var front, last := b[..|b| - 1], b[|b| - 1];
      OthersConcat(a, front, file);
      assert (a + b)[..|a + b| - 1] == a + front;
    }
  }
}
