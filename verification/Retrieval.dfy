/** `Retriever.retrieve` (rag/retriever.py) after the index search: filtering, ranking and the fallback. */
module Retrieval {
  import opened Prelude

  /** One answer of the index: -1 stands for "no neighbour". */
  datatype Hit = Hit(index: int, score: real)

  datatype Candidate = Candidate(index: nat, score: real, vectorScore: real)

  const ABS_MIN_SCORE := 0.10
  const REL_SCORE_DROP := 0.4
  const FALLBACK_TOP_K := 5

  predicate ValidHits(hits: seq<Hit>, chunks: nat) {
    forall i :: 0 <= i < |hits| ==> -1 <= hits[i].index < chunks
  }

  /** The hit is close enough, or shares a term with the query. */
  predicate Kept(h: Hit, best: real, lexical: nat -> real) {
    h.index >= 0
    && !(h.score < ABS_MIN_SCORE && lexical(h.index) == 0.0)
    && !(h.score < best * REL_SCORE_DROP && lexical(h.index) == 0.0)
  }

  function Candidates(hits: seq<Hit>, best: real, lexical: nat -> real): (r: seq<Candidate>)
    ensures |r| <= |hits|
  {
    if hits == [] then []
    else
      var h := hits[|hits| - 1];
      Candidates(hits[..|hits| - 1], best, lexical)
      + if Kept(h, best, lexical) then [Candidate(h.index, h.score + lexical(h.index), h.score)] else []
  }

  /** The candidates are the neighbours that share a term with the query, whatever their distance, and
      those of the others that are close enough, absolutely and against the nearest; the lexical score is
      added to the rank and not to the reported distance. */
  lemma {:induction false} CandidateIff(hits: seq<Hit>, best: real, lexical: nat -> real, c: Candidate)
    ensures c in Candidates(hits, best, lexical) <==>
      exists h :: h in hits && h.index == c.index && h.score == c.vectorScore && c.score == c.vectorScore + lexical(c.index)
        && (lexical(c.index) != 0.0 || (c.vectorScore >= ABS_MIN_SCORE && c.vectorScore >= best * REL_SCORE_DROP))
  {
    if hits != [] {
      var init, last := hits[..|hits| - 1], hits[|hits| - 1];
      assert hits == init + [last];
      CandidateIff(init, best, lexical, c);
      assert forall h :: h in hits <==> h in init || h == last;
    }
  }

  /** The candidates are those neighbours in the order of the index, one each. */
  lemma {:induction false} CandidatesAre(hits: seq<Hit>, best: real, lexical: nat -> real)
    ensures var found := Filter(hits, Passes(best, lexical));
      var candidates := Candidates(hits, best, lexical);
      |candidates| == |found|
      && forall i :: 0 <= i < |found| ==>
           candidates[i].index == found[i].index && candidates[i].vectorScore == found[i].score
           && candidates[i].score == candidates[i].vectorScore + lexical(candidates[i].index)
  {
    if hits != [] {
      var init, last := hits[..|hits| - 1], hits[|hits| - 1];
      assert hits == init + [last];
      CandidatesAre(init, best, lexical);
      FilterAppend(init, [last], Passes(best, lexical));
      assert [last][1..] == [];
    }
  }

  /** A term is shared, or the hit is close enough. */
  function Passes(best: real, lexical: nat -> real): Hit -> bool {
    (h: Hit) => h.index >= 0
      && (lexical(h.index) != 0.0 || (h.score >= ABS_MIN_SCORE && h.score >= best * REL_SCORE_DROP))
  }

  predicate IsNeighbour(h: Hit) {
    h.index >= 0
  }

  /** When nothing passes, the neighbours come back as the index ranked them, with their plain scores. */
  lemma {:induction false} FallbacksAre(hits: seq<Hit>)
    ensures var found := Filter(hits, IsNeighbour);
      |Fallbacks(hits)| == |found|
      && forall i :: 0 <= i < |found| ==>
           Fallbacks(hits)[i].index == found[i].index && Fallbacks(hits)[i].score == found[i].score == Fallbacks(hits)[i].vectorScore
  {
    if hits != [] {
      var init, last := hits[..|hits| - 1], hits[|hits| - 1];
      assert hits == init + [last];
      FallbacksAre(init);
      FilterAppend(init, [last], IsNeighbour);
      assert [last][1..] == [];
    }
  }

  function Fallbacks(hits: seq<Hit>): (r: seq<Candidate>)
    ensures |r| <= |hits|
  {
    if hits == [] then []
    else
      var h := hits[|hits| - 1];
      Fallbacks(hits[..|hits| - 1]) + if h.index >= 0 then [Candidate(h.index, h.score, h.score)] else []
  }

  /** Stable insertion before the first strictly smaller score. */
  function Insert(c: Candidate, s: seq<Candidate>): seq<Candidate> {
    if s == [] || s[0].score < c.score then [c] + s else [s[0]] + Insert(c, s[1..])
  }

  /** `candidates.sort(key=score, reverse=True)`. */
  function SortDescending(s: seq<Candidate>): (r: seq<Candidate>)
    ensures |r| == |s|
  {
    if s == [] then []
    else
      InsertLength(s[|s| - 1], SortDescending(s[..|s| - 1]));
      Insert(s[|s| - 1], SortDescending(s[..|s| - 1]))
  }

  lemma InsertLength(c: Candidate, s: seq<Candidate>)
    ensures |Insert(c, s)| == |s| + 1
  {
  }

  predicate Descending(s: seq<Candidate>) {
    forall i, j :: 0 <= i < j < |s| ==> s[i].score >= s[j].score
  }

  lemma DescendingCons(x: Candidate, s: seq<Candidate>)
    requires Descending(s) && forall c :: c in s ==> x.score >= c.score
    ensures Descending([x] + s)
  {
  }

  lemma {:induction false} InsertKeeps(c: Candidate, s: seq<Candidate>)
    requires Descending(s)
    ensures Descending(Insert(c, s)) && multiset(Insert(c, s)) == multiset(s) + multiset{c}
  {
    if s == [] || s[0].score < c.score {
      DescendingCons(c, s);
    } else {
      var t := Insert(c, s[1..]);
      InsertKeeps(c, s[1..]);
      assert s == [s[0]] + s[1..];
      forall d | d in t
        ensures s[0].score >= d.score
      {
        assert d in multiset(t);
      }
      DescendingCons(s[0], t);
    }
  }

  /** Sorting permutes and orders. */
  lemma {:induction false} SortIsRanking(s: seq<Candidate>)
    ensures Descending(SortDescending(s)) && multiset(SortDescending(s)) == multiset(s)
  {
    if s != [] {
      var init, last := s[..|s| - 1], s[|s| - 1];
      SortIsRanking(init);
      InsertKeeps(last, SortDescending(init));
      assert s == init + [last];
    }
  }

  function HasScore(x: real): Candidate -> bool {
    (c: Candidate) => c.score == x
  }

  lemma FilterCons(c: Candidate, s: seq<Candidate>, p: Candidate -> bool)
    ensures Filter([c] + s, p) == (if p(c) then [c] else []) + Filter(s, p)
  {
    assert ([c] + s)[1..] == s;
  }

  /** A candidate is inserted behind those of its own score. */
  lemma {:induction false} InsertStable(c: Candidate, s: seq<Candidate>, x: real)
    requires Descending(s)
    ensures Filter(Insert(c, s), HasScore(x)) == Filter(s, HasScore(x)) + if c.score == x then [c] else []
  {
    if s == [] || s[0].score < c.score {
      FilterCons(c, s, HasScore(x));
      if c.score == x {
        FilterNone(s, HasScore(x));
      }
    } else {
      hide Filter;
      InsertStable(c, s[1..], x);
      FilterCons(s[0], Insert(c, s[1..]), HasScore(x));
      FilterCons(s[0], s[1..], HasScore(x));
      assert s == [s[0]] + s[1..];
    }
  }

  /** Candidates of equal score keep the order of the index. */
  lemma {:induction false} SortIsStable(s: seq<Candidate>, x: real)
    ensures Filter(SortDescending(s), HasScore(x)) == Filter(s, HasScore(x))
  {
    if s != [] {
      var init, last := s[..|s| - 1], s[|s| - 1];
      SortIsStable(init, x);
      SortIsRanking(init);
      InsertStable(last, SortDescending(init), x);
      FilterAppend(init, [last], HasScore(x));
      FilterCons(last, [], HasScore(x));
      assert s == init + [last] && [last] + [] == [last];
    }
  }

  /** The score of the nearest neighbour. */
  function Best(hits: seq<Hit>): real {
    if hits == [] then 0.0 else hits[0].score
  }

  /** The specification: the best candidates, or the first hits when every hit was filtered out. */
  function Results(hits: seq<Hit>, lexical: nat -> real, topK: nat): seq<Candidate> {
    var candidates := Candidates(hits, Best(hits), lexical);
    if candidates != [] then Take(SortDescending(candidates), topK)
    else Fallbacks(Take(hits, FALLBACK_TOP_K))
  }

  method Retrieve(chunks: nat, hits: seq<Hit>, lexical: nat -> real, topK: nat) returns (results: seq<Candidate>)
    requires ValidHits(hits, chunks)
    ensures results == Results(hits, lexical, topK)
    ensures InCorpus(results, chunks)
    ensures |results| <= Max(topK, FALLBACK_TOP_K)
  {
    var best := if |hits| > 0 then hits[0].score else 0.0;
    var candidates: seq<Candidate> := [];
    for i := 0 to |hits|
      invariant candidates == Candidates(hits[..i], best, lexical)
    {
      assert hits[..i + 1][..i] == hits[..i];
      var h := hits[i];
      if h.index < 0 {
        continue;
      }
      var score := lexical(h.index);
      if h.score < ABS_MIN_SCORE && score == 0.0 {
        continue;
      }
      if h.score < best * REL_SCORE_DROP && score == 0.0 {
        continue;
      }
      candidates := candidates + [Candidate(h.index, h.score + score, h.score)];
    }
    assert hits[..|hits|] == hits;
    ResultsInCorpus(hits, lexical, topK, chunks);
    if |candidates| > 0 {
      return Take(SortDescending(candidates), topK);
    }
    return Fallbacks(Take(hits, FALLBACK_TOP_K));
  }

  /** Every result points at an existing chunk. */
  predicate InCorpus(results: seq<Candidate>, chunks: nat) {
    forall c :: c in results ==> c.index < chunks
  }

  lemma {:induction false} CandidatesInCorpus(hits: seq<Hit>, best: real, lexical: nat -> real, chunks: nat)
    requires ValidHits(hits, chunks)
    ensures InCorpus(Candidates(hits, best, lexical), chunks)
  {
    if hits != [] {
      CandidatesInCorpus(hits[..|hits| - 1], best, lexical, chunks);
    }
  }

  lemma {:induction false} FallbacksInCorpus(hits: seq<Hit>, chunks: nat)
    requires ValidHits(hits, chunks)
    ensures InCorpus(Fallbacks(hits), chunks)
  {
    if hits != [] {
      FallbacksInCorpus(hits[..|hits| - 1], chunks);
    }
  }

  lemma ResultsInCorpus(hits: seq<Hit>, lexical: nat -> real, topK: nat, chunks: nat)
    requires ValidHits(hits, chunks)
    ensures InCorpus(Results(hits, lexical, topK), chunks)
  {
    var candidates := Candidates(hits, Best(hits), lexical);
    CandidatesInCorpus(hits, Best(hits), lexical, chunks);
    FallbacksInCorpus(Take(hits, FALLBACK_TOP_K), chunks);
    SortIsRanking(candidates);
    forall c | c in SortDescending(candidates)
      ensures c.index < chunks
    {
      assert c in multiset(candidates);
    }
  }

  /** `best` holds the k highest scores of `all`: it is ordered, taken from `all`, of length k or
      all there are, and nothing left out scores higher than anything in it. */
  predicate AreBest(best: seq<Candidate>, all: seq<Candidate>, k: nat) {
    Descending(best) && |best| == Min(k, |all|) && multiset(best) <= multiset(all)
    && forall c, d :: c in best && d in multiset(all) - multiset(best) ==> d.score <= c.score
  }

  lemma Behind(front: seq<Candidate>, rest: seq<Candidate>, c: Candidate, d: Candidate)
    requires Descending(front + rest) && c in front && d in rest
    ensures d.score <= c.score
  {
    var i :| 0 <= i < |front| && front[i] == c;
    var j :| 0 <= j < |rest| && rest[j] == d;
    assert (front + rest)[i] == c && (front + rest)[|front| + j] == d;
  }

  lemma TopIsBest(ranked: seq<Candidate>, all: seq<Candidate>, k: nat)
    requires Descending(ranked) && multiset(ranked) == multiset(all)
    ensures AreBest(Take(ranked, k), all, k)
  {
    var best := Take(ranked, k);
    var rest := ranked[|best|..];
    assert ranked == best + rest;
    assert |ranked| == |multiset(ranked)| == |multiset(all)| == |all|;
    forall c, d | c in best && d in multiset(all) - multiset(best)
      ensures d.score <= c.score
    {
      assert d in multiset(rest);
      Behind(best, rest, c, d);
    }
  }

  /** What the query gets back when any hit passes the filters. */
  lemma {:induction false} ResultsAreBest(hits: seq<Hit>, lexical: nat -> real, topK: nat)
    requires Candidates(hits, Best(hits), lexical) != []
    ensures AreBest(Results(hits, lexical, topK), Candidates(hits, Best(hits), lexical), topK)
  {
    var all := Candidates(hits, Best(hits), lexical);
    SortIsRanking(all);
    TopIsBest(SortDescending(all), all, topK);
  }

  /** When no hit passes, the query gets the neighbours among the first five hits, in the index's order,
      however many were asked for. */
  lemma FallbackResults(hits: seq<Hit>, lexical: nat -> real, topK: nat)
    requires Filter(hits, Passes(Best(hits), lexical)) == []
    ensures var results := Results(hits, lexical, topK);
      var found := Filter(hits[..Min(5, |hits|)], IsNeighbour);
      |results| == |found|
      && forall i :: 0 <= i < |found| ==>
           results[i].index == found[i].index && results[i].score == found[i].score == results[i].vectorScore
  {
    CandidatesAre(hits, Best(hits), lexical);
    assert Candidates(hits, Best(hits), lexical) == [];
    assert Take(hits, FALLBACK_TOP_K) == hits[..Min(5, |hits|)];
    FallbacksAre(Take(hits, FALLBACK_TOP_K));
  }
}
