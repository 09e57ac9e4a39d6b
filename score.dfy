/**
 * The confidence heuristic of the merge (authors.py:439-451), in integer
 * hundredths: 30 per authoritative profile source (at most two count),
 * 20 for a non-zero paper count, 20 for a non-zero citation count,
 * 10 for an ORCID, 10 for a non-zero h-index, clamped at 100.
 */
module Score {
  import opened Wrappers
  import opened Records

  /** The providers whose profile endpoints count as strong identity signals. */
  const Authoritative: set<string> := {"openalex", "semantic_scholar", "dblp"}

  function AuthoritativeCount(sources: set<string>): nat {
    |sources * Authoritative|
  }

  /** Python truthiness of an optional integer: present and non-zero. */
  predicate IntTruthy(h: Option<int>) {
    h.Some? && h.value != 0
  }

  function ConfidenceScore(sources: set<string>, paperCount: int, citationCount: int,
                           orcid: Option<string>, hIndex: Option<int>): (score: int)
    ensures 0 <= score <= 100
  {
    var profiles := if AuthoritativeCount(sources) < 2 then AuthoritativeCount(sources) else 2;
    var raw := 30 * profiles
      + (if paperCount != 0 then 20 else 0)
      + (if citationCount != 0 then 20 else 0)
      + (if Truthy(orcid) then 10 else 0)
      + (if IntTruthy(hIndex) then 10 else 0);
    if raw < 100 then raw else 100
  }

  /** The score is zero exactly when nothing it rewards is present. */
  lemma ScoreZeroIff(sources: set<string>, paperCount: int, citationCount: int,
                     orcid: Option<string>, hIndex: Option<int>)
    ensures ConfidenceScore(sources, paperCount, citationCount, orcid, hIndex) == 0
      <==> sources * Authoritative == {} && paperCount == 0 && citationCount == 0
           && !Truthy(orcid) && !IntTruthy(hIndex)
  {
    if sources * Authoritative != {} {
      var s :| s in sources * Authoritative;
      assert |sources * Authoritative| >= |{s}|;
    }
  }

  /** A profile backed by at most one authoritative source never reaches full confidence. */
  lemma OneSourceNeverFull(sources: set<string>, paperCount: int, citationCount: int,
                           orcid: Option<string>, hIndex: Option<int>)
    requires AuthoritativeCount(sources) <= 1
    ensures ConfidenceScore(sources, paperCount, citationCount, orcid, hIndex) <= 90
  {
  }

  lemma {:induction false} SubsetCardinality(a: set<string>, b: set<string>)
    requires a <= b
    ensures |a| <= |b|
    decreases |a|
  {
    if a != {} {
      var x :| x in a;
      SubsetCardinality(a - {x}, b - {x});
    }
  }

  /** More sources never lower the score. */
  lemma ScoreMonotoneInSources(sources: set<string>, more: set<string>, paperCount: int,
                               citationCount: int, orcid: Option<string>, hIndex: Option<int>)
    requires sources <= more
    ensures ConfidenceScore(sources, paperCount, citationCount, orcid, hIndex)
         <= ConfidenceScore(more, paperCount, citationCount, orcid, hIndex)
  {
    SubsetCardinality(sources * Authoritative, more * Authoritative);
  }

  /** Once two authoritative sources are present, a third one adds nothing. */
  lemma ThirdSourceAddsNothing(sources: set<string>, extra: set<string>, paperCount: int,
                               citationCount: int, orcid: Option<string>, hIndex: Option<int>)
    requires AuthoritativeCount(sources) >= 2
    ensures ConfidenceScore(sources + extra, paperCount, citationCount, orcid, hIndex)
         == ConfidenceScore(sources, paperCount, citationCount, orcid, hIndex)
  {
    SubsetCardinality(sources * Authoritative, (sources + extra) * Authoritative);
  }

  /** Two distinct authoritative sources and non-zero counts give full confidence. */
  lemma TwoSourcesAndCountsScoreFull(sources: set<string>, a: string, b: string, paperCount: int,
                                     citationCount: int, orcid: Option<string>, hIndex: Option<int>)
    requires a in sources && b in sources && a in Authoritative && b in Authoritative && a != b
    requires paperCount != 0 && citationCount != 0
    ensures ConfidenceScore(sources, paperCount, citationCount, orcid, hIndex) == 100
  {
    SubsetCardinality({a, b}, sources * Authoritative);
  }
}
