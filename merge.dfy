/**
 * The profile merger `_merge_author_data` (authors.py:356-453).
 * `Merged` is the reference definition, one field rule at a time;
 * `MergeAuthorData` is the loop-based procedure of the source, proved
 * to compute it. The lemmas state what the source promises of the result.
 */
module Merge {
  import opened Wrappers
  import opened Records
  import opened Score

  // ---------------------------------------------------------------------
  // Field rules over the contributing records, each read left to right.
  // ---------------------------------------------------------------------

  /** `[r for r in results if isinstance(r, dict) and r]`: failed calls and `{}` are dropped. */
  function Contributing(results: seq<Option<Record>>): seq<Record> {
    if results == [] then []
    else
      var last := results[|results| - 1];
      Contributing(results[..|results| - 1])
        + (if last.Some? && last.value != EmptyRecord then [last.value] else [])
  }

  /** The identifier and URL fields, merged by "first truthy value wins". */
  datatype IdField = AuthorIdField | OrcidField | HomepageField | ImageField

  function IdOf(r: Record, f: IdField): Option<string> {
    match f
    case AuthorIdField => r.authorId
    case OrcidField => r.orcid
    case HomepageField => r.homepageUrl
    case ImageField => r.profileImageUrl
  }

  /** The integer fields, merged by "maximum of the values supplied". */
  datatype CountField = PaperCountField | CitationCountField | HIndexField

  function CountOf(r: Record, f: CountField): Option<int> {
    match f
    case PaperCountField => r.paperCount
    case CitationCountField => r.citationCount
    case HIndexField => r.hIndex
  }

  /**
   * `if not merged[f] and result.get(f): merged[f] = result[f]`, folded
   * over the records left to right.
   */
  function FirstTruthy(rs: seq<Record>, f: IdField): Option<string> {
    if rs == [] then None
    else
      var prev := FirstTruthy(rs[..|rs| - 1], f);
      var last := IdOf(rs[|rs| - 1], f);
      if !Truthy(prev) && Truthy(last) then last else prev
  }

  /** The integer values supplied for a field, in input order. */
  function CountsOf(rs: seq<Record>, f: CountField): seq<int> {
    if rs == [] then []
    else
      var last := CountOf(rs[|rs| - 1], f);
      CountsOf(rs[..|rs| - 1], f) + (if last.Some? then [last.value] else [])
  }

  /** Python's `max` of a non-empty list. */
  function MaxOf(xs: seq<int>): (m: int)
    requires xs != []
    ensures m in xs
    ensures forall x :: x in xs ==> x <= m
  {
    if |xs| == 1 then xs[0]
    else
      var init := xs[..|xs| - 1];
      var m' := MaxOf(init);
      assert xs == init + [xs[|xs| - 1]];
      if xs[|xs| - 1] > m' then xs[|xs| - 1] else m'
  }

  /** `max(values) if values else None`. */
  function MaxOrNone(xs: seq<int>): Option<int> {
    if xs == [] then None else Some(MaxOf(xs))
  }

  /** The merged value of one integer field: the maximum of the values supplied. */
  function MaxCount(rs: seq<Record>, f: CountField): Option<int> {
    MaxOrNone(CountsOf(rs, f))
  }

  /** `merged["affiliations"].extend(...)`: all affiliation lists, concatenated in input order. */
  function AffiliationsOf(rs: seq<Record>): seq<Affiliation> {
    if rs == [] then [] else AffiliationsOf(rs[..|rs| - 1]) + rs[|rs| - 1].affiliations
  }

  /** The union of all source tags. */
  function SourcesOf(rs: seq<Record>): set<string> {
    if rs == [] then {} else SourcesOf(rs[..|rs| - 1]) + rs[|rs| - 1].sources
  }

  /** The union of all fields of study. */
  function FieldsOf(rs: seq<Record>): set<string> {
    if rs == [] then {} else FieldsOf(rs[..|rs| - 1]) + rs[|rs| - 1].fieldsOfStudy
  }

  // ---------------------------------------------------------------------
  // Affiliation deduplication with a seen-set.
  // ---------------------------------------------------------------------

  function KeySet(affs: seq<Affiliation>): set<AffiliationKey> {
    set a | a in affs :: KeyOf(a)
  }

  lemma KeySetAppend(affs: seq<Affiliation>, a: Affiliation)
    ensures KeySet(affs + [a]) == KeySet(affs) + {KeyOf(a)}
  {
    assert forall b :: b in affs + [a] <==> b in affs || b == a;
  }

  /** No two entries share a deduplication key. */
  predicate DistinctKeys(affs: seq<Affiliation>) {
    forall i, j :: 0 <= i < j < |affs| ==> KeyOf(affs[i]) != KeyOf(affs[j])
  }

  /** The seen-set pass: an entry is kept unless an earlier kept entry has its key. */
  function Dedup(affs: seq<Affiliation>): seq<Affiliation> {
    if affs == [] then []
    else
      var prev := Dedup(affs[..|affs| - 1]);
      var a := affs[|affs| - 1];
      if KeyOf(a) in KeySet(prev) then prev else prev + [a]
  }

  // ---------------------------------------------------------------------
  // What each field rule computes.
  // ---------------------------------------------------------------------

  /** Exactly the successful, non-empty results contribute. */
  lemma {:induction false} ContributingMembers(results: seq<Option<Record>>)
    ensures forall r :: r in Contributing(results) <==> Some(r) in results && r != EmptyRecord
  {
    if results != [] {
      var init := results[..|results| - 1];
      assert results == init + [results[|results| - 1]];
      ContributingMembers(init);
    }
  }

  lemma {:induction false} CountsOfMembers(rs: seq<Record>, f: CountField)
    ensures forall x :: x in CountsOf(rs, f) <==> exists k :: 0 <= k < |rs| && CountOf(rs[k], f) == Some(x)
  {
    if rs != [] {
      var init := rs[..|rs| - 1];
      assert forall k :: 0 <= k < |init| ==> init[k] == rs[k];
      CountsOfMembers(init, f);
    }
  }

  /**
   * A merged count is absent exactly when no record supplies one, and is
   * otherwise a supplied value that no supplied value exceeds.
   */
  lemma MaxCountIsMaximum(rs: seq<Record>, f: CountField)
    ensures MaxCount(rs, f).None? <==> forall k :: 0 <= k < |rs| ==> CountOf(rs[k], f).None?
    ensures MaxCount(rs, f).Some? ==> exists k :: 0 <= k < |rs| && CountOf(rs[k], f) == MaxCount(rs, f)
    ensures MaxCount(rs, f).Some? ==>
              forall k :: 0 <= k < |rs| && CountOf(rs[k], f).Some? ==>
                CountOf(rs[k], f).value <= MaxCount(rs, f).value
  {
    CountsOfMembers(rs, f);
    forall k | 0 <= k < |rs| && CountOf(rs[k], f).Some?
      ensures CountOf(rs[k], f).value in CountsOf(rs, f)
    {
      var x := CountOf(rs[k], f).value;
      assert exists k' :: 0 <= k' < |rs| && CountOf(rs[k'], f) == Some(x) by {
        assert CountOf(rs[k], f) == Some(x);
      }
    }
  }

  lemma {:induction false} AffiliationsOfMembers(rs: seq<Record>)
    ensures forall a :: a in AffiliationsOf(rs) <==> exists k :: 0 <= k < |rs| && a in rs[k].affiliations
  {
    if rs != [] {
      var init := rs[..|rs| - 1];
      assert forall k :: 0 <= k < |init| ==> init[k] == rs[k];
      AffiliationsOfMembers(init);
    }
  }

  lemma {:induction false} SourcesOfMembers(rs: seq<Record>)
    ensures forall t :: t in SourcesOf(rs) <==> exists k :: 0 <= k < |rs| && t in rs[k].sources
  {
    if rs != [] {
      var init := rs[..|rs| - 1];
      assert forall k :: 0 <= k < |init| ==> init[k] == rs[k];
      SourcesOfMembers(init);
    }
  }

  lemma {:induction false} FieldsOfMembers(rs: seq<Record>)
    ensures forall t :: t in FieldsOf(rs) <==> exists k :: 0 <= k < |rs| && t in rs[k].fieldsOfStudy
  {
    if rs != [] {
      var init := rs[..|rs| - 1];
      assert forall k :: 0 <= k < |init| ==> init[k] == rs[k];
      FieldsOfMembers(init);
    }
  }

  /**
   * Deduplication keeps every key that occurs, keeps nothing that was not
   * there, and leaves no two entries with the same key.
   */
  lemma {:induction false} DedupProperties(affs: seq<Affiliation>)
    ensures KeySet(Dedup(affs)) == KeySet(affs)
    ensures forall a :: a in Dedup(affs) ==> a in affs
    ensures DistinctKeys(Dedup(affs))
  {
    if affs != [] {
      var init := affs[..|affs| - 1];
      var a := affs[|affs| - 1];
      var prev := Dedup(init);
      assert affs == init + [a];
      DedupProperties(init);
      KeySetAppend(init, a);
      if KeyOf(a) !in KeySet(prev) {
        KeySetAppend(prev, a);
        var next := prev + [a];
        forall i, j | 0 <= i < j < |next| ensures KeyOf(next[i]) != KeyOf(next[j]) {
          if j == |prev| {
            assert next[i] == prev[i] && KeyOf(prev[i]) in KeySet(prev);
          } else {
            assert next[i] == prev[i] && next[j] == prev[j];
          }
        }
      }
    }
  }

  // ---------------------------------------------------------------------
  // The merge.
  // ---------------------------------------------------------------------

  /** The integer a count field ends with: its maximum, or 0 when no record supplied one. */
  function CountOrZero(m: Option<int>): int {
    if m.Some? then m.value else 0
  }

  /**
   * The merged profile, field by field: the query name, first truthy
   * identifiers and URLs, no email, maximal counts, deduplicated
   * affiliations, united sources and fields of study, and the score.
   */
  function Merged(name: string, results: seq<Option<Record>>, now: string): Profile {
    var rs := Contributing(results);
    var paperCount := CountOrZero(MaxCount(rs, PaperCountField));
    var citationCount := CountOrZero(MaxCount(rs, CitationCountField));
    var hIndex := MaxCount(rs, HIndexField);
    var orcid := FirstTruthy(rs, OrcidField);
    var sources := SourcesOf(rs);
    Profile(
      name := name,
      authorId := FirstTruthy(rs, AuthorIdField),
      orcid := orcid,
      affiliations := Dedup(AffiliationsOf(rs)),
      homepageUrl := FirstTruthy(rs, HomepageField),
      email := None,
      hIndex := hIndex,
      paperCount := paperCount,
      citationCount := citationCount,
      fieldsOfStudy := FieldsOf(rs),
      profileImageUrl := FirstTruthy(rs, ImageField),
      lastUpdated := now,
      sources := sources,
      confidenceScore := ConfidenceScore(sources, paperCount, citationCount, orcid, hIndex))
  }

  // Each field rule grows by one record at a time; the collecting loop
  // below advances by exactly these steps.

  lemma FirstTruthyStep(rs: seq<Record>, i: nat, f: IdField)
    requires i < |rs|
    ensures FirstTruthy(rs[..i + 1], f) ==
            (if !Truthy(FirstTruthy(rs[..i], f)) && Truthy(IdOf(rs[i], f)) then IdOf(rs[i], f)
             else FirstTruthy(rs[..i], f))
  {
    assert rs[..i + 1][..i] == rs[..i];
  }

  lemma CountsOfStep(rs: seq<Record>, i: nat, f: CountField)
    requires i < |rs|
    ensures CountsOf(rs[..i + 1], f) ==
            CountsOf(rs[..i], f) + (if CountOf(rs[i], f).Some? then [CountOf(rs[i], f).value] else [])
  {
    assert rs[..i + 1][..i] == rs[..i];
  }

  lemma UnionsStep(rs: seq<Record>, i: nat)
    requires i < |rs|
    ensures SourcesOf(rs[..i + 1]) == SourcesOf(rs[..i]) + rs[i].sources
    ensures FieldsOf(rs[..i + 1]) == FieldsOf(rs[..i]) + rs[i].fieldsOfStudy
    ensures AffiliationsOf(rs[..i + 1]) == AffiliationsOf(rs[..i]) + rs[i].affiliations
  {
    assert rs[..i + 1][..i] == rs[..i];
  }

  /** The collecting loop of the merge over the contributing records. */
  method CollectFields(valid: seq<Record>)
    returns (sources: set<string>, paperCounts: seq<int>, citationCounts: seq<int>, hIndices: seq<int>,
             authorId: Option<string>, orcid: Option<string>, homepageUrl: Option<string>,
             profileImageUrl: Option<string>, affiliations: seq<Affiliation>, fieldsOfStudy: set<string>)
    ensures sources == SourcesOf(valid)
    ensures paperCounts == CountsOf(valid, PaperCountField)
    ensures citationCounts == CountsOf(valid, CitationCountField)
    ensures hIndices == CountsOf(valid, HIndexField)
    ensures authorId == FirstTruthy(valid, AuthorIdField)
    ensures orcid == FirstTruthy(valid, OrcidField)
    ensures homepageUrl == FirstTruthy(valid, HomepageField)
    ensures profileImageUrl == FirstTruthy(valid, ImageField)
    ensures affiliations == AffiliationsOf(valid)
    ensures fieldsOfStudy == FieldsOf(valid)
  {
    sources := {};
    paperCounts := [];
    citationCounts := [];
    hIndices := [];
    authorId := None;
    orcid := None;
    homepageUrl := None;
    profileImageUrl := None;
    affiliations := [];
    fieldsOfStudy := {};
    var i := 0;
    while i < |valid|
      invariant 0 <= i <= |valid|
      invariant sources == SourcesOf(valid[..i])
      invariant paperCounts == CountsOf(valid[..i], PaperCountField)
      invariant citationCounts == CountsOf(valid[..i], CitationCountField)
      invariant hIndices == CountsOf(valid[..i], HIndexField)
      invariant authorId == FirstTruthy(valid[..i], AuthorIdField)
      invariant orcid == FirstTruthy(valid[..i], OrcidField)
      invariant homepageUrl == FirstTruthy(valid[..i], HomepageField)
      invariant profileImageUrl == FirstTruthy(valid[..i], ImageField)
      invariant affiliations == AffiliationsOf(valid[..i])
      invariant fieldsOfStudy == FieldsOf(valid[..i])
    {
      var result := valid[i];
      UnionsStep(valid, i);
      CountsOfStep(valid, i, PaperCountField);
      CountsOfStep(valid, i, CitationCountField);
      CountsOfStep(valid, i, HIndexField);
      FirstTruthyStep(valid, i, AuthorIdField);
      FirstTruthyStep(valid, i, OrcidField);
      FirstTruthyStep(valid, i, HomepageField);
      FirstTruthyStep(valid, i, ImageField);
      sources := sources + result.sources;
      paperCounts := paperCounts + (if result.paperCount.Some? then [result.paperCount.value] else []);
      citationCounts := citationCounts + (if result.citationCount.Some? then [result.citationCount.value] else []);
      hIndices := hIndices + (if result.hIndex.Some? then [result.hIndex.value] else []);
      authorId := if !Truthy(authorId) && Truthy(result.authorId) then result.authorId else authorId;
      orcid := if !Truthy(orcid) && Truthy(result.orcid) then result.orcid else orcid;
      homepageUrl := if !Truthy(homepageUrl) && Truthy(result.homepageUrl) then result.homepageUrl else homepageUrl;
      profileImageUrl := if !Truthy(profileImageUrl) && Truthy(result.profileImageUrl)
                         then result.profileImageUrl else profileImageUrl;
      affiliations := affiliations + result.affiliations;
      fieldsOfStudy := fieldsOfStudy + result.fieldsOfStudy;
      i := i + 1;
    }
    assert valid[..|valid|] == valid;
  }

  /** The seen-set loop over `(institution_id, institution_name, country)` keys, each falsy part read as "". */
  method DeduplicateAffiliations(affiliations: seq<Affiliation>) returns (deduplicated: seq<Affiliation>)
    ensures deduplicated == Dedup(affiliations)
  {
    deduplicated := [];
    var seen: set<AffiliationKey> := {};
    var j := 0;
    while j < |affiliations|
      invariant 0 <= j <= |affiliations|
      invariant deduplicated == Dedup(affiliations[..j])
      invariant seen == KeySet(deduplicated)
    {
      var aff := affiliations[j];
      assert affiliations[..j + 1][..j] == affiliations[..j];
      var key := KeyOf(aff);
      if key in seen {
        j := j + 1;
        continue;
      }
      KeySetAppend(deduplicated, aff);
      seen := seen + {key};
      deduplicated := deduplicated + [aff];
      j := j + 1;
    }
    assert affiliations[..|affiliations|] == affiliations;
  }

  /**
   * `_merge_author_data(name, results)`, with the clock reading `now` as a
   * parameter: one pass collecting values, then the finishing steps.
   */
  method MergeAuthorData(name: string, results: seq<Option<Record>>, now: string)
    returns (m: Profile)
    ensures m == Merged(name, results, now)
    ensures m.name == name && m.email == None
    ensures DistinctKeys(m.affiliations)
  {
    var valid := Contributing(results);
    var sources, paperCounts, citationCounts, hIndices, authorId, orcid, homepageUrl,
        profileImageUrl, affiliations, fieldsOfStudy := CollectFields(valid);
    m := FinishMerge(name, results, now, sources, paperCounts, citationCounts, hIndices,
                     authorId, orcid, homepageUrl, profileImageUrl, affiliations, fieldsOfStudy);
    MergedAffiliationsAreDeduplicated(name, results, now);
  }

  /**
   * The steps after the collecting loop: the maximum of each count, the
   * seen-set pass over the affiliations and the confidence score.
   */
  method FinishMerge(name: string, results: seq<Option<Record>>, now: string,
                     sources: set<string>, paperCounts: seq<int>, citationCounts: seq<int>, hIndices: seq<int>,
                     authorId: Option<string>, orcid: Option<string>, homepageUrl: Option<string>,
                     profileImageUrl: Option<string>, affiliations: seq<Affiliation>, fieldsOfStudy: set<string>)
    returns (m: Profile)
    requires sources == SourcesOf(Contributing(results))
    requires paperCounts == CountsOf(Contributing(results), PaperCountField)
    requires citationCounts == CountsOf(Contributing(results), CitationCountField)
    requires hIndices == CountsOf(Contributing(results), HIndexField)
    requires authorId == FirstTruthy(Contributing(results), AuthorIdField)
    requires orcid == FirstTruthy(Contributing(results), OrcidField)
    requires homepageUrl == FirstTruthy(Contributing(results), HomepageField)
    requires profileImageUrl == FirstTruthy(Contributing(results), ImageField)
    requires affiliations == AffiliationsOf(Contributing(results))
    requires fieldsOfStudy == FieldsOf(Contributing(results))
    ensures m == Merged(name, results, now)
    ensures m.name == name && m.email == None
    ensures DistinctKeys(m.affiliations)
  {
    var paperCount := CountOrZero(MaxOrNone(paperCounts));
    var citationCount := CountOrZero(MaxOrNone(citationCounts));
    var hIndex := MaxOrNone(hIndices);

    var deduplicated := DeduplicateAffiliations(affiliations);
    assert DistinctKeys(deduplicated) by {
      DedupProperties(affiliations);
    }
    var score := ConfidenceScore(sources, paperCount, citationCount, orcid, hIndex);
    m := Profile(name, authorId, orcid, deduplicated, homepageUrl, None, hIndex,
                 paperCount, citationCount, fieldsOfStudy, profileImageUrl, now,
                 sources, score);
    AssembledIsMerged(name, results, now, m);
  }

  /** A profile that agrees with every field rule of the merge is the merge. */
  lemma AssembledIsMerged(name: string, results: seq<Option<Record>>, now: string, m: Profile)
    requires m.name == name && m.email == None && m.lastUpdated == now
    requires m.authorId == FirstTruthy(Contributing(results), AuthorIdField)
    requires m.orcid == FirstTruthy(Contributing(results), OrcidField)
    requires m.homepageUrl == FirstTruthy(Contributing(results), HomepageField)
    requires m.profileImageUrl == FirstTruthy(Contributing(results), ImageField)
    requires m.paperCount == CountOrZero(MaxCount(Contributing(results), PaperCountField))
    requires m.citationCount == CountOrZero(MaxCount(Contributing(results), CitationCountField))
    requires m.hIndex == MaxCount(Contributing(results), HIndexField)
    requires m.affiliations == Dedup(AffiliationsOf(Contributing(results)))
    requires m.sources == SourcesOf(Contributing(results))
    requires m.fieldsOfStudy == FieldsOf(Contributing(results))
    requires m.confidenceScore == ConfidenceScore(m.sources, m.paperCount, m.citationCount, m.orcid, m.hIndex)
    ensures m == Merged(name, results, now)
  {
  }

  // ---------------------------------------------------------------------
  // What the merged profile is, in terms of the raw provider results.
  // ---------------------------------------------------------------------

  /** An identifier field of one raw result; a failed call supplies nothing. */
  function RawId(o: Option<Record>, f: IdField): Option<string> {
    if o.Some? then IdOf(o.value, f) else None
  }

  /** A count field of one raw result; a failed call supplies nothing. */
  function RawCount(o: Option<Record>, f: CountField): Option<int> {
    if o.Some? then CountOf(o.value, f) else None
  }

  function ProfileId(p: Profile, f: IdField): Option<string> {
    match f
    case AuthorIdField => p.authorId
    case OrcidField => p.orcid
    case HomepageField => p.homepageUrl
    case ImageField => p.profileImageUrl
  }

  /** A count field of the profile; paper and citation counts are always present. */
  function ProfileCount(p: Profile, f: CountField): Option<int> {
    match f
    case PaperCountField => Some(p.paperCount)
    case CitationCountField => Some(p.citationCount)
    case HIndexField => p.hIndex
  }

  lemma FirstTruthyAppend(rs: seq<Record>, r: Record, f: IdField)
    ensures FirstTruthy(rs + [r], f) ==
            (if !Truthy(FirstTruthy(rs, f)) && Truthy(IdOf(r, f)) then IdOf(r, f) else FirstTruthy(rs, f))
  {
    assert (rs + [r])[..|rs|] == rs;
  }

  lemma ContributingStep(results: seq<Option<Record>>, x: Option<Record>)
    ensures Contributing(results + [x]) ==
            Contributing(results) + (if x.Some? && x.value != EmptyRecord then [x.value] else [])
  {
    assert (results + [x])[..|results|] == results;
  }

  /** "First truthy value wins" read directly over the raw results, failures included. */
  function FirstTruthyRaw(results: seq<Option<Record>>, f: IdField): Option<string> {
    if results == [] then None
    else
      var prev := FirstTruthyRaw(results[..|results| - 1], f);
      var last := RawId(results[|results| - 1], f);
      if !Truthy(prev) && Truthy(last) then last else prev
  }

  /** Dropping failed and empty results first does not change which value wins. */
  lemma {:induction false} ContributingKeepsFirstTruthy(results: seq<Option<Record>>, f: IdField)
    ensures FirstTruthy(Contributing(results), f) == FirstTruthyRaw(results, f)
  {
    if results != [] {
      var init := results[..|results| - 1];
      var x := results[|results| - 1];
      assert results == init + [x];
      ContributingKeepsFirstTruthy(init, f);
      ContributingStep(init, x);
      if x.Some? && x.value != EmptyRecord {
        FirstTruthyAppend(Contributing(init), x.value, f);
        assert RawId(x, f) == IdOf(x.value, f);
      } else {
        assert RawId(x, f).None?;
        assert Contributing(results) == Contributing(init) + [] == Contributing(init);
      }
    }
  }

  /** The winner is never falsy, is absent exactly when no result has a truthy value, and is the first truthy one. */
  lemma {:induction false} FirstTruthyRawIsFirst(results: seq<Option<Record>>, f: IdField)
    ensures FirstTruthyRaw(results, f).None? || Truthy(FirstTruthyRaw(results, f))
    ensures FirstTruthyRaw(results, f).None? <==>
              forall k :: 0 <= k < |results| ==> !Truthy(RawId(results[k], f))
    ensures FirstTruthyRaw(results, f).Some? ==>
              exists k :: 0 <= k < |results| && RawId(results[k], f) == FirstTruthyRaw(results, f)
                          && forall j :: 0 <= j < k ==> !Truthy(RawId(results[j], f))
  {
    if results != [] {
      var init := results[..|results| - 1];
      assert forall k :: 0 <= k < |init| ==> init[k] == results[k];
      FirstTruthyRawIsFirst(init, f);
      if !Truthy(FirstTruthyRaw(init, f)) && Truthy(RawId(results[|results| - 1], f)) {
        assert RawId(results[|results| - 1], f) == FirstTruthyRaw(results, f);
      }
    }
  }

  /**
   * An identifier or URL of the merge is the value of the first result, in
   * input order, in which that field is truthy, and absent when none is.
   */
  lemma MergedIdIsFirstTruthy(name: string, results: seq<Option<Record>>, now: string, f: IdField)
    ensures ProfileId(Merged(name, results, now), f) == FirstTruthyRaw(results, f)
    ensures ProfileId(Merged(name, results, now), f).None? || Truthy(ProfileId(Merged(name, results, now), f))
    ensures ProfileId(Merged(name, results, now), f).None? <==>
              forall k :: 0 <= k < |results| ==> !Truthy(RawId(results[k], f))
    ensures ProfileId(Merged(name, results, now), f).Some? ==>
              exists k :: 0 <= k < |results| && RawId(results[k], f) == ProfileId(Merged(name, results, now), f)
                          && forall j :: 0 <= j < k ==> !Truthy(RawId(results[j], f))
  {
    assert ProfileId(Merged(name, results, now), f) == FirstTruthy(Contributing(results), f);
    ContributingKeepsFirstTruthy(results, f);
    FirstTruthyRawIsFirst(results, f);
  }

  /**
   * A count of the merge is the largest value any result supplied; paper
   * and citation counts are 0, and the h-index absent, when none did.
   */
  lemma MergedCountIsMaximum(name: string, results: seq<Option<Record>>, now: string, f: CountField)
    ensures forall k :: 0 <= k < |results| && RawCount(results[k], f).Some? ==>
              ProfileCount(Merged(name, results, now), f).Some? &&
              RawCount(results[k], f).value <= ProfileCount(Merged(name, results, now), f).value
    ensures (exists k :: 0 <= k < |results| && RawCount(results[k], f).Some?) ==>
              exists k :: 0 <= k < |results| && RawCount(results[k], f) == ProfileCount(Merged(name, results, now), f)
    ensures (forall k :: 0 <= k < |results| ==> RawCount(results[k], f).None?) ==>
              ProfileCount(Merged(name, results, now), f) == (if f == HIndexField then None else Some(0))
  {
    var rs := Contributing(results);
    var m := MaxCount(rs, f);
    assert ProfileCount(Merged(name, results, now), f) == (if f == HIndexField then m else Some(CountOrZero(m)));
    ContributingMembers(results);
    MaxCountIsMaximum(rs, f);
    forall k | 0 <= k < |results| && RawCount(results[k], f).Some?
      ensures m.Some? && RawCount(results[k], f).value <= m.value
    {
      var r := results[k].value;
      assert r in rs;
      var k' :| 0 <= k' < |rs| && rs[k'] == r;
      assert CountOf(rs[k'], f).Some?;
    }
    if m.Some? {
      var k' :| 0 <= k' < |rs| && CountOf(rs[k'], f) == m;
      assert Some(rs[k']) in results;
      var k :| 0 <= k < |results| && results[k] == Some(rs[k']);
      assert RawCount(results[k], f) == m;
    }
  }

  /** Sources and fields of study of the merge are the unions of those of all results. */
  lemma MergedSetsAreUnions(name: string, results: seq<Option<Record>>, now: string)
    ensures forall t :: t in Merged(name, results, now).sources <==>
              exists o :: o in results && o.Some? && t in o.value.sources
    ensures forall t :: t in Merged(name, results, now).fieldsOfStudy <==>
              exists o :: o in results && o.Some? && t in o.value.fieldsOfStudy
  {
    var rs := Contributing(results);
    ContributingMembers(results);
    SourcesOfMembers(rs);
    FieldsOfMembers(rs);
    forall t | t in SourcesOf(rs)
      ensures exists o :: o in results && o.Some? && t in o.value.sources
    {
      var k :| 0 <= k < |rs| && t in rs[k].sources;
      assert rs[k] in rs;
      assert Some(rs[k]) in results;
    }
    forall t | t in FieldsOf(rs)
      ensures exists o :: o in results && o.Some? && t in o.value.fieldsOfStudy
    {
      var k :| 0 <= k < |rs| && t in rs[k].fieldsOfStudy;
      assert rs[k] in rs;
      assert Some(rs[k]) in results;
    }
    forall t | (exists o :: o in results && o.Some? && t in o.value.sources)
      ensures t in SourcesOf(rs)
    {
      var o :| o in results && o.Some? && t in o.value.sources;
      assert o.value in rs;
    }
    forall t | (exists o :: o in results && o.Some? && t in o.value.fieldsOfStudy)
      ensures t in FieldsOf(rs)
    {
      var o :| o in results && o.Some? && t in o.value.fieldsOfStudy;
      assert o.value in rs;
    }
  }

  /**
   * The merged affiliations come from the results, cover every key that
   * occurs in them, and no two share a key.
   */
  lemma MergedAffiliationsAreDeduplicated(name: string, results: seq<Option<Record>>, now: string)
    ensures DistinctKeys(Merged(name, results, now).affiliations)
    ensures forall a :: a in Merged(name, results, now).affiliations ==>
              exists o :: o in results && o.Some? && a in o.value.affiliations
    ensures forall o, a :: o in results && o.Some? && a in o.value.affiliations ==>
              KeyOf(a) in KeySet(Merged(name, results, now).affiliations)
  {
    var rs := Contributing(results);
    var all := AffiliationsOf(rs);
    ContributingMembers(results);
    AffiliationsOfMembers(rs);
    DedupProperties(all);
    forall a | a in Dedup(all)
      ensures exists o :: o in results && o.Some? && a in o.value.affiliations
    {
      var k :| 0 <= k < |rs| && a in rs[k].affiliations;
      assert rs[k] in rs;
      assert Some(rs[k]) in results;
    }
    forall o, a | o in results && o.Some? && a in o.value.affiliations
      ensures KeyOf(a) in KeySet(Dedup(all))
    {
      assert o.value in rs;
      assert a in all;
    }
  }

  /** An affiliation whose key has not occurred before it survives deduplication. */
  lemma {:induction false} DedupKeepsFirstOccurrence(affs: seq<Affiliation>, i: nat)
    requires i < |affs|
    requires forall j :: 0 <= j < i ==> KeyOf(affs[j]) != KeyOf(affs[i])
    ensures affs[i] in Dedup(affs)
  {
    var init := affs[..|affs| - 1];
    var a := affs[|affs| - 1];
    if i == |affs| - 1 {
      DedupProperties(init);
      assert KeyOf(a) !in KeySet(init);
    } else {
      DedupKeepsFirstOccurrence(init, i);
    }
  }

  /** A list without repeated keys is returned as it is. */
  lemma {:induction false} DedupOfDistinct(affs: seq<Affiliation>)
    requires DistinctKeys(affs)
    ensures Dedup(affs) == affs
  {
    if affs != [] {
      var init := affs[..|affs| - 1];
      var a := affs[|affs| - 1];
      assert DistinctKeys(init);
      DedupOfDistinct(init);
      assert KeyOf(a) !in KeySet(init);
    }
  }

  lemma {:induction false} ContributingAppend(a: seq<Option<Record>>, b: seq<Option<Record>>)
    ensures Contributing(a + b) == Contributing(a) + Contributing(b)
    decreases |b|
  {
    if b != [] {
      var b' := b[..|b| - 1];
      var x := b[|b| - 1];
      assert b == b' + [x];
      assert a + b == (a + b') + [x];
      ContributingAppend(a, b');
      ContributingStep(a + b', x);
      ContributingStep(b', x);
      var e := if x.Some? && x.value != EmptyRecord then [x.value] else [];
      assert Contributing(a) + Contributing(b') + e == Contributing(a) + (Contributing(b') + e);
    } else {
      assert a + b == a;
    }
  }

  /** A failed provider call, or one that found nothing, does not change the merge. */
  lemma SkipsFailedResult(name: string, a: seq<Option<Record>>, x: Option<Record>,
                          b: seq<Option<Record>>, now: string)
    requires x.None? || x == Some(EmptyRecord)
    ensures Merged(name, a + [x] + b, now) == Merged(name, a + b, now)
  {
    ContributingAppend(a + [x], b);
    ContributingAppend(a, [x]);
    ContributingAppend(a, b);
    ContributingStep([], x);
    assert [] + [x] == [x];
    assert Contributing(a + [x] + b) == Contributing(a + b);
  }

  /**
   * When every provider failed or found nothing, the merge is the empty
   * profile under the query name, with confidence 0.
   */
  lemma MergeOfNothing(name: string, results: seq<Option<Record>>, now: string)
    requires forall k :: 0 <= k < |results| ==> results[k].None? || results[k] == Some(EmptyRecord)
    ensures Merged(name, results, now) ==
            Profile(name, None, None, [], None, None, None, 0, 0, {}, None, now, {}, 0)
  {
    ContributingMembers(results);
    assert Contributing(results) == [] by {
      if Contributing(results) != [] {
        assert Contributing(results)[0] in Contributing(results);
      }
    }
  }

  /** Deduplicating a longer list extends the deduplication of its prefix: relative order is kept. */
  lemma {:induction false} DedupExtends(a: seq<Affiliation>, b: seq<Affiliation>)
    ensures |Dedup(a)| <= |Dedup(a + b)| && Dedup(a + b)[..|Dedup(a)|] == Dedup(a)
    decreases |b|
  {
    if b == [] {
      assert a + b == a;
    } else {
      var b' := b[..|b| - 1];
      assert (a + b)[..|a + b| - 1] == a + b';
      DedupExtends(a, b');
    }
  }

  /** The maximum of a count depends only on which records are present. */
  lemma MaxCountByElements(rs1: seq<Record>, rs2: seq<Record>, f: CountField)
    requires forall r :: r in rs1 <==> r in rs2
    ensures MaxCount(rs1, f) == MaxCount(rs2, f)
  {
    MaxCountIsMaximum(rs1, f);
    MaxCountIsMaximum(rs2, f);
    if MaxCount(rs1, f).Some? {
      var k1 :| 0 <= k1 < |rs1| && CountOf(rs1[k1], f) == MaxCount(rs1, f);
      assert rs1[k1] in rs2;
    }
    if MaxCount(rs2, f).Some? {
      var k2 :| 0 <= k2 < |rs2| && CountOf(rs2[k2], f) == MaxCount(rs2, f);
      assert rs2[k2] in rs1;
    }
  }

  /** Two counts of the merge agree when the two result lists hold the same entries. */
  lemma CountsAgree(name: string, r1: seq<Option<Record>>, r2: seq<Option<Record>>, now1: string, now2: string,
                    f: CountField)
    requires forall o :: o in r1 <==> o in r2
    ensures ProfileCount(Merged(name, r1, now1), f) == ProfileCount(Merged(name, r2, now2), f)
  {
    ContributingMembers(r1);
    ContributingMembers(r2);
    MaxCountByElements(Contributing(r1), Contributing(r2), f);
  }

  lemma SetsAgree(name: string, r1: seq<Option<Record>>, r2: seq<Option<Record>>, now: string)
    requires forall o :: o in r1 <==> o in r2
    ensures Merged(name, r1, now).sources == Merged(name, r2, now).sources
    ensures Merged(name, r1, now).fieldsOfStudy == Merged(name, r2, now).fieldsOfStudy
  {
    MergedSetsAreUnions(name, r1, now);
    MergedSetsAreUnions(name, r2, now);
  }

  lemma OrcidPresenceAgrees(name: string, r1: seq<Option<Record>>, r2: seq<Option<Record>>, now: string)
    requires forall o :: o in r1 <==> o in r2
    ensures Truthy(Merged(name, r1, now).orcid) == Truthy(Merged(name, r2, now).orcid)
  {
    MergedIdIsFirstTruthy(name, r1, now, OrcidField);
    MergedIdIsFirstTruthy(name, r2, now, OrcidField);
    if Merged(name, r1, now).orcid.None? {
      forall k | 0 <= k < |r2| ensures !Truthy(RawId(r2[k], OrcidField)) {
        assert r2[k] in r1;
      }
    }
    if Merged(name, r2, now).orcid.None? {
      forall k | 0 <= k < |r1| ensures !Truthy(RawId(r1[k], OrcidField)) {
        assert r1[k] in r2;
      }
    }
  }

  /**
   * The counts, sources, fields of study and confidence of the merge depend
   * only on which results arrived, not on their order or repetition.
   */
  lemma MergeIgnoresOrder(name: string, r1: seq<Option<Record>>, r2: seq<Option<Record>>, now: string)
    requires forall o :: o in r1 <==> o in r2
    ensures Merged(name, r1, now).paperCount == Merged(name, r2, now).paperCount
    ensures Merged(name, r1, now).citationCount == Merged(name, r2, now).citationCount
    ensures Merged(name, r1, now).hIndex == Merged(name, r2, now).hIndex
    ensures Merged(name, r1, now).sources == Merged(name, r2, now).sources
    ensures Merged(name, r1, now).fieldsOfStudy == Merged(name, r2, now).fieldsOfStudy
    ensures Merged(name, r1, now).confidenceScore == Merged(name, r2, now).confidenceScore
  {
    var m1 := Merged(name, r1, now);
    var m2 := Merged(name, r2, now);
    assert m1.paperCount == m2.paperCount by {
      CountsAgree(name, r1, r2, now, now, PaperCountField);
      assert ProfileCount(m1, PaperCountField) == Some(m1.paperCount);
      assert ProfileCount(m2, PaperCountField) == Some(m2.paperCount);
    }
    assert m1.citationCount == m2.citationCount by {
      CountsAgree(name, r1, r2, now, now, CitationCountField);
      assert ProfileCount(m1, CitationCountField) == Some(m1.citationCount);
      assert ProfileCount(m2, CitationCountField) == Some(m2.citationCount);
    }
    assert m1.hIndex == m2.hIndex by {
      CountsAgree(name, r1, r2, now, now, HIndexField);
      assert ProfileCount(m1, HIndexField) == m1.hIndex;
      assert ProfileCount(m2, HIndexField) == m2.hIndex;
    }
    SetsAgree(name, r1, r2, now);
    assert Truthy(m1.orcid) == Truthy(m2.orcid) by {
      OrcidPresenceAgrees(name, r1, r2, now);
    }
    assert m1.confidenceScore == ConfidenceScore(m1.sources, m1.paperCount, m1.citationCount, m1.orcid, m1.hIndex);
    assert m2.confidenceScore == ConfidenceScore(m2.sources, m2.paperCount, m2.citationCount, m2.orcid, m2.hIndex);
  }

  lemma SingleRecordMerge(r: Record)
    ensures forall f :: FirstTruthy([r], f) == (if Truthy(IdOf(r, f)) then IdOf(r, f) else None)
    ensures forall f :: MaxCount([r], f) == CountOf(r, f)
    ensures SourcesOf([r]) == r.sources && FieldsOf([r]) == r.fieldsOfStudy
    ensures AffiliationsOf([r]) == r.affiliations
  {
    assert [r][..0] == [];
    forall f ensures MaxCount([r], f) == CountOf(r, f) {
      assert CountsOf([r], f) == (if CountOf(r, f).Some? then [CountOf(r, f).value] else []);
    }
  }

  /** Corollary of `MergedIdIsFirstTruthy` for every identifier field at once: none is a falsy value. */
  lemma MergedIdsAreNoneOrTruthy(name: string, results: seq<Option<Record>>, now: string)
    ensures forall f :: ProfileId(Merged(name, results, now), f).None? || Truthy(ProfileId(Merged(name, results, now), f))
  {
    forall f ensures ProfileId(Merged(name, results, now), f).None? || Truthy(ProfileId(Merged(name, results, now), f)) {
      MergedIdIsFirstTruthy(name, results, now, f);
    }
  }

  /** The merge of one non-empty record, field by field. */
  lemma MergeOfOneRecord(name: string, r: Record, now: string)
    requires r != EmptyRecord
    ensures Merged(name, [Some(r)], now).authorId == (if Truthy(r.authorId) then r.authorId else None)
    ensures Merged(name, [Some(r)], now).orcid == (if Truthy(r.orcid) then r.orcid else None)
    ensures Merged(name, [Some(r)], now).homepageUrl == (if Truthy(r.homepageUrl) then r.homepageUrl else None)
    ensures Merged(name, [Some(r)], now).profileImageUrl ==
            (if Truthy(r.profileImageUrl) then r.profileImageUrl else None)
    ensures Merged(name, [Some(r)], now).paperCount == CountOrZero(r.paperCount)
    ensures Merged(name, [Some(r)], now).citationCount == CountOrZero(r.citationCount)
    ensures Merged(name, [Some(r)], now).hIndex == r.hIndex
    ensures Merged(name, [Some(r)], now).affiliations == Dedup(r.affiliations)
    ensures Merged(name, [Some(r)], now).sources == r.sources
    ensures Merged(name, [Some(r)], now).fieldsOfStudy == r.fieldsOfStudy
  {
    assert Contributing([Some(r)]) == [r] by {
      ContributingStep([], Some(r));
      assert [] + [Some(r)] == [Some(r)];
    }
    SingleRecordMerge(r);
    assert FirstTruthy([r], AuthorIdField) == (if Truthy(r.authorId) then r.authorId else None);
    assert FirstTruthy([r], OrcidField) == (if Truthy(r.orcid) then r.orcid else None);
    assert FirstTruthy([r], HomepageField) == (if Truthy(r.homepageUrl) then r.homepageUrl else None);
    assert FirstTruthy([r], ImageField) == (if Truthy(r.profileImageUrl) then r.profileImageUrl else None);
    assert MaxCount([r], PaperCountField) == r.paperCount;
    assert MaxCount([r], CitationCountField) == r.citationCount;
    assert MaxCount([r], HIndexField) == r.hIndex;
  }

  /**
   * A profile whose identifiers are absent or truthy, whose affiliations
   * have distinct keys and whose score matches its fields is a fixed point
   * of merging it on its own, up to the time stamp.
   */
  lemma RemergeIsIdentity(name: string, p: Profile, later: string)
    requires p.name == name && p.email == None
    requires p.authorId.None? || Truthy(p.authorId)
    requires p.orcid.None? || Truthy(p.orcid)
    requires p.homepageUrl.None? || Truthy(p.homepageUrl)
    requires p.profileImageUrl.None? || Truthy(p.profileImageUrl)
    requires DistinctKeys(p.affiliations)
    requires p.confidenceScore == ConfidenceScore(p.sources, p.paperCount, p.citationCount, p.orcid, p.hIndex)
    ensures Merged(name, [Some(AsRecord(p))], later) == p.(lastUpdated := later)
  {
    MergeOfOneRecord(name, AsRecord(p), later);
    DedupOfDistinct(p.affiliations);
  }

  /**
   * Merging a merged profile on its own gives the same profile back,
   * stamped with the new time: the merge is stable under re-merging.
   */
  lemma MergeOfOwnOutput(name: string, results: seq<Option<Record>>, now: string, later: string)
    ensures Merged(name, [Some(AsRecord(Merged(name, results, now)))], later)
            == Merged(name, results, now).(lastUpdated := later)
  {
    var p := Merged(name, results, now);
    assert p.authorId.None? || Truthy(p.authorId) by {
      MergedIdIsFirstTruthy(name, results, now, AuthorIdField);
    }
    assert p.orcid.None? || Truthy(p.orcid) by {
      MergedIdIsFirstTruthy(name, results, now, OrcidField);
    }
    assert p.homepageUrl.None? || Truthy(p.homepageUrl) by {
      MergedIdIsFirstTruthy(name, results, now, HomepageField);
    }
    assert p.profileImageUrl.None? || Truthy(p.profileImageUrl) by {
      MergedIdIsFirstTruthy(name, results, now, ImageField);
    }
    assert DistinctKeys(p.affiliations) by {
      MergedAffiliationsAreDeduplicated(name, results, now);
    }
    RemergeIsIdentity(name, p, later);
  }

  /** With `first` listed first, each truthy identifier of `first` survives a merge untouched. */
  lemma FirstLeadingRecordWins(first: Record, rest: seq<Option<Record>>, f: IdField)
    requires Truthy(IdOf(first, f))
    ensures FirstTruthyRaw([Some(first)] + rest, f) == IdOf(first, f)
  {
    FirstTruthyRawIsFirst([Some(first)] + rest, f);
    var w := FirstTruthyRaw([Some(first)] + rest, f);
    assert RawId(([Some(first)] + rest)[0], f) == IdOf(first, f);
    var k :| 0 <= k < |[Some(first)] + rest| && RawId(([Some(first)] + rest)[k], f) == w
             && forall j :: 0 <= j < k ==> !Truthy(RawId(([Some(first)] + rest)[j], f));
    assert k == 0;
  }

  /**
   * Merging a profile back with one more record, the profile listed first,
   * never replaces an identifier or URL it already had, never lowers a
   * count, and keeps every source tag.
   */
  lemma MergeBackKeepsIds(name: string, p: Profile, d: Option<Record>, now: string)
    ensures forall f :: Truthy(ProfileId(p, f)) ==>
              ProfileId(Merged(name, [Some(AsRecord(p)), d], now), f) == ProfileId(p, f)
    ensures Merged(name, [Some(AsRecord(p)), d], now).paperCount >= p.paperCount
    ensures Merged(name, [Some(AsRecord(p)), d], now).citationCount >= p.citationCount
    ensures p.sources <= Merged(name, [Some(AsRecord(p)), d], now).sources
  {
    var r := AsRecord(p);
    var m := Merged(name, [Some(r), d], now);
    forall f | Truthy(ProfileId(p, f))
      ensures ProfileId(m, f) == ProfileId(p, f)
    {
      assert IdOf(r, f) == ProfileId(p, f);
      MergedIdIsFirstTruthy(name, [Some(r), d], now, f);
      FirstLeadingRecordWins(r, [d], f);
      assert [Some(r)] + [d] == [Some(r), d];
    }
    MergedCountIsMaximum(name, [Some(r), d], now, PaperCountField);
    MergedCountIsMaximum(name, [Some(r), d], now, CitationCountField);
    assert RawCount([Some(r), d][0], PaperCountField) == Some(p.paperCount);
    assert RawCount([Some(r), d][0], CitationCountField) == Some(p.citationCount);
    MergedSetsAreUnions(name, [Some(r), d], now);
    assert Some(r) in [Some(r), d];
  }
}
