/**
 * The orchestration of `AuthorSearchService.search_author`
 * (authors.py:56-109) and the route around it (authors.py:575-593): a
 * primary merge over every provider result, three enrichment stages each
 * gated on the shape of an identifier and merged back with the profile
 * listed first, and a final identifier normalisation.
 *
 * The answers of the three lookups by identifier are parameters; `None`
 * stands for a call that raised or answered with an error status.
 */
module Search {
  import opened Wrappers
  import opened Records
  import opened Text
  import opened Merge
  import opened Normalize

  /** What the detail lookups answer for a given identifier. */
  datatype Lookups = Lookups(
    s2Details: string -> Option<Record>,
    openAlexDetails: string -> Option<Record>,
    orcidRecord: string -> Option<Record>)

  /** `if details:` holds for a returned, non-empty dictionary. */
  predicate Answered(d: Option<Record>) {
    d.Some? && d.value != EmptyRecord
  }

  /** Python raising `AttributeError` on `None.isdigit()`. */
  datatype SearchError = IsdigitOnNone

  // ---------------------------------------------------------------------
  // The stage triggers: the identifier each lookup is called with, if any.
  // ---------------------------------------------------------------------

  /**
   * The Semantic Scholar trigger at :83 as written. The merged profile
   * always holds the key `author_id`, so `.get("author_id", "")` yields
   * `None` when no author id was found, and `.isdigit()` raises.
   */
  function S2TriggerAsWritten(p: Profile): (t: Result<Option<string>, SearchError>)
    ensures t.Failure? <==> p.authorId.None?
    ensures t.Success? ==> t.value == S2Trigger(p)
  {
    if p.authorId.None? then Failure(IsdigitOnNone)
    else if IsDigits(p.authorId.value) then Success(p.authorId)
    else Success(None)
  }

  /** The Semantic Scholar trigger as intended: a missing author id reads as "". */
  function S2Trigger(p: Profile): (t: Option<string>)
    ensures t.Some? ==> t == p.authorId && IsDigits(t.value)
    ensures p.authorId.Some? && IsDigits(p.authorId.value) ==> t.Some?
  {
    var aid := OrEmpty(p.authorId);
    if IsDigits(aid) then Some(aid) else None
  }

  /** `"openalex.org" in aid or (aid.startswith("A") and aid[1:].isdigit())`. */
  predicate LooksLikeOpenAlex(aid: string) {
    Contains(aid, "openalex.org") || (|aid| > 0 && aid[0] == 'A' && IsDigits(aid[1..]))
  }

  /** The OpenAlex trigger (:90-95): the last `/` segment of such an id, when it is not empty. */
  function OpenAlexTrigger(p: Profile): (t: Option<string>)
    ensures t.Some? ==> p.authorId.Some? && LooksLikeOpenAlex(p.authorId.value)
                        && t.value == LastSegment(p.authorId.value)
    ensures p.authorId.Some? && LooksLikeOpenAlex(p.authorId.value) && LastSegment(p.authorId.value) != "" ==>
              t == Some(LastSegment(p.authorId.value))
    ensures t.Some? ==> t.value != "" && '/' !in t.value
  {
    var aid := OrEmpty(p.authorId);
    if LooksLikeOpenAlex(aid) then
      var id := LastSegment(aid);
      if id != "" then Some(id) else None
    else None
  }

  /** The ORCID trigger (:100-102): a truthy orcid, cut to its last `/` segment (which may be empty). */
  function OrcidTrigger(p: Profile): (t: Option<string>)
    ensures t.Some? <==> Truthy(p.orcid)
    ensures t.Some? ==> t.value == LastSegment(p.orcid.value) && '/' !in t.value
  {
    if Truthy(p.orcid) then Some(LastSegment(p.orcid.value)) else None
  }

  // ---------------------------------------------------------------------
  // The stages and the whole search.
  // ---------------------------------------------------------------------

  /** `merged_profile = self._merge_author_data(name, [merged_profile, details])` if the details are truthy. */
  function MergeBack(name: string, p: Profile, d: Option<Record>, now: string): Profile {
    if Answered(d) then Merged(name, [Some(AsRecord(p)), d], now) else p
  }

  /** One enrichment stage: call the lookup when the trigger fired and merge its answer back. */
  function Stage(name: string, p: Profile, t: Option<string>, lookup: string -> Option<Record>, now: string): Profile {
    if t.Some? then MergeBack(name, p, lookup(t.value), now) else p
  }

  /** The three stages after the primary merge, given the Semantic Scholar trigger. */
  function Threaded(name: string, primary: Profile, s2: Option<string>, lk: Lookups, now: string): Profile {
    var p1 := Stage(name, primary, s2, lk.s2Details, now);
    var p2 := Stage(name, p1, OpenAlexTrigger(p1), lk.openAlexDetails, now);
    Stage(name, p2, OrcidTrigger(p2), lk.orcidRecord, now)
  }

  /** The stages followed by the identifier normalisation. */
  function EnrichFrom(name: string, primary: Profile, s2: Option<string>, lk: Lookups, now: string): Profile {
    NormalizeIdentifiers(Threaded(name, primary, s2, lk, now))
  }

  /** The search as written: it fails when the primary merge found no author id. */
  function SearchAsWritten(name: string, profiles: seq<Option<Record>>, fallbacks: seq<Option<Record>>,
                           lk: Lookups, now: string): Result<Profile, SearchError> {
    var primary := Merged(name, profiles + fallbacks, now);
    match S2TriggerAsWritten(primary)
    case Failure(e) => Failure(e)
    case Success(s2) => Success(EnrichFrom(name, primary, s2, lk, now))
  }

  /** The search as intended: it never fails. */
  function Search(name: string, profiles: seq<Option<Record>>, fallbacks: seq<Option<Record>>,
                  lk: Lookups, now: string): Profile {
    var primary := Merged(name, profiles + fallbacks, now);
    EnrichFrom(name, primary, S2Trigger(primary), lk, now)
  }

  /** The enrichment stages, reassigning the profile step by step. */
  method Enrich(name: string, primary: Profile, s2: Option<string>, lk: Lookups, now: string)
    returns (p: Profile)
    ensures p == EnrichFrom(name, primary, s2, lk, now)
  {
    p := primary;
    if s2.Some? {
      var details := lk.s2Details(s2.value);
      if Answered(details) {
        p := MergeAuthorData(name, [Some(AsRecord(p)), details], now);
      }
    }
    var openAlexId := OpenAlexTrigger(p);
    if openAlexId.Some? {
      var details := lk.openAlexDetails(openAlexId.value);
      if Answered(details) {
        p := MergeAuthorData(name, [Some(AsRecord(p)), details], now);
      }
    }
    var orcidId := OrcidTrigger(p);
    if orcidId.Some? {
      var details := lk.orcidRecord(orcidId.value);
      if Answered(details) {
        p := MergeAuthorData(name, [Some(AsRecord(p)), details], now);
      }
    }
    p := NormalizeIdentifiers(p);
  }

  /** `search_author` as written, the raised error made an explicit outcome. */
  method SearchAuthor(name: string, profiles: seq<Option<Record>>, fallbacks: seq<Option<Record>>,
                      lk: Lookups, now: string)
    returns (r: Result<Profile, SearchError>)
    ensures r == SearchAsWritten(name, profiles, fallbacks, lk, now)
    ensures r.Failure? <==> Merged(name, profiles + fallbacks, now).authorId.None?
  {
    var merged := MergeAuthorData(name, profiles + fallbacks, now);
    var s2 := S2TriggerAsWritten(merged);
    if s2.Failure? {
      return Failure(s2.error);
    }
    var p := Enrich(name, merged, s2.value, lk, now);
    r := Success(p);
  }

  /** `search_author` with the S2 trigger reading a missing author id as "". */
  method SearchAuthorCorrected(name: string, profiles: seq<Option<Record>>, fallbacks: seq<Option<Record>>,
                               lk: Lookups, now: string)
    returns (p: Profile)
    ensures p == Search(name, profiles, fallbacks, lk, now)
  {
    var merged := MergeAuthorData(name, profiles + fallbacks, now);
    p := Enrich(name, merged, S2Trigger(merged), lk, now);
  }

  // ---------------------------------------------------------------------
  // The route.
  // ---------------------------------------------------------------------

  datatype Response = Ok(profile: Profile) | NotFound | InternalServerError

  /** `paper_count == 0 and not citation_count and not orcid` (:586). */
  predicate NoAuthorFound(p: Profile) {
    p.paperCount == 0 && p.citationCount == 0 && !Truthy(p.orcid)
  }

  /** A found profile is returned, an empty one is a 404, a raised error a 500. */
  function Route(r: Result<Profile, SearchError>): (resp: Response)
    ensures resp == InternalServerError <==> r.Failure?
    ensures resp == NotFound <==> r.Success? && NoAuthorFound(r.value)
    ensures resp.Ok? ==> r == Success(resp.profile)
  {
    match r
    case Failure(_) => InternalServerError
    case Success(p) => if NoAuthorFound(p) then NotFound else Ok(p)
  }

  // ---------------------------------------------------------------------
  // What the search promises.
  // ---------------------------------------------------------------------

  /**
   * The search as written fails exactly when no provider result carried a
   * truthy author id, and otherwise computes the intended search.
   */
  lemma AsWrittenFailsWithoutAuthorId(name: string, profiles: seq<Option<Record>>,
                                      fallbacks: seq<Option<Record>>, lk: Lookups, now: string)
    ensures SearchAsWritten(name, profiles, fallbacks, lk, now).Failure? <==>
              forall k :: 0 <= k < |profiles + fallbacks| ==> !Truthy(RawId((profiles + fallbacks)[k], AuthorIdField))
    ensures SearchAsWritten(name, profiles, fallbacks, lk, now).Success? ==>
              SearchAsWritten(name, profiles, fallbacks, lk, now).value == Search(name, profiles, fallbacks, lk, now)
  {
    MergedIdIsFirstTruthy(name, profiles + fallbacks, now, AuthorIdField);
  }

  /** A digit string never looks like an OpenAlex id. */
  lemma DigitsAreNotOpenAlex(aid: string)
    requires IsDigits(aid)
    ensures !LooksLikeOpenAlex(aid)
  {
    if Contains(aid, "openalex.org") {
      ContainsCharacter(aid, "openalex.org", 0);
    }
  }

  /**
   * The OpenAlex test accepts `A` followed by digits and any id holding
   * `openalex.org`, such as an author URL; a lone `A` is not an id, since
   * `"".isdigit()` is false, nor is a lower-case `a` followed by digits.
   */
  lemma OpenAlexIdForms(digits: string, scheme: string, path: string)
    requires IsDigits(digits)
    ensures LooksLikeOpenAlex("A" + digits)
    ensures LooksLikeOpenAlex(scheme + "openalex.org" + path)
    ensures !LooksLikeOpenAlex("A")
    ensures !LooksLikeOpenAlex("a" + digits)
  {
    assert ("A" + digits)[1..] == digits;
    ContainsInfix(scheme, "openalex.org", path);
    assert 'o' !in "a" + digits by {
      forall i | 0 < i < |"a" + digits|
        ensures ("a" + digits)[i] != 'o'
      {
        assert ("a" + digits)[i] == digits[i - 1];
      }
    }
    if Contains("a" + digits, "openalex.org") {
      ContainsCharacter("a" + digits, "openalex.org", 0);
    }
  }

  /**
   * A stage never replaces a truthy identifier or URL, never lowers a
   * count and never drops a source tag.
   */
  lemma StageKeeps(name: string, p: Profile, t: Option<string>, lookup: string -> Option<Record>, now: string)
    ensures forall f :: Truthy(ProfileId(p, f)) ==> ProfileId(Stage(name, p, t, lookup, now), f) == ProfileId(p, f)
    ensures Stage(name, p, t, lookup, now).paperCount >= p.paperCount
    ensures Stage(name, p, t, lookup, now).citationCount >= p.citationCount
    ensures p.sources <= Stage(name, p, t, lookup, now).sources
  {
    if t.Some? && Answered(lookup(t.value)) {
      MergeBackKeepsIds(name, p, lookup(t.value), now);
    }
  }

  /** When the Semantic Scholar stage fires, the OpenAlex stage does not. */
  lemma S2AndOpenAlexExclusive(name: string, primary: Profile, lk: Lookups, now: string)
    requires S2Trigger(primary).Some?
    ensures OpenAlexTrigger(Stage(name, primary, S2Trigger(primary), lk.s2Details, now)).None?
  {
    var p1 := Stage(name, primary, S2Trigger(primary), lk.s2Details, now);
    StageKeeps(name, primary, S2Trigger(primary), lk.s2Details, now);
    assert ProfileId(primary, AuthorIdField) == primary.authorId;
    assert p1.authorId == primary.authorId;
    DigitsAreNotOpenAlex(primary.authorId.value);
  }

  /** Threading the three stages keeps identifiers, counts and source tags. */
  lemma StagesKeep(name: string, primary: Profile, s2: Option<string>, lk: Lookups, now: string)
    ensures forall f :: Truthy(ProfileId(primary, f)) ==>
              ProfileId(Threaded(name, primary, s2, lk, now), f) == ProfileId(primary, f)
    ensures Threaded(name, primary, s2, lk, now).paperCount >= primary.paperCount
    ensures Threaded(name, primary, s2, lk, now).citationCount >= primary.citationCount
    ensures primary.sources <= Threaded(name, primary, s2, lk, now).sources
  {
    var p1 := Stage(name, primary, s2, lk.s2Details, now);
    var p2 := Stage(name, p1, OpenAlexTrigger(p1), lk.openAlexDetails, now);
    StageKeeps(name, primary, s2, lk.s2Details, now);
    StageKeeps(name, p1, OpenAlexTrigger(p1), lk.openAlexDetails, now);
    StageKeeps(name, p2, OrcidTrigger(p2), lk.orcidRecord, now);
  }

  /**
   * Enrichment keeps a truthy author id and orcid of the profile it starts
   * from, up to normalisation, leaves no `/` in the orcid, never lowers a
   * count and keeps every source tag.
   */
  lemma EnrichKeeps(name: string, primary: Profile, s2: Option<string>, lk: Lookups, now: string)
    ensures Truthy(primary.authorId) ==>
              EnrichFrom(name, primary, s2, lk, now).authorId == NormalizeIdentifiers(primary).authorId
    ensures Truthy(primary.orcid) ==>
              EnrichFrom(name, primary, s2, lk, now).orcid == NormalizeIdentifiers(primary).orcid
    ensures EnrichFrom(name, primary, s2, lk, now).orcid.Some? ==>
              '/' !in EnrichFrom(name, primary, s2, lk, now).orcid.value
    ensures EnrichFrom(name, primary, s2, lk, now).paperCount >= primary.paperCount
    ensures EnrichFrom(name, primary, s2, lk, now).citationCount >= primary.citationCount
    ensures primary.sources <= EnrichFrom(name, primary, s2, lk, now).sources
  {
    var p3 := Threaded(name, primary, s2, lk, now);
    StagesKeep(name, primary, s2, lk, now);
    assert Truthy(primary.authorId) ==> p3.authorId == primary.authorId by {
      assert ProfileId(primary, AuthorIdField) == primary.authorId;
      assert ProfileId(p3, AuthorIdField) == p3.authorId;
    }
    assert Truthy(primary.orcid) ==> p3.orcid == primary.orcid by {
      assert ProfileId(primary, OrcidField) == primary.orcid;
      assert ProfileId(p3, OrcidField) == p3.orcid;
    }
    NormalizeIsFieldwise(p3, primary);
  }

  /**
   * The final profile keeps the primary merge's author id and orcid, up to
   * normalisation, has no `/` in its orcid, never has lower counts than the
   * primary merge and keeps all its source tags.
   */
  lemma SearchKeepsPrimary(name: string, profiles: seq<Option<Record>>, fallbacks: seq<Option<Record>>,
                           lk: Lookups, now: string)
    ensures Truthy(Merged(name, profiles + fallbacks, now).authorId) ==>
              Search(name, profiles, fallbacks, lk, now).authorId ==
              NormalizeIdentifiers(Merged(name, profiles + fallbacks, now)).authorId
    ensures Truthy(Merged(name, profiles + fallbacks, now).orcid) ==>
              Search(name, profiles, fallbacks, lk, now).orcid ==
              NormalizeIdentifiers(Merged(name, profiles + fallbacks, now)).orcid
    ensures Search(name, profiles, fallbacks, lk, now).orcid.Some? ==>
              '/' !in Search(name, profiles, fallbacks, lk, now).orcid.value
    ensures Search(name, profiles, fallbacks, lk, now).paperCount >= Merged(name, profiles + fallbacks, now).paperCount
    ensures Search(name, profiles, fallbacks, lk, now).citationCount >= Merged(name, profiles + fallbacks, now).citationCount
    ensures Merged(name, profiles + fallbacks, now).sources <= Search(name, profiles, fallbacks, lk, now).sources
  {
    var primary := Merged(name, profiles + fallbacks, now);
    EnrichKeeps(name, primary, S2Trigger(primary), lk, now);
  }

  /**
   * When every provider call failed or found nothing, the intended search
   * answers an empty profile with confidence 0 and the route a 404.
   */
  lemma UnknownAuthorIsNotFound(name: string, profiles: seq<Option<Record>>, fallbacks: seq<Option<Record>>,
                                lk: Lookups, now: string)
    requires forall k :: 0 <= k < |profiles + fallbacks| ==>
               (profiles + fallbacks)[k].None? || (profiles + fallbacks)[k] == Some(EmptyRecord)
    ensures Search(name, profiles, fallbacks, lk, now) ==
            Profile(name, None, None, [], None, None, None, 0, 0, {}, None, now, {}, 0)
    ensures Route(Success(Search(name, profiles, fallbacks, lk, now))) == NotFound
  {
    MergeOfNothing(name, profiles + fallbacks, now);
    assert !Contains("", "openalex.org");
  }

  /** In the same situation the search as written raises, and the route answers a 500. */
  lemma UnknownAuthorIsServerError(name: string, profiles: seq<Option<Record>>, fallbacks: seq<Option<Record>>,
                                   lk: Lookups, now: string)
    requires forall k :: 0 <= k < |profiles + fallbacks| ==>
               (profiles + fallbacks)[k].None? || (profiles + fallbacks)[k] == Some(EmptyRecord)
    ensures Route(SearchAsWritten(name, profiles, fallbacks, lk, now)) == InternalServerError
  {
    MergeOfNothing(name, profiles + fallbacks, now);
  }

  /**
   * An author the providers know by counts alone (no id): as written the
   * route answers 500, while the intended search returns the profile.
   */
  lemma CountsWithoutIdAreLost(name: string, profiles: seq<Option<Record>>, fallbacks: seq<Option<Record>>,
                               lk: Lookups, now: string)
    requires Merged(name, profiles + fallbacks, now).authorId.None?
    requires Merged(name, profiles + fallbacks, now).paperCount > 0
    ensures Route(SearchAsWritten(name, profiles, fallbacks, lk, now)) == InternalServerError
    ensures Route(Success(Search(name, profiles, fallbacks, lk, now))).Ok?
  {
    SearchKeepsPrimary(name, profiles, fallbacks, lk, now);
  }
}
