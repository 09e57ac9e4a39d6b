# Author search resolution, modelled in Dafny

This project models the author resolver of the ScholarAI academic API:
`AuthorSearchService` in `app/api/api_v1/authors.py`. Given a name, the service
asks several providers (Semantic Scholar, OpenAlex, DBLP, Europe PMC, PubMed)
for partial author records: three profile searches, which pick the
best-matching candidate in their provider's answer, and five paper searches,
which each return one aggregated record. It merges all partial records into
one profile with a confidence score. It then enriches that profile in up to three stages keyed on
the shape of its identifiers (a Semantic Scholar id, an OpenAlex id, an ORCID).
Finally it normalises the identifiers. The HTTP routes turn the outcome into a
200, a 404 or a 500.

Modules, one per concern of the source:

| file | module | what it holds |
|---|---|---|
| `wrappers.dfy` | `Wrappers` | `Option` and `Result` |
| `text.dfy` | `Text` | Python string helpers: `isdigit`, `in`, `split("/")[-1]`, `lower`, `replace(".", "")`, `strip`, the matcher's `norm` |
| `records.dfy` | `Records` | provider records, affiliations, the merged profile, Python truthiness |
| `name_match.dfy` | `NameMatch` | `_pick_best_name_match` |
| `score.dfy` | `Score` | the confidence heuristic |
| `merge.dfy` | `Merge` | `_merge_author_data`: the collection loop, the seen-set deduplication and the merged profile |
| `normalize.dfy` | `Normalize` | `_normalize_identifiers` |
| `search.dfy` | `Search` | `search_author`'s stages and the route's status decision |
| `decoders.dfy` | `Decoders` | ORCID employments and Semantic Scholar affiliation shapes |

How the source's Python values are represented:
- A provider record is a `Record`. An absent key and a `None` value are both `None`.
- The empty dictionary `{}` is `EmptyRecord`.
- A provider call that raised, or returned something that is not a dictionary, is `None` in the `seq<Option<Record>>` handed to the merge.
- `sources` and `fields_of_study` are sets. The merge only ever folds them into sets.
- The confidence score is in integer hundredths (0.7 is 70). Every term of the formula is a multiple of 0.1.
- The merge, the name matcher and the two decoders are methods with loops. The search (`Search.SearchAuthor`, `Search.SearchAuthorCorrected`, `Search.Enrich`) has no loop: it reassigns the profile stage by stage. The merge, search and decoder methods are each proved equal to a specification function (`Merge.Merged`, `Search.SearchAsWritten`, `Search.Search`, `Search.EnrichFrom`, `Decoders.S2AffiliationsOf`, ...), and the lemmas state what the source promises about those functions. The name matcher (`NameMatch.Scan`, `NameMatch.ScanCandidates`, `NameMatch.PickBestNameMatch`) has no such function: its ensures characterise the chosen index directly (first exact match, else first partial match, else the first candidate).

## Model

| member | source | states |
|---|---|---|
| `NameMatch.PickBestNameMatch` | app/api/api_v1/authors.py:325-354 | none exactly when the list is empty; otherwise the first candidate with a name equal to the target after `norm`, else the first whose normalised name contains the target or is contained in it, else the first candidate |
| `NameMatch.ScanCandidates` | app/api/api_v1/authors.py:330-353 | the scan for any normaliser: the same three-way outcome, where "first" means no earlier candidate of that kind |
| `NameMatch.Scan` | app/api/api_v1/authors.py:330-354 | the loop with `continue` on a nameless candidate and `break` on an exact match, over any per-candidate tests in which a nameless candidate matches neither way: none iff there are no candidates, else the first exact match, else the first partial match, else candidate 0 |
| `NameMatch.NamelessMatchesNothing` | app/api/api_v1/authors.py:345-347 | a name list whose entries are all falsy matches neither exactly nor partially, so skipping it loses nothing |
| `NameMatch.NamelessCandidate` | app/api/api_v1/authors.py:345-347 | a candidate that exposes no names is neither an exact nor a partial match |
| `NameMatch.RawNames` | app/api/api_v1/authors.py:332-345 | each provider shape exposes its primary name first, then its aliases (Semantic Scholar) or alternatives (OpenAlex); DBLP and the plain shape expose one name, DBLP's being its `author` when that is truthy and its `name` otherwise |
| `NameMatch.RawNamesMatch` | app/api/api_v1/authors.py:332-348 | an exact match is on the name or an alias for Semantic Scholar, the display name or an alternative for OpenAlex, the author and only failing that the name for DBLP, and the name otherwise |
| `Text.NormIsCanonical` | app/api/api_v1/authors.py:327-328 | a normalised name has no period and no ASCII upper-case letter, and neither starts nor ends with white space |
| `Text.Norm` | app/api/api_v1/authors.py:327-328 | the matcher's `norm`: lower-case, then remove periods, then strip; its properties are stated by the lemmas below |
| `Text.NormOfNormal` | app/api/api_v1/authors.py:327-328 | a name that is already lower-case, period-free and trimmed is its own normal form |
| `Text.NormIdempotent` | app/api/api_v1/authors.py:327-328 | normalising a normalised name changes nothing |
| `Text.StripIsTrimmedSlice` | app/api/api_v1/authors.py:328 | `strip()` keeps a contiguous slice that neither starts nor ends with white space, and all it removes on either side is white space |
| `Text.StripOfTrimmed` | app/api/api_v1/authors.py:328 | a string with white space at neither end is its own strip |
| `Text.StripLeftIsSuffix` | app/api/api_v1/authors.py:328 | the left trim removes only leading white space and keeps a suffix not starting with white space |
| `Text.StripRightIsPrefix` | app/api/api_v1/authors.py:328 | the right trim removes only trailing white space and keeps a prefix not ending with white space |
| `Text.LowerHasNoUpper` | app/api/api_v1/authors.py:328 | `lower()` keeps the length, lower-cases each character in place, and leaves no ASCII upper-case letter |
| `Text.LowerOfLower` | app/api/api_v1/authors.py:328 | `lower()` leaves a string without upper-case letters unchanged |
| `Text.RemoveDotsKeeps` | app/api/api_v1/authors.py:328 | `replace(".", "")` leaves no period, adds no character, never lengthens, and leaves a string without periods unchanged |
| `Text.RemoveDotsAppend` | app/api/api_v1/authors.py:328 | period removal works character by character: it distributes over concatenation |
| `Text.LastSegment` | app/api/api_v1/authors.py:102 | `split("/")[-1]` is the suffix after the last `/`: it holds no `/`, is preceded by a `/` when shorter than the input, and is the whole input when that has no `/` |
| `Text.ContainsCharacter` | app/api/api_v1/authors.py:92 | every character of an occurring substring occurs in the string |
| `Text.ContainsInfix` | app/api/api_v1/authors.py:92 | `sub in u + sub + v` holds for every prefix `u` and suffix `v` |
| `Merge.MergeAuthorData` | app/api/api_v1/authors.py:356-453 | the merge method computes `Merged`; its name is the query name, its email is None, its affiliations have pairwise distinct keys |
| `Merge.Merged` | app/api/api_v1/authors.py:356-453 | the merged profile as a function of the results; what it is follows from the lemmas below |
| `Merge.CollectFields` | app/api/api_v1/authors.py:381-412 | the collection loop gathers the source union, the integer counts in order, the first truthy identifiers and URLs, the concatenated affiliations and the union of fields of study |
| `Merge.DeduplicateAffiliations` | app/api/api_v1/authors.py:421-433 | the seen-set loop computes the deduplication `Dedup` |
| `Merge.FinishMerge` | app/api/api_v1/authors.py:415-451 | given the collected values, the maximum of each count (0, 0 and None when nothing was supplied), the seen-set pass and the score yield `Merged`, with distinct affiliation keys |
| `Merge.AssembledIsMerged` | app/api/api_v1/authors.py:356-453 | a profile that follows every field rule of the merge is the merged profile |
| `Merge.ContributingMembers` | app/api/api_v1/authors.py:375 | exactly the successful, non-empty results contribute to the merge |
| `Merge.SkipsFailedResult` | app/api/api_v1/authors.py:375 | inserting a failed call or an empty result anywhere leaves the merge as it is |
| `Merge.MergedIdIsFirstTruthy` | app/api/api_v1/authors.py:395-403 | `author_id`, `orcid`, `homepage_url` and `profile_image_url` are each the value of the first result, in input order, in which that field is truthy; absent exactly when none is truthy; never a falsy value |
| `Merge.FirstTruthyRawIsFirst` | app/api/api_v1/authors.py:395-403 | the first-truthy fold over raw results: not falsy, absent iff no truthy value, and equal to the first truthy one |
| `Merge.ContributingKeepsFirstTruthy` | app/api/api_v1/authors.py:375-403 | filtering out failed and empty results before the fold does not change which value wins |
| `Merge.MergedCountIsMaximum` | app/api/api_v1/authors.py:378-418 | paper count, citation count and h-index are the largest value any result supplied, never exceeded by an input; 0, 0 and None when none supplied one |
| `Merge.MaxCountIsMaximum` | app/api/api_v1/authors.py:416-418 | `max(values) if values else None` over contributing records: absent iff no record has the field, otherwise a supplied value bounding all supplied values |
| `Merge.CountsOfMembers` | app/api/api_v1/authors.py:388-393 | the collected counts are exactly the integer values the records supply |
| `Merge.MaxOf` | app/api/api_v1/authors.py:416 | `max` of a non-empty list is an element and bounds every element |
| `Merge.MergedSetsAreUnions` | app/api/api_v1/authors.py:384-436 | sources and fields of study of the merge are exactly the unions of those of all results |
| `Merge.SourcesOfMembers` | app/api/api_v1/authors.py:384-385 | the collected sources are exactly those of some contributing record |
| `Merge.FieldsOfMembers` | app/api/api_v1/authors.py:409-413 | the collected fields of study are exactly those of some contributing record |
| `Merge.AffiliationsOfMembers` | app/api/api_v1/authors.py:406-407 | the concatenated affiliations are exactly those of some contributing record |
| `Merge.MergedAffiliationsAreDeduplicated` | app/api/api_v1/authors.py:406-433 | the merged affiliations come from the results, no two share an (institution_id, institution_name, country) key, and every key of every input occurs |
| `Merge.DedupProperties` | app/api/api_v1/authors.py:421-433 | deduplication keeps exactly the input's keys, adds nothing and leaves distinct keys |
| `Merge.DedupKeepsFirstOccurrence` | app/api/api_v1/authors.py:421-433 | an entry whose key has not occurred before it is kept |
| `Merge.DedupExtends` | app/api/api_v1/authors.py:421-433 | deduplicating a longer list extends the deduplication of its prefix, so relative order is preserved |
| `Merge.DedupOfDistinct` | app/api/api_v1/authors.py:421-433 | a list without repeated keys is returned as it is |
| `Merge.MergeOfNothing` | app/api/api_v1/authors.py:358-451 | when every call failed or found nothing, the merge is the empty profile under the query name with confidence 0 |
| `Merge.MergeIgnoresOrder` | app/api/api_v1/authors.py:378-451 | counts, h-index, sources, fields of study and confidence depend only on which results arrived, not on their order or repetition |
| `Merge.MaxCountByElements` | app/api/api_v1/authors.py:416-418 | the maximum of a count depends only on which records are present |
| `Merge.CountsAgree` | app/api/api_v1/authors.py:378-418 | two result lists with the same entries give the same merged counts |
| `Merge.SetsAgree` | app/api/api_v1/authors.py:384-436 | two result lists with the same entries give the same sources and fields of study |
| `Merge.OrcidPresenceAgrees` | app/api/api_v1/authors.py:397-398 | whether the merge has an orcid does not depend on the order of the results |
| `Merge.MergeOfOwnOutput` | app/api/api_v1/authors.py:356-453 | re-merging a merged profile on its own gives it back, stamped with the new time |
| `Merge.RemergeIsIdentity` | app/api/api_v1/authors.py:356-453 | a profile under the query name with no email, identifiers absent or truthy, distinct affiliation keys and a matching score is returned unchanged, up to the time stamp, when merged on its own |
| `Merge.MergeOfOneRecord` | app/api/api_v1/authors.py:375-451 | the merge of one non-empty record keeps its truthy identifiers and drops the falsy ones, turns missing counts into 0, 0 and None, deduplicates its affiliations and keeps its sources and fields of study |
| `Merge.SingleRecordMerge` | app/api/api_v1/authors.py:382-418 | folding a single record keeps its truthy identifiers, its counts, its sources, fields of study and affiliations as they are |
| `Merge.MergedIdsAreNoneOrTruthy` | app/api/api_v1/authors.py:395-403 | the corollary of `Merge.MergedIdIsFirstTruthy` over all identifier fields at once: no merged identifier or URL is a falsy value |
| `Merge.MergeBackKeepsIds` | app/api/api_v1/authors.py:87 | merging a profile back with the profile listed first never replaces a truthy identifier or URL, never lowers paper or citation count, and keeps every source tag |
| `Merge.FirstLeadingRecordWins` | app/api/api_v1/authors.py:396-403 | a truthy field of the first record always wins |
| `Score.ConfidenceScore` | app/api/api_v1/authors.py:439-451 | the confidence lies between 0 and 100 hundredths |
| `Score.ScoreZeroIff` | app/api/api_v1/authors.py:439-451 | the score is zero exactly when there is no authoritative source, both counts are 0, and neither orcid nor h-index is truthy |
| `Score.OneSourceNeverFull` | app/api/api_v1/authors.py:441-442 | with at most one authoritative source the score is at most 90 |
| `Score.ScoreMonotoneInSources` | app/api/api_v1/authors.py:441-442 | more sources never lower the score |
| `Score.ThirdSourceAddsNothing` | app/api/api_v1/authors.py:442 | with two authoritative sources already present, more sources add nothing |
| `Score.TwoSourcesAndCountsScoreFull` | app/api/api_v1/authors.py:439-451 | two distinct authoritative sources and non-zero counts give full confidence |
| `Normalize.NormalizeIdentifiers` | app/api/api_v1/authors.py:560-571 | only `author_id` and `orcid` change; an `author_id` containing `openalex.org/` becomes its last `/` segment, which holds no `/`, and any other `author_id` is kept; a present orcid becomes its last `/` segment (itself when it has no `/`) and a missing one stays missing |
| `Normalize.NormalizeIdempotent` | app/api/api_v1/authors.py:560-571 | normalising twice equals normalising once |
| `Normalize.NormalizeIsFieldwise` | app/api/api_v1/authors.py:563-570 | each identifier is normalised from its own old value alone |
| `Normalize.NoSlashNoMarker` | app/api/api_v1/authors.py:565-566 | an id without `/` never contains the OpenAlex URL marker |
| `Search.S2TriggerAsWritten` | app/api/api_v1/authors.py:83 | the trigger as written raises exactly when the merged profile has no author id, and otherwise yields what the corrected trigger does |
| `Search.S2Trigger` | app/api/api_v1/authors.py:83-84 | the Semantic Scholar id is present only as the author id itself when that is all digits, and is present whenever the author id is all digits |
| `Search.OpenAlexTrigger` | app/api/api_v1/authors.py:90-94 | the OpenAlex id is present only for an author id that contains `openalex.org` or is `A` followed by digits, and is then that id's last `/` segment; it is present whenever that segment is non-empty; it is never empty and holds no `/` |
| `Search.OrcidTrigger` | app/api/api_v1/authors.py:100-102 | the ORCID id is present exactly when orcid is truthy, and is then the orcid's last `/` segment, which holds no `/` |
| `Search.LooksLikeOpenAlex` | app/api/api_v1/authors.py:92 | the OpenAlex test: the id contains `openalex.org`, or is `A` followed by a non-empty run of digits |
| `Search.OpenAlexIdForms` | app/api/api_v1/authors.py:92 | the test accepts `A` followed by digits and any string holding `openalex.org`, and rejects a lone `A` and a lower-case `a` followed by digits |
| `Search.MergeBack` | app/api/api_v1/authors.py:86-87 | a truthy answer is merged with the current profile listed first; a failed or empty answer leaves the profile as it is |
| `Search.Stage` | app/api/api_v1/authors.py:84-105 | a stage calls its lookup only when its trigger fired, with the trigger's id, and merges the answer back |
| `Search.Enrich` | app/api/api_v1/authors.py:82-108 | the enrichment method computes `EnrichFrom`: the three stages in order, each merging back a truthy answer with the current profile listed first, then normalisation |
| `Search.SearchAuthor` | app/api/api_v1/authors.py:56-109 | the search as written computes `SearchAsWritten` and fails exactly when the primary merge has no author id |
| `Search.SearchAuthorCorrected` | app/api/api_v1/authors.py:56-109 | the search with the missing id read as "" computes `Search` |
| `Search.Route` | app/api/api_v1/authors.py:579-593 | an error is a 500; a profile with paper count 0, citation count 0 and no truthy orcid is a 404; anything else is returned |
| `Search.NoAuthorFound` | app/api/api_v1/authors.py:586 | the 404 condition: paper count 0, citation count 0 and no truthy orcid |
| `Search.AsWrittenFailsWithoutAuthorId` | app/api/api_v1/authors.py:80-83 | the search as written fails exactly when no provider result carried a truthy author id, and otherwise equals the corrected search |
| `Search.DigitsAreNotOpenAlex` | app/api/api_v1/authors.py:92 | an all-digit id never looks like an OpenAlex id |
| `Search.S2AndOpenAlexExclusive` | app/api/api_v1/authors.py:83-95 | when the Semantic Scholar stage fires, the OpenAlex stage does not |
| `Search.StageKeeps` | app/api/api_v1/authors.py:84-105 | a stage never replaces a truthy identifier or URL, never lowers a count and never drops a source tag |
| `Search.StagesKeep` | app/api/api_v1/authors.py:82-105 | the same holds across all three stages |
| `Search.EnrichKeeps` | app/api/api_v1/authors.py:82-108 | from any starting profile, enrichment keeps a truthy author id and orcid up to normalisation, leaves no `/` in the orcid, never lowers a count and keeps every source tag |
| `Search.SearchKeepsPrimary` | app/api/api_v1/authors.py:80-108 | the final profile keeps the primary merge's truthy author id and orcid (up to normalisation) and its source tags, has no `/` in its orcid, and never has lower counts |
| `Search.UnknownAuthorIsNotFound` | app/api/api_v1/authors.py:586-587 | when every call failed or found nothing, the corrected search returns the empty profile with confidence 0 and the route answers 404 |
| `Search.UnknownAuthorIsServerError` | app/api/api_v1/authors.py:591-593 | in the same situation the search as written raises and the route answers 500 |
| `Search.CountsWithoutIdAreLost` | app/api/api_v1/authors.py:83 | results with counts but no author id make the route as written answer 500, while the corrected search returns the profile |
| `Decoders.YearDate` | app/api/api_v1/authors.py:548-549 | a date is produced exactly for a truthy year, and it is that year followed by a six-character suffix (`-01-01`) |
| `Decoders.EmploymentAffiliation` | app/api/api_v1/authors.py:540-550 | an employment yields an entry with no institution id, the organisation's name and country, and a start or end date exactly when that year is truthy |
| `Decoders.WithInstitutionName` | app/api/api_v1/authors.py:553 | the filter keeps exactly the entries with a truthy institution name |
| `Decoders.WithInstitutionNameAppend` | app/api/api_v1/authors.py:553 | the filter keeps order: it distributes over concatenation |
| `Decoders.WithInstitutionNameSingle` | app/api/api_v1/authors.py:553 | on one entry the filter keeps it exactly when its institution name is truthy |
| `Decoders.ExtractEmployments` | app/api/api_v1/authors.py:536-553 | the nested loops over affiliation groups and summaries, then the filter |
| `Decoders.GroupAffiliationsAt` | app/api/api_v1/authors.py:539-550 | a group yields one entry per summary, in order |
| `Decoders.EmploymentsOfMembers` | app/api/api_v1/authors.py:537-550 | the collected entries are exactly the entries of the employments of all groups |
| `Decoders.EmploymentsOfAppend` | app/api/api_v1/authors.py:537-550 | collecting over groups keeps order: it distributes over concatenation of the group lists |
| `Decoders.EmploymentsOfSingle` | app/api/api_v1/authors.py:539-550 | one group yields its summaries' entries in summary order |
| `Decoders.OrcidAffiliations` | app/api/api_v1/authors.py:536-553 | the ORCID affiliations are exactly the employments with a truthy organisation name, carrying no institution id, the employment's country and its years as `YYYY-01-01` |
| `Decoders.OrcidRecord` | app/api/api_v1/authors.py:551-555 | the ORCID record holds exactly three keys: `orcid` is the id the fetch was called with, `affiliations` the given (filtered) list, and `sources` the tag `orcid`; so it is never the empty dictionary |
| `Decoders.FetchOrcidRecord` | app/api/api_v1/authors.py:536-555 | the decoded fetch returns exactly `OrcidRecord` of the requested orcid and the employments of all groups in order, filtered to a truthy institution name: only the `orcid`, `affiliations` and `sources` keys are set |
| `Decoders.NormalizeS2Affiliations` | app/api/api_v1/authors.py:133-141 | the decoding loop computes `S2AffiliationsOf` |
| `Decoders.S2Entry` | app/api/api_v1/authors.py:135-141 | an unrecognised element yields nothing, a string its name, an object its `name` or else `displayName`; no entry has a country or dates; an object's entry carries its `id` in the profile variant and no id in the details variant (:467-470) |
| `Decoders.S2AffiliationsAppend` | app/api/api_v1/authors.py:133-141 | decoding keeps order: it distributes over concatenation of the raw lists |
| `Decoders.S2AffiliationsSingle` | app/api/api_v1/authors.py:133-141 | one element yields its entry, if it has one |
| `Decoders.S2AffiliationsShape` | app/api/api_v1/authors.py:465-470 | each string or object yields exactly one entry with no country or dates: a string is its name; an object is named by `name`, else `displayName`, and carries its `id` in the profile variant and no id in the details variant; unrecognised elements yield nothing |

## Left out

- HTTP, JSON decoding, `asyncio.gather` and the provider clients are left out. The answers of the three profile searches and the five paper searches (:60-72) are the `profiles` and `fallbacks` inputs of `Search.Search`. The answers of the three detail lookups are the functions of `Search.Lookups`.
- The paper-based fallback searches (`_search_semantic_scholar` and the others) and the provider profile builders are not part of this model. Only their outputs enter it, as records.
- `datetime.now()` is the parameter `now`. One clock reading stands for every merge of one search.
- Logging is left out.
- The `institution`, `field_of_study` and `email` request arguments are left out. They are passed along as keyword arguments and never read by the modelled code.
- The pydantic `AuthorResponse` construction and the FastAPI request models are left out.
- The `round(..., 2)` of a float score is left out. The score is exact in hundredths.
- `lower()`, `strip()` and `isdigit()` are ASCII-only here. Python applies them to all of Unicode.
- Python's `bool` counts as `int` at :388-393. Counts here are plain integers.
- The model takes a list wherever the source checks for one: `fields_of_study` at :411, the affiliation lists at :133 and :465, and the key paths of the ORCID JSON at :536-544. A missing level is the empty list, and other JSON types are not modelled.
- The `{k: v ... if v is not None and v != []}` clean-up at :153, :194 and :226 is the identity in this model. An absent key and a `None` value are one case here, and the merge reads every field with `.get` or, for `sources`, a key test (:384-385).
- A dictionary holding only `None` values is truthy in Python. Here it equals `EmptyRecord` and is skipped. No provider builder produces one, since each always sets `sources`.
- `NameMatch.PickBestNameMatch` returns the index of the chosen candidate, not the dictionary. `best or candidates[0]` can only fall back when `best` is unset, because a chosen candidate always has a name.
- The second route (`search_author_by_name`, :596-617) repeats the status decision of `Search.Route` and is not modelled separately.

## Findings

| source | as written | input that shows it | evidently intended | confidence | as-written member | corrected member |
|---|---|---|---|---|---|---|
| app/api/api_v1/authors.py:83 | the merged profile always holds the key `author_id` (None when nothing set it), so `merged_profile.get("author_id", "").isdigit()` calls `None.isdigit()` and raises; the route turns this into a 500 | every provider call fails or finds nothing (an unknown author, `Search.UnknownAuthorIsServerError`), or results supply counts but no author id (`Search.CountsWithoutIdAreLost`) | a missing id reads as "", so the Semantic Scholar stage is skipped: the unknown author gets a 404 (`Search.UnknownAuthorIsNotFound`) and an author found by counts alone is returned | not executed | `Search.SearchAuthor` | `Search.SearchAuthorCorrected` |
