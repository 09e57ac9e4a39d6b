/**
 * The dictionaries the author resolver passes around, as datatypes.
 * A provider record (one partial view of an author) is a `Record`;
 * the consolidated profile the merge returns is a `Profile`.
 * Python's absent key and `None` value are both `None` here.
 */
module Records {
  import opened Wrappers

  /** Python truthiness of an optional string: present and non-empty. */
  predicate Truthy(o: Option<string>) {
    o.Some? && o.value != ""
  }

  /** Python's `x or ""` on an optional string. */
  function OrEmpty(o: Option<string>): string {
    if o.Some? then o.value else ""
  }

  /** One affiliation entry; every field may be missing. */
  datatype Affiliation = Affiliation(
    institutionId: Option<string>,
    institutionName: Option<string>,
    country: Option<string>,
    startDate: Option<string>,
    endDate: Option<string>)

  /** The deduplication key (institution_id, institution_name, country), missing parts as "". */
  type AffiliationKey = (string, string, string)

  function KeyOf(a: Affiliation): AffiliationKey {
    (OrEmpty(a.institutionId), OrEmpty(a.institutionName), OrEmpty(a.country))
  }

  /**
   * A partial author record from one provider call. `sources` and
   * `fieldsOfStudy` are lists in the provider dictionaries, but the merge
   * only ever folds them into sets, so they are sets here.
   */
  datatype Record = Record(
    name: Option<string>,
    authorId: Option<string>,
    orcid: Option<string>,
    homepageUrl: Option<string>,
    email: Option<string>,
    profileImageUrl: Option<string>,
    paperCount: Option<int>,
    citationCount: Option<int>,
    hIndex: Option<int>,
    affiliations: seq<Affiliation>,
    fieldsOfStudy: set<string>,
    sources: set<string>)

  /** The empty dictionary `{}` that a provider returns when it found nothing. */
  const EmptyRecord: Record :=
    Record(None, None, None, None, None, None, None, None, None, [], {}, {})

  /**
   * The merged profile. Counts are always integers; the confidence score is
   * kept in integer hundredths (0.7 is 70).
   */
  datatype Profile = Profile(
    name: string,
    authorId: Option<string>,
    orcid: Option<string>,
    affiliations: seq<Affiliation>,
    homepageUrl: Option<string>,
    email: Option<string>,
    hIndex: Option<int>,
    paperCount: int,
    citationCount: int,
    fieldsOfStudy: set<string>,
    profileImageUrl: Option<string>,
    lastUpdated: string,
    sources: set<string>,
    confidenceScore: int)

  /** A merged profile handed back to the merge as the first of its inputs. */
  function AsRecord(p: Profile): Record {
    Record(Some(p.name), p.authorId, p.orcid, p.homepageUrl, p.email, p.profileImageUrl,
           Some(p.paperCount), Some(p.citationCount), p.hIndex,
           p.affiliations, p.fieldsOfStudy, p.sources)
  }
}
