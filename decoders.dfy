/**
 * The payload decoders that build affiliation lists by appending inside
 * loops: the ORCID employment extraction (authors.py:536-555) and the
 * Semantic Scholar affiliation shapes (authors.py:133-141, 465-470).
 * The JSON payloads are given already decoded into the fields read.
 */
module Decoders {
  import opened Wrappers
  import opened Records

  // ---------------------------------------------------------------------
  // ORCID employments.
  // ---------------------------------------------------------------------

  /** One `employment-summary`: organisation name, address country, start and end year values. */
  datatype Employment = Employment(
    organizationName: Option<string>,
    country: Option<string>,
    startYear: Option<string>,
    endYear: Option<string>)

  /** `f"{year}-01-01" if year else None`. */
  function YearDate(year: Option<string>): (d: Option<string>)
    ensures d.Some? <==> Truthy(year)
    ensures d.Some? ==> |d.value| > 6 && d.value[..|d.value| - 6] == year.value
                        && d.value[|d.value| - 6..] == "-01-01"
  {
    if Truthy(year) then Some(year.value + "-01-01") else None
  }

  /** The affiliation entry built for one employment: no institution id, the organisation's name and country. */
  function EmploymentAffiliation(e: Employment): (a: Affiliation)
    ensures a.institutionId.None?
    ensures a.institutionName == e.organizationName && a.country == e.country
    ensures a.startDate.Some? <==> Truthy(e.startYear)
    ensures a.endDate.Some? <==> Truthy(e.endYear)
  {
    Affiliation(None, e.organizationName, e.country, YearDate(e.startYear), YearDate(e.endYear))
  }

  /** Every employment of every `affiliation-group`, in order, as affiliation entries. */
  function EmploymentsOf(groups: seq<seq<Employment>>): seq<Affiliation> {
    if groups == [] then []
    else EmploymentsOf(groups[..|groups| - 1]) + GroupAffiliations(groups[|groups| - 1])
  }

  function GroupAffiliations(group: seq<Employment>): seq<Affiliation> {
    if group == [] then []
    else GroupAffiliations(group[..|group| - 1]) + [EmploymentAffiliation(group[|group| - 1])]
  }

  /** `[a for a in affiliations if a.get("institution_name")]`. */
  function WithInstitutionName(affs: seq<Affiliation>): (kept: seq<Affiliation>)
    ensures forall a :: a in kept <==> a in affs && Truthy(a.institutionName)
    ensures |kept| <= |affs|
  {
    if affs == [] then []
    else
      var init := affs[..|affs| - 1];
      var a := affs[|affs| - 1];
      assert affs == init + [a];
      WithInstitutionName(init) + (if Truthy(a.institutionName) then [a] else [])
  }

  /** The filter keeps order: it works entry by entry and distributes over concatenation. */
  lemma {:induction false} WithInstitutionNameAppend(a: seq<Affiliation>, b: seq<Affiliation>)
    ensures WithInstitutionName(a + b) == WithInstitutionName(a) + WithInstitutionName(b)
  {
    if b == [] {
      assert a + b == a;
    } else {
      var init, x := b[..|b| - 1], b[|b| - 1];
      var kept := if Truthy(x.institutionName) then [x] else [];
      assert (a + b)[..|a + b| - 1] == a + init;
      calc {
        WithInstitutionName(a + b);
        WithInstitutionName(a + init) + kept;
        { WithInstitutionNameAppend(a, init); }
        WithInstitutionName(a) + WithInstitutionName(init) + kept;
        WithInstitutionName(a) + (WithInstitutionName(init) + kept);
        WithInstitutionName(a) + WithInstitutionName(b);
      }
    }
  }

  /** On one entry the filter keeps it exactly when its institution name is truthy. */
  lemma WithInstitutionNameSingle(a: Affiliation)
    ensures WithInstitutionName([a]) == (if Truthy(a.institutionName) then [a] else [])
  {
    assert [a][..0] == [];
  }

  /** Collecting over groups keeps order: it distributes over concatenation of the group lists. */
  lemma {:induction false} EmploymentsOfAppend(g: seq<seq<Employment>>, h: seq<seq<Employment>>)
    ensures EmploymentsOf(g + h) == EmploymentsOf(g) + EmploymentsOf(h)
  {
    if h == [] {
      assert g + h == g;
    } else {
      var init, last := h[..|h| - 1], h[|h| - 1];
      assert (g + h)[..|g + h| - 1] == g + init;
      calc {
        EmploymentsOf(g + h);
        EmploymentsOf(g + init) + GroupAffiliations(last);
        { EmploymentsOfAppend(g, init); }
        EmploymentsOf(g) + EmploymentsOf(init) + GroupAffiliations(last);
        EmploymentsOf(g) + (EmploymentsOf(init) + GroupAffiliations(last));
        EmploymentsOf(g) + EmploymentsOf(h);
      }
    }
  }

  /** One group yields its summaries' entries, in summary order. */
  lemma EmploymentsOfSingle(group: seq<Employment>)
    ensures EmploymentsOf([group]) == GroupAffiliations(group)
  {
    assert [group][..0] == [];
  }

  /** The nested loops of the ORCID record fetch, followed by the institution-name filter. */
  method ExtractEmployments(groups: seq<seq<Employment>>) returns (affiliations: seq<Affiliation>)
    ensures affiliations == WithInstitutionName(EmploymentsOf(groups))
  {
    var all: seq<Affiliation> := [];
    var i := 0;
    while i < |groups|
      invariant 0 <= i <= |groups|
      invariant all == EmploymentsOf(groups[..i])
    {
      var summaries := groups[i];
      var fromGroup: seq<Affiliation> := [];
      var j := 0;
      while j < |summaries|
        invariant 0 <= j <= |summaries|
        invariant fromGroup == GroupAffiliations(summaries[..j])
      {
        assert summaries[..j + 1][..j] == summaries[..j];
        fromGroup := fromGroup + [EmploymentAffiliation(summaries[j])];
        j := j + 1;
      }
      assert summaries[..|summaries|] == summaries;
      assert groups[..i + 1][..i] == groups[..i];
      all := all + fromGroup;
      i := i + 1;
    }
    assert groups[..|groups|] == groups;
    affiliations := WithInstitutionName(all);
  }

  lemma {:induction false} GroupAffiliationsAt(group: seq<Employment>)
    ensures |GroupAffiliations(group)| == |group|
    ensures forall j :: 0 <= j < |group| ==> GroupAffiliations(group)[j] == EmploymentAffiliation(group[j])
  {
    if group != [] {
      GroupAffiliationsAt(group[..|group| - 1]);
    }
  }

  lemma {:induction false} EmploymentsOfMembers(groups: seq<seq<Employment>>)
    ensures forall a :: a in EmploymentsOf(groups) <==>
              exists i, j :: 0 <= i < |groups| && 0 <= j < |groups[i]| && a == EmploymentAffiliation(groups[i][j])
  {
    if groups != [] {
      var init := groups[..|groups| - 1];
      var last := groups[|groups| - 1];
      EmploymentsOfMembers(init);
      GroupAffiliationsAt(last);
      assert forall i :: 0 <= i < |init| ==> init[i] == groups[i];
      forall a | a in GroupAffiliations(last)
        ensures exists i, j :: 0 <= i < |groups| && 0 <= j < |groups[i]| && a == EmploymentAffiliation(groups[i][j])
      {
        var j :| 0 <= j < |GroupAffiliations(last)| && GroupAffiliations(last)[j] == a;
        assert a == EmploymentAffiliation(groups[|groups| - 1][j]);
      }
      forall i, j | 0 <= i < |groups| && 0 <= j < |groups[i]|
        ensures EmploymentAffiliation(groups[i][j]) in EmploymentsOf(groups)
      {
        if i == |groups| - 1 {
          assert GroupAffiliations(last)[j] == EmploymentAffiliation(groups[i][j]);
        } else {
          assert init[i][j] == groups[i][j];
        }
      }
    }
  }

  /**
   * The ORCID affiliations are exactly the employments with a truthy
   * organisation name, each with no institution id, the employment's
   * country, and its years rendered as `YYYY-01-01`.
   */
  lemma OrcidAffiliations(groups: seq<seq<Employment>>)
    ensures forall i, j :: 0 <= i < |groups| && 0 <= j < |groups[i]| && Truthy(groups[i][j].organizationName) ==>
              EmploymentAffiliation(groups[i][j]) in WithInstitutionName(EmploymentsOf(groups))
    ensures forall a :: a in WithInstitutionName(EmploymentsOf(groups)) ==>
              Truthy(a.institutionName) && a.institutionId.None? &&
              exists i, j :: 0 <= i < |groups| && 0 <= j < |groups[i]|
                             && a.institutionName == groups[i][j].organizationName
                             && a.country == groups[i][j].country
                             && a.startDate == YearDate(groups[i][j].startYear)
                             && a.endDate == YearDate(groups[i][j].endYear)
  {
    EmploymentsOfMembers(groups);
  }

  /** The record the ORCID fetch returns: the id it was called with, the affiliations, and the source tag. */
  function OrcidRecord(orcidId: string, affiliations: seq<Affiliation>): (r: Record)
    ensures r != EmptyRecord && r.sources == {"orcid"}
    ensures r.orcid == Some(orcidId) && r.affiliations == affiliations
    ensures r == EmptyRecord.(orcid := Some(orcidId), affiliations := affiliations, sources := {"orcid"})
  {
    Record(None, None, Some(orcidId), None, None, None, None, None, None, affiliations, {}, {"orcid"})
  }

  /**
   * The ORCID record fetch once the payload is decoded: the employments
   * collected from every affiliation group, filtered to those with an
   * institution name, under the id the fetch was called with.
   */
  method FetchOrcidRecord(orcidId: string, groups: seq<seq<Employment>>) returns (r: Record)
    ensures r == OrcidRecord(orcidId, WithInstitutionName(EmploymentsOf(groups)))
    ensures r.orcid == Some(orcidId) && r.sources == {"orcid"} && r != EmptyRecord
    ensures r.affiliations == WithInstitutionName(EmploymentsOf(groups))
  {
    var affiliations := ExtractEmployments(groups);
    r := OrcidRecord(orcidId, affiliations);
  }

  // ---------------------------------------------------------------------
  // Semantic Scholar affiliation shapes.
  // ---------------------------------------------------------------------

  /** An element of a Semantic Scholar `affiliations` list: a string, an object, or anything else. */
  datatype S2Affiliation =
    | StringEntry(text: string)
    | Object(name: Option<string>, displayName: Option<string>, id: Option<string>)
    | Unrecognised

  /**
   * The entry one element yields, if any. The profile variant (:137-141)
   * also keeps the id of an object; the details variant (:468-470) does not.
   */
  function S2Entry(a: S2Affiliation, keepId: bool): (e: Option<Affiliation>)
    ensures e.None? <==> a.Unrecognised?
    ensures e.Some? ==> e.value.country.None? && e.value.startDate.None? && e.value.endDate.None?
    ensures a.StringEntry? ==> e == Some(Affiliation(None, Some(a.text), None, None, None))
    ensures a.Object? ==> e.value.institutionName == (if Truthy(a.name) then a.name else a.displayName)
    ensures a.Object? ==> e.value.institutionId == (if keepId then a.id else None)
  {
    match a
    case StringEntry(s) => Some(Affiliation(None, Some(s), None, None, None))
    case Object(n, d, id) =>
      Some(Affiliation(if keepId then id else None, if Truthy(n) then n else d, None, None, None))
    case Unrecognised => None
  }

  /** The affiliations decoded from a list, in order, skipping unrecognised elements. */
  function S2AffiliationsOf(raw: seq<S2Affiliation>, keepId: bool): seq<Affiliation> {
    if raw == [] then []
    else
      var e := S2Entry(raw[|raw| - 1], keepId);
      S2AffiliationsOf(raw[..|raw| - 1], keepId) + (if e.Some? then [e.value] else [])
  }

  /** Decoding keeps order: it distributes over concatenation of the raw lists. */
  lemma {:induction false} S2AffiliationsAppend(a: seq<S2Affiliation>, b: seq<S2Affiliation>, keepId: bool)
    ensures S2AffiliationsOf(a + b, keepId) == S2AffiliationsOf(a, keepId) + S2AffiliationsOf(b, keepId)
  {
    if b == [] {
      assert a + b == a;
    } else {
      var init, e := b[..|b| - 1], S2Entry(b[|b| - 1], keepId);
      var entry := if e.Some? then [e.value] else [];
      assert (a + b)[..|a + b| - 1] == a + init;
      calc {
        S2AffiliationsOf(a + b, keepId);
        S2AffiliationsOf(a + init, keepId) + entry;
        { S2AffiliationsAppend(a, init, keepId); }
        S2AffiliationsOf(a, keepId) + S2AffiliationsOf(init, keepId) + entry;
        S2AffiliationsOf(a, keepId) + (S2AffiliationsOf(init, keepId) + entry);
        S2AffiliationsOf(a, keepId) + S2AffiliationsOf(b, keepId);
      }
    }
  }

  /** One element yields its entry, if it has one. */
  lemma S2AffiliationsSingle(x: S2Affiliation, keepId: bool)
    ensures S2AffiliationsOf([x], keepId) == (if S2Entry(x, keepId).Some? then [S2Entry(x, keepId).value] else [])
  {
    assert [x][..0] == [];
  }

  /** The decoding loop over a Semantic Scholar `affiliations` list. */
  method NormalizeS2Affiliations(raw: seq<S2Affiliation>, keepId: bool) returns (affiliations: seq<Affiliation>)
    ensures affiliations == S2AffiliationsOf(raw, keepId)
  {
    affiliations := [];
    var i := 0;
    while i < |raw|
      invariant 0 <= i <= |raw|
      invariant affiliations == S2AffiliationsOf(raw[..i], keepId)
    {
      assert raw[..i + 1][..i] == raw[..i];
      match raw[i] {
        case StringEntry(s) =>
          affiliations := affiliations + [Affiliation(None, Some(s), None, None, None)];
        case Object(n, d, id) =>
          affiliations := affiliations + [Affiliation(if keepId then id else None,
                                                      if Truthy(n) then n else d, None, None, None)];
        case Unrecognised =>
      }
      i := i + 1;
    }
    assert raw[..|raw|] == raw;
  }

  function CountRecognised(raw: seq<S2Affiliation>): nat {
    if raw == [] then 0
    else CountRecognised(raw[..|raw| - 1]) + (if raw[|raw| - 1].Unrecognised? then 0 else 1)
  }

  /**
   * Each recognised element yields exactly one entry, with no country or
   * dates, named by its text, or by `name` and else `displayName`; an id
   * appears only in the profile variant.
   */
  lemma {:induction false} S2AffiliationsShape(raw: seq<S2Affiliation>, keepId: bool)
    ensures |S2AffiliationsOf(raw, keepId)| == CountRecognised(raw)
    ensures forall a :: a in S2AffiliationsOf(raw, keepId) ==>
              a.country.None? && a.startDate.None? && a.endDate.None? && (!keepId ==> a.institutionId.None?)
    ensures forall i :: 0 <= i < |raw| && raw[i].StringEntry? ==>
              Affiliation(None, Some(raw[i].text), None, None, None) in S2AffiliationsOf(raw, keepId)
    ensures forall i :: 0 <= i < |raw| && raw[i].Object? ==>
              exists a :: a in S2AffiliationsOf(raw, keepId) &&
                          a.institutionName == (if Truthy(raw[i].name) then raw[i].name else raw[i].displayName) &&
                          a.institutionId == (if keepId then raw[i].id else None)
  {
    if raw != [] {
      var init := raw[..|raw| - 1];
      S2AffiliationsShape(init, keepId);
      assert forall i :: 0 <= i < |init| ==> init[i] == raw[i];
      var e := S2Entry(raw[|raw| - 1], keepId);
      if e.Some? {
        assert e.value in S2AffiliationsOf(raw, keepId);
      }
    }
  }
}
