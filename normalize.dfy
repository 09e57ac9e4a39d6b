/** Identifier clean-up applied to the final profile (authors.py:560-571). */
module Normalize {
  import opened Wrappers
  import opened Text
  import opened Records

  /** The marker of an OpenAlex author URL such as `https://openalex.org/A123`. */
  const OpenAlexUrlMarker: string := "openalex.org/"

  /**
   * Strips an OpenAlex URL down to its trailing id and any ORCID URL down
   * to the bare ORCID; nothing else is touched.
   */
  function NormalizeIdentifiers(p: Profile): (q: Profile)
    ensures q.(authorId := p.authorId, orcid := p.orcid) == p
    ensures p.authorId.Some? && Contains(p.authorId.value, OpenAlexUrlMarker) ==>
      q.authorId == Some(LastSegment(p.authorId.value)) && '/' !in q.authorId.value
    ensures !(p.authorId.Some? && Contains(p.authorId.value, OpenAlexUrlMarker)) ==>
      q.authorId == p.authorId
    ensures p.orcid.Some? ==> q.orcid == Some(LastSegment(p.orcid.value))
    ensures p.orcid.None? ==> q.orcid.None?
  {
    var aid :=
      if p.authorId.Some? && Contains(p.authorId.value, OpenAlexUrlMarker)
      then Some(LastSegment(p.authorId.value))
      else p.authorId;
    var orcid :=
      if p.orcid.Some? && '/' in p.orcid.value
      then Some(LastSegment(p.orcid.value))
      else p.orcid;
    p.(authorId := aid, orcid := orcid)
  }

  /** Each identifier is normalised on its own: equal inputs give equal outputs. */
  lemma NormalizeIsFieldwise(p: Profile, q: Profile)
    ensures p.authorId == q.authorId ==> NormalizeIdentifiers(p).authorId == NormalizeIdentifiers(q).authorId
    ensures p.orcid == q.orcid ==> NormalizeIdentifiers(p).orcid == NormalizeIdentifiers(q).orcid
  {
  }

  /** A string without `/` never holds the URL marker. */
  lemma NoSlashNoMarker(s: string)
    requires '/' !in s
    ensures !Contains(s, OpenAlexUrlMarker)
  {
    if Contains(s, OpenAlexUrlMarker) {
      ContainsCharacter(s, OpenAlexUrlMarker, |OpenAlexUrlMarker| - 1);
    }
  }

  /** Normalizing twice is the same as normalizing once. */
  lemma NormalizeIdempotent(p: Profile)
    ensures NormalizeIdentifiers(NormalizeIdentifiers(p)) == NormalizeIdentifiers(p)
  {
    var q := NormalizeIdentifiers(p);
    if q.authorId != p.authorId {
      NoSlashNoMarker(q.authorId.value);
    }
  }
}
