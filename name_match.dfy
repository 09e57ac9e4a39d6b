/**
 * The per-provider candidate picker `_pick_best_name_match`
 * (authors.py:325-354): an exact normalised name match wins at once, else
 * the first substring match in either direction, else the first candidate.
 */
module NameMatch {
  import opened Wrappers
  import opened Text
  import opened Records

  /** Which provider shaped the candidate list, i.e. which keys hold its names. */
  datatype Shape = SemanticScholar | OpenAlex | Dblp | Plain

  /** The name-bearing keys of a provider's candidate object. */
  datatype Candidate = Candidate(
    name: Option<string>,                   // "name"
    aliases: seq<Option<string>>,           // "aliases", absent or null as []
    displayName: Option<string>,            // "display_name"
    alternatives: seq<Option<string>>,      // "display_name_alternatives", absent or null as []
    author: Option<string>)                 // "author"

  /**
   * The names a candidate exposes for its provider, before dropping the
   * empty ones: the primary name first, then any aliases. DBLP exposes one
   * name, its `author` when that is truthy and its `name` otherwise.
   */
  function RawNames(c: Candidate, shape: Shape): (names: seq<Option<string>>)
    ensures |names| >= 1
    ensures shape.SemanticScholar? ==> names[0] == c.name && names[1..] == c.aliases
    ensures shape.OpenAlex? ==> names[0] == c.displayName && names[1..] == c.alternatives
    ensures shape.Dblp? ==> |names| == 1 && (Truthy(names[0]) <==> Truthy(c.author) || Truthy(c.name))
    ensures shape.Dblp? && Truthy(c.author) ==> names[0] == c.author
    ensures shape.Dblp? && !Truthy(c.author) ==> names[0] == c.name
    ensures shape.Plain? ==> names == [c.name]
  {
    match shape
    case SemanticScholar => [c.name] + c.aliases
    case OpenAlex => [c.displayName] + c.alternatives
    case Dblp => [if Truthy(c.author) then c.author else c.name]
    case Plain => [c.name]
  }

  /** Whether `[n for n in names if n]` is non-empty. */
  predicate HasNames(names: seq<Option<string>>) {
    names != [] && (Truthy(names[0]) || HasNames(names[1..]))
  }

  /** `any(norm(n) == t for n in names if n)`. */
  predicate MatchesExactly(norm: string -> string, t: string, names: seq<Option<string>>) {
    names != [] && ((Truthy(names[0]) && norm(names[0].value) == t) || MatchesExactly(norm, t, names[1..]))
  }

  /** `any(t in norm(n) or norm(n) in t for n in names if n)`. */
  predicate MatchesPartially(norm: string -> string, t: string, names: seq<Option<string>>) {
    names != []
    && ((Truthy(names[0]) && (Contains(norm(names[0].value), t) || Contains(t, norm(names[0].value))))
        || MatchesPartially(norm, t, names[1..]))
  }

  /** A candidate without names matches nothing, so skipping it loses no match. */
  lemma {:induction false} NamelessMatchesNothing(norm: string -> string, t: string, names: seq<Option<string>>)
    requires !HasNames(names)
    ensures !MatchesExactly(norm, t, names) && !MatchesPartially(norm, t, names)
  {
    if names != [] {
      NamelessMatchesNothing(norm, t, names[1..]);
    }
  }

  /**
   * Which names decide an exact match, per provider: the name or any alias
   * for Semantic Scholar, the display name or any alternative for OpenAlex,
   * the author and only failing that the name for DBLP, and the name
   * otherwise.
   */
  lemma RawNamesMatch(norm: string -> string, t: string, c: Candidate)
    ensures MatchesExactly(norm, t, RawNames(c, SemanticScholar)) <==>
              (Truthy(c.name) && norm(c.name.value) == t) || MatchesExactly(norm, t, c.aliases)
    ensures MatchesExactly(norm, t, RawNames(c, OpenAlex)) <==>
              (Truthy(c.displayName) && norm(c.displayName.value) == t) || MatchesExactly(norm, t, c.alternatives)
    ensures MatchesExactly(norm, t, RawNames(c, Dblp)) <==>
              if Truthy(c.author) then norm(c.author.value) == t else Truthy(c.name) && norm(c.name.value) == t
    ensures MatchesExactly(norm, t, RawNames(c, Plain)) <==> Truthy(c.name) && norm(c.name.value) == t
  {
    assert RawNames(c, SemanticScholar)[1..] == c.aliases;
    assert RawNames(c, OpenAlex)[1..] == c.alternatives;
    assert RawNames(c, Dblp)[1..] == [];
    assert RawNames(c, Plain)[1..] == [];
  }

  predicate NamedAt(candidates: seq<Candidate>, shape: Shape, i: int)
    requires 0 <= i < |candidates|
  {
    HasNames(RawNames(candidates[i], shape))
  }

  /** Candidate `i` has a name whose normal form equals `t`. */
  predicate ExactAt(norm: string -> string, t: string, candidates: seq<Candidate>, shape: Shape, i: int)
    requires 0 <= i < |candidates|
  {
    MatchesExactly(norm, t, RawNames(candidates[i], shape))
  }

  /** Candidate `i` has a name whose normal form contains `t` or is contained in it. */
  predicate PartialAt(norm: string -> string, t: string, candidates: seq<Candidate>, shape: Shape, i: int)
    requires 0 <= i < |candidates|
  {
    MatchesPartially(norm, t, RawNames(candidates[i], shape))
  }

  /** A candidate exposing no names is neither an exact nor a partial match. */
  lemma NamelessCandidate(norm: string -> string, t: string, candidates: seq<Candidate>, shape: Shape, i: int)
    requires 0 <= i < |candidates| && !NamedAt(candidates, shape, i)
    ensures !ExactAt(norm, t, candidates, shape, i) && !PartialAt(norm, t, candidates, shape, i)
  {
    NamelessMatchesNothing(norm, t, RawNames(candidates[i], shape));
  }

  /**
   * The scan over `n` candidates, given for each index whether it exposes
   * names, matches exactly and matches partially: the first exact match if
   * there is one; otherwise the first partial match; otherwise the first
   * candidate; and none only for an empty list. A nameless candidate is
   * skipped, which loses nothing because it matches neither way.
   */
  method Scan(n: nat, named: nat -> bool, exact: nat -> bool, partial: nat -> bool)
    returns (r: Option<nat>)
    requires forall i: nat :: i < n && !named(i) ==> !exact(i) && !partial(i)
    ensures r.None? <==> n == 0
    ensures r.Some? ==> r.value < n
    ensures (exists i: nat :: i < n && exact(i)) ==>
      r.Some? && exact(r.value) && forall j: nat :: j < r.value ==> !exact(j)
    ensures ((forall i: nat :: i < n ==> !exact(i)) && (exists i: nat :: i < n && partial(i))) ==>
      r.Some? && partial(r.value) && forall j: nat :: j < r.value ==> !partial(j)
    ensures ((forall i: nat :: i < n ==> !exact(i) && !partial(i)) && n > 0) ==> r == Some(0)
  {
    var best: Option<nat> := None;
    var i: nat := 0;
    while i < n
      invariant i <= n
      invariant forall j: nat :: j < i ==> !exact(j)
      invariant best.None? ==> forall j: nat :: j < i ==> !partial(j)
      invariant best.Some? ==>
        best.value < i && partial(best.value) && forall j: nat :: j < best.value ==> !partial(j)
    {
      if !named(i) {
        i := i + 1;
        continue;
      }
      if exact(i) {
        best := Some(i);
        break;
      }
      if best.None? && partial(i) {
        best := Some(i);
      }
      i := i + 1;
    }
    if best.Some? {
      r := best;
    } else if n > 0 {
      r := Some(0);
    } else {
      r := None;
    }
  }

  /**
   * The scan over the candidates for a normalised target `t`, with the
   * name normaliser `norm`: the first exact match if there is one;
   * otherwise the first substring match; otherwise the first candidate;
   * and none only for an empty list.
   */
  method ScanCandidates(norm: string -> string, t: string, candidates: seq<Candidate>, shape: Shape)
    returns (r: Option<nat>)
    ensures r.None? <==> candidates == []
    ensures r.Some? ==> r.value < |candidates|
    ensures (exists i :: 0 <= i < |candidates| && ExactAt(norm, t, candidates, shape, i)) ==>
      r.Some? && r.value < |candidates| && ExactAt(norm, t, candidates, shape, r.value)
      && forall j :: 0 <= j < r.value ==> !ExactAt(norm, t, candidates, shape, j)
    ensures ((forall i :: 0 <= i < |candidates| ==> !ExactAt(norm, t, candidates, shape, i))
             && (exists i :: 0 <= i < |candidates| && PartialAt(norm, t, candidates, shape, i))) ==>
      r.Some? && r.value < |candidates| && PartialAt(norm, t, candidates, shape, r.value)
      && forall j :: 0 <= j < r.value ==> !PartialAt(norm, t, candidates, shape, j)
    ensures ((forall i :: 0 <= i < |candidates| ==>
                !ExactAt(norm, t, candidates, shape, i) && !PartialAt(norm, t, candidates, shape, i))
             && candidates != []) ==> r == Some(0)
  {
    var named := (i: nat) => i < |candidates| && NamedAt(candidates, shape, i);
    var exact := (i: nat) => i < |candidates| && ExactAt(norm, t, candidates, shape, i);
    var partial := (i: nat) => i < |candidates| && PartialAt(norm, t, candidates, shape, i);
    forall i: nat | i < |candidates| && !named(i)
      ensures !exact(i) && !partial(i)
    {
      NamelessCandidate(norm, t, candidates, shape, i);
    }
    r := Scan(|candidates|, named, exact, partial);
    if i :| 0 <= i < |candidates| && ExactAt(norm, t, candidates, shape, i) {
      assert exact(i);
      var k := r.value;
      assert exact(k);
      assert ExactAt(norm, t, candidates, shape, k);
      forall j | 0 <= j < k ensures !ExactAt(norm, t, candidates, shape, j) {
        assert !exact(j);
      }
    } else if i :| 0 <= i < |candidates| && PartialAt(norm, t, candidates, shape, i) {
      assert partial(i);
      forall j: nat | j < |candidates| ensures !exact(j) {
        assert !ExactAt(norm, t, candidates, shape, j);
      }
      var k := r.value;
      assert partial(k);
      assert PartialAt(norm, t, candidates, shape, k);
      forall j | 0 <= j < k ensures !PartialAt(norm, t, candidates, shape, j) {
        assert !partial(j);
      }
    } else if candidates != [] {
      forall j: nat | j < |candidates| ensures !exact(j) && !partial(j) {
        assert !ExactAt(norm, t, candidates, shape, j) && !PartialAt(norm, t, candidates, shape, j);
      }
    }
  }

  /**
   * `_pick_best_name_match`: the index of the chosen candidate, comparing
   * names under the matcher's normalisation `Norm`.
   */
  method PickBestNameMatch(target: string, candidates: seq<Candidate>, shape: Shape)
    returns (r: Option<nat>)
    ensures r.None? <==> candidates == []
    ensures r.Some? ==> r.value < |candidates|
    ensures (exists i :: 0 <= i < |candidates| && ExactAt(Norm, Norm(target), candidates, shape, i)) ==>
      r.Some? && r.value < |candidates| && ExactAt(Norm, Norm(target), candidates, shape, r.value)
      && forall j :: 0 <= j < r.value ==> !ExactAt(Norm, Norm(target), candidates, shape, j)
    ensures ((forall i :: 0 <= i < |candidates| ==> !ExactAt(Norm, Norm(target), candidates, shape, i))
             && (exists i :: 0 <= i < |candidates| && PartialAt(Norm, Norm(target), candidates, shape, i))) ==>
      r.Some? && r.value < |candidates| && PartialAt(Norm, Norm(target), candidates, shape, r.value)
      && forall j :: 0 <= j < r.value ==> !PartialAt(Norm, Norm(target), candidates, shape, j)
    ensures ((forall i :: 0 <= i < |candidates| ==>
                !ExactAt(Norm, Norm(target), candidates, shape, i) && !PartialAt(Norm, Norm(target), candidates, shape, i))
             && candidates != []) ==> r == Some(0)
  {
    var t := Norm(target);
    r := ScanCandidates(Norm, t, candidates, shape);
  }
}
