/**
 * Subject resolution (`extract_profile_name_from_query`): maps the query to
 * the identifier of a loaded profile. Four methods are tried in order and the
 * first that succeeds wins:
 *   1. a recognised person span occurs (case-insensitively) in a profile name;
 *   2. the best fuzzy score of a span against a name, when above 1/2;
 *   3. a name captured by the query patterns and a profile name, one
 *      containing the other;
 *   4. a profile identifier occurring in the query.
 * The entity recogniser and the regular expressions are outside the model:
 * their results come in as `Entities` and as the list of captured names.
 */
module Resolver {
  import opened Wrappers
  import opened Text
  import opened Profiles
  import opened FirstMax
  import opened Search

  /** The recogniser's PERSON spans and ORG spans for a query, in text order. */
  datatype Entities = Entities(persons: seq<string>, orgs: seq<string>)

  /** The three containment tests the resolver applies to a text and a loaded profile. */
  datatype NameTest =
    | SpanInName      // step 1: the span occurs in the profile name
    | EitherContains  // step 3: the captured name and the profile name, either in the other
    | IdInText        // step 4: the profile identifier occurs in the query

  function NameOf(e: Entry): string {
    e.profile.basics.name
  }

  predicate Matches(t: NameTest, x: string, e: Entry) {
    match t
    case SpanInName => Contains(Lower(NameOf(e)), Lower(x))
    case EitherContains => Contains(Lower(NameOf(e)), Lower(x)) || Contains(Lower(x), Lower(NameOf(e)))
    case IdInText => Contains(Lower(x), Lower(e.id))
  }

  /** The test outcome for every text (row) against every loaded profile (column). */
  function Outcomes(t: NameTest, xs: seq<string>, entries: seq<Entry>): (g: seq<seq<bool>>)
  {
    seq(|xs|, i requires 0 <= i < |xs| => seq(|entries|, j requires 0 <= j < |entries| => Matches(t, xs[i], entries[j])))
  }

  /**
   * The nested search `for x in xs: for (id, profile) in loaded: if test: return id`:
   * the first text, and for it the first profile, that pass the test.
   */
  function FirstPair(t: NameTest, xs: seq<string>, entries: seq<Entry>): (r: Option<(nat, nat)>)
    ensures r.None? <==>
              forall i, j :: 0 <= i < |xs| && 0 <= j < |entries| ==> !Matches(t, xs[i], entries[j])
    ensures r.Some? ==> r.value.0 < |xs| && r.value.1 < |entries|
    ensures r.Some? ==> Matches(t, xs[r.value.0], entries[r.value.1])
    ensures r.Some? ==>
              forall i, j :: 0 <= i < r.value.0 && 0 <= j < |entries| ==> !Matches(t, xs[i], entries[j])
    ensures r.Some? ==> forall j :: 0 <= j < r.value.1 ==> !Matches(t, xs[r.value.0], entries[j])
  {
    var g := Outcomes(t, xs, entries);
    assert forall i, j :: 0 <= i < |xs| && 0 <= j < |entries| ==> g[i][j] == Matches(t, xs[i], entries[j]);
    FirstCell(g)
  }

  /** The identifier the nested search returns, if any. */
  function FirstMatch(t: NameTest, xs: seq<string>, entries: seq<Entry>): (r: Option<string>)
    ensures r.Some? ==> r.value in Ids(entries)
  {
    match FirstPair(t, xs, entries)
    case Some((_, j)) => assert Ids(entries)[j] == entries[j].id; Some(entries[j].id)
    case None => None
  }

  /** No recognised span occurs in any profile name: step 1 found nothing. */
  ghost predicate NoExactMatch(persons: seq<string>, entries: seq<Entry>)
  {
    forall i, j :: 0 <= i < |persons| && 0 <= j < |entries| ==> !Matches(SpanInName, persons[i], entries[j])
  }

  /** `set(s)`: the distinct characters of `s`. */
  function CharSet(s: string): (r: set<char>)
    ensures forall c :: c in r <==> c in s
  {
    if s == [] then {} else {s[0]} + CharSet(s[1..])
  }

  /** A string has at most as many distinct characters as characters. */
  lemma {:induction false} CharSetSize(s: string)
    ensures |CharSet(s)| <= |s|
  {
    if s != [] {
      CharSetSize(s[1..]);
    }
  }

  /** The characters two sets share are at most those of the first. */
  lemma SharedSize(a: set<char>, b: set<char>)
    ensures |a * b| <= |a|
  {
    assert a == (a * b) + (a - b);
    assert (a * b) * (a - b) == {};
  }

  /** A count over a bound at least as large is a fraction between 0 and 1. */
  lemma Fraction(n: nat, d: nat)
    requires 0 < d && n <= d
    ensures 0.0 <= n as real / d as real <= 1.0
  {
    assert (n as real / d as real) * d as real == n as real;
  }

  function Max(a: nat, b: nat): nat {
    if a < b then b else a
  }

  /**
   * The fuzzy score: the number of distinct characters the lower-cased span
   * and name share, over the length of the longer of the two. Exact
   * rationals stand in for the source's floating-point division. The score
   * lies between 0 and 1: a string has no more distinct characters than
   * characters, so the shared ones never outnumber the longer length.
   */
  function Similarity(person: string, name: string): (r: real)
    requires person != [] || name != []
    ensures 0.0 <= r <= 1.0
  {
    var shared := |CharSet(Lower(person)) * CharSet(Lower(name))|;
    var longer := Max(|person|, |name|);
    CharSetSize(Lower(person));
    SharedSize(CharSet(Lower(person)), CharSet(Lower(name)));
    Fraction(shared, longer);
    shared as real / longer as real
  }

  /** The (span, profile) pairs of one span, in profile order. */
  function Pairs(person: string, entries: seq<Entry>): (c: seq<(string, Entry)>)
  {
    seq(|entries|, j requires 0 <= j < |entries| => (person, entries[j]))
  }

  /** Every (span, profile) pair, in the order of the source's nested loops: span-major. */
  function Candidates(persons: seq<string>, entries: seq<Entry>): (c: seq<(string, Entry)>)
    ensures forall k :: 0 <= k < |c| ==> c[k].0 in persons && c[k].1 in entries
  {
    if persons == [] then []
    else Candidates(persons[..|persons| - 1], entries) + Pairs(persons[|persons| - 1], entries)
  }

  /** Every (span, profile) pair is a candidate. */
  lemma {:induction false} CandidatesCover(persons: seq<string>, entries: seq<Entry>, i: nat, j: nat)
    requires i < |persons| && j < |entries|
    ensures (persons[i], entries[j]) in Candidates(persons, entries)
  {
    var n := |persons| - 1;
    var last := Pairs(persons[n], entries);
    if i < n {
      CandidatesCover(persons[..n], entries, i, j);
    } else {
      assert last[j] == (persons[i], entries[j]);
    }
    assert Candidates(persons, entries) == Candidates(persons[..n], entries) + last;
  }

  /** Every candidate can be scored without dividing by zero. */
  ghost predicate Scorable(cands: seq<(string, Entry)>)
  {
    forall k :: 0 <= k < |cands| ==> cands[k].0 != [] || NameOf(cands[k].1) != []
  }

  /** With no exact match, every person span is non-empty (the empty span occurs in every name). */
  lemma NoExactMatchPerson(persons: seq<string>, entries: seq<Entry>, i: nat, j: nat)
    requires NoExactMatch(persons, entries)
    requires i < |persons| && j < |entries|
    ensures persons[i] != []
  {
    EmptyOccurs(Lower(NameOf(entries[j])));
    assert !Matches(SpanInName, persons[i], entries[j]);
  }

  /**
   * Once step 1 has failed, no span is empty (the empty span occurs in every
   * name), so no score divides by zero.
   */
  lemma NoExactMatchScorable(persons: seq<string>, entries: seq<Entry>, cands: seq<(string, Entry)>)
    requires NoExactMatch(persons, entries)
    requires forall k :: 0 <= k < |cands| ==> cands[k].0 in persons && cands[k].1 in entries
    ensures Scorable(cands)
  {
    forall k | 0 <= k < |cands|
      ensures cands[k].0 != []
    {
      var i :| 0 <= i < |persons| && persons[i] == cands[k].0;
      var j :| 0 <= j < |entries| && entries[j] == cands[k].1;
      EmptyOccurs(Lower(NameOf(entries[j])));
      assert !Matches(SpanInName, persons[i], entries[j]);
    }
  }

  /** The fuzzy scores of the candidates, in order. */
  function SimScores(cands: seq<(string, Entry)>): (s: seq<real>)
    requires Scorable(cands)
  {
    seq(|cands|, k requires 0 <= k < |cands| => Similarity(cands[k].0, NameOf(cands[k].1)))
  }

  /** The profile the fuzzy loop settles on (step 2), before the source's truthiness test. */
  function FuzzyBest(persons: seq<string>, entries: seq<Entry>): (r: Option<string>)
    requires NoExactMatch(persons, entries)
    ensures r.Some? ==> r.value in Ids(entries)
  {
    var cands := Candidates(persons, entries);
    NoExactMatchScorable(persons, entries, cands);
    ScanIsFirstMax(SimScores(cands), 0.5);
    match Scan(SimScores(cands), 0.5).index
    case Some(k) =>
      var j :| 0 <= j < |entries| && entries[j] == cands[k].1;
      assert Ids(entries)[j] == cands[k].1.id;
      Some(cands[k].1.id)
    case None => None
  }

  /**
   * Step 2 picks nothing exactly when no span scores above 1/2 against any
   * name.
   */
  lemma FuzzyBestNoneIffLowScores(persons: seq<string>, entries: seq<Entry>)
    requires NoExactMatch(persons, entries)
    ensures FuzzyBest(persons, entries).None? <==>
              forall p, e :: p in persons && e in entries ==> p != [] && Similarity(p, NameOf(e)) <= 0.5
  {
    var cands := Candidates(persons, entries);
    NoExactMatchScorable(persons, entries, cands);
    var s := SimScores(cands);
    ScanIsFirstMax(s, 0.5);
    if FuzzyBest(persons, entries).None? {
      forall p, e | p in persons && e in entries
        ensures p != [] && Similarity(p, NameOf(e)) <= 0.5
      {
        var i :| 0 <= i < |persons| && persons[i] == p;
        var j :| 0 <= j < |entries| && entries[j] == e;
        CandidatesCover(persons, entries, i, j);
        var k :| 0 <= k < |cands| && cands[k] == (p, e);
        assert s[k] <= 0.5;
      }
    } else {
      var k := Scan(s, 0.5).index.value;
      var p, e := cands[k].0, cands[k].1;
      assert p in persons && e in entries && !(Similarity(p, NameOf(e)) <= 0.5);
    }
  }

  /**
   * Otherwise step 2 picks the profile of the first candidate, in loop
   * order, with the highest score of all candidates, and that score is
   * above 1/2.
   */
  lemma FuzzyBestIsFirstMax(persons: seq<string>, entries: seq<Entry>) returns (k: nat)
    requires NoExactMatch(persons, entries)
    ensures Scorable(Candidates(persons, entries))
    ensures FuzzyBest(persons, entries).Some? ==>
              IsFirstMaxAbove(SimScores(Candidates(persons, entries)), 0.5, k) &&
              FuzzyBest(persons, entries).value == Candidates(persons, entries)[k].1.id
  {
    var cands := Candidates(persons, entries);
    NoExactMatchScorable(persons, entries, cands);
    var s := SimScores(cands);
    ScanIsFirstMax(s, 0.5);
    k := if Scan(s, 0.5).index.Some? then Scan(s, 0.5).index.value else 0;
  }

  /**
   * `extract_profile_name_from_query(query)`. `captures` are the names the
   * query patterns capture, in pattern order; `ents` is the recogniser's
   * output for the query. A fuzzy pick whose identifier is the empty string
   * is falsy in the source and is passed over, as there.
   */
  function Resolve(entries: seq<Entry>, query: string, ents: Entities, captures: seq<string>): (r: Option<string>)
    ensures r.Some? ==> r.value in Ids(entries)
  {
    var exact := FirstMatch(SpanInName, ents.persons, entries);
    if exact.Some? then exact
    else
      assert FirstPair(SpanInName, ents.persons, entries).None?;
      var fuzzy := FuzzyBest(ents.persons, entries);
      if fuzzy.Some? && fuzzy.value != "" then fuzzy
      else
        var byPattern := FirstMatch(EitherContains, captures, entries);
        if byPattern.Some? then byPattern
        else FirstMatch(IdInText, [query], entries)
  }

  /**
   * The fuzzy step is reached only when no span occurs in any name: as soon as
   * one does, the answer is a profile whose name contains a recognised span,
   * namely the one of the first matching pair in span-then-insertion order
   * that `FirstPair` describes.
   */
  lemma ExactMatchWins(entries: seq<Entry>, query: string, ents: Entities, captures: seq<string>, i: nat, j: nat)
    requires i < |ents.persons| && j < |entries|
    requires Matches(SpanInName, ents.persons[i], entries[j])
    ensures exists i', j' :: 0 <= i' < |ents.persons| && 0 <= j' < |entries|
              && Resolve(entries, query, ents, captures) == Some(entries[j'].id)
              && Matches(SpanInName, ents.persons[i'], entries[j'])
    ensures Resolve(entries, query, ents, captures) == FirstMatch(SpanInName, ents.persons, entries)
  {
    var p := FirstPair(SpanInName, ents.persons, entries);
    assert p.Some?;
    assert FirstMatch(SpanInName, ents.persons, entries) == Some(entries[p.value.1].id);
  }

  /** When the id-in-text step finds nothing, no loaded id is empty (the empty id occurs in every query). */
  lemma NoIdInTextMeansNoEmptyId(query: string, entries: seq<Entry>)
    requires FirstPair(IdInText, [query], entries).None?
    ensures forall j :: 0 <= j < |entries| ==> !Contains(Lower(query), Lower(entries[j].id))
    ensures "" !in Ids(entries)
  {
    forall j | 0 <= j < |entries|
      ensures !Contains(Lower(query), Lower(entries[j].id))
      ensures Ids(entries)[j] != ""
    {
      assert !Matches(IdInText, [query][0], entries[j]);
      EmptyOccurs(Lower(query));
    }
  }

  /** Resolution is unsuccessful only when none of the four methods finds anything. */
  lemma UnresolvedMeansNothingMatched(entries: seq<Entry>, query: string, ents: Entities, captures: seq<string>)
    requires Resolve(entries, query, ents, captures).None?
    ensures NoExactMatch(ents.persons, entries)
    ensures forall p, e :: p in ents.persons && e in entries ==> p != [] && Similarity(p, NameOf(e)) <= 0.5
    ensures forall i, j :: 0 <= i < |captures| && 0 <= j < |entries| ==> !Matches(EitherContains, captures[i], entries[j])
    ensures forall j :: 0 <= j < |entries| ==> !Contains(Lower(query), Lower(entries[j].id))
  {
    assert FirstMatch(SpanInName, ents.persons, entries).None?;
    assert FirstPair(SpanInName, ents.persons, entries).None?;
    assert FirstMatch(EitherContains, captures, entries).None?;
    assert FirstPair(EitherContains, captures, entries).None?;
    assert FirstMatch(IdInText, [query], entries).None?;
    assert FirstPair(IdInText, [query], entries).None?;
    NoIdInTextMeansNoEmptyId(query, entries);
    // with no empty identifier loaded, a fuzzy pick would have been returned
    var fuzzy := FuzzyBest(ents.persons, entries);
    assert fuzzy.None?;
    FuzzyBestNoneIffLowScores(ents.persons, entries);
  }

  /** And when none of the four methods finds anything, resolution is unsuccessful. */
  lemma NothingMatchedMeansUnresolved(entries: seq<Entry>, query: string, ents: Entities, captures: seq<string>)
    requires NoExactMatch(ents.persons, entries)
    requires forall p, e :: p in ents.persons && e in entries ==> Similarity(p, NameOf(e)) <= 0.5
    requires forall i, j :: 0 <= i < |captures| && 0 <= j < |entries| ==> !Matches(EitherContains, captures[i], entries[j])
    requires forall j :: 0 <= j < |entries| ==> !Contains(Lower(query), Lower(entries[j].id))
    ensures Resolve(entries, query, ents, captures).None?
  {
    assert FirstPair(SpanInName, ents.persons, entries).None?;
    FuzzyBestNoneIffLowScores(ents.persons, entries);
    assert FirstPair(EitherContains, captures, entries).None?;
    assert FirstPair(IdInText, [query], entries).None?;
  }
}
