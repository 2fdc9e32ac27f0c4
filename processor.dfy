/**
 * The query pipeline of `ProfileQueryProcessor`: resolve the subject,
 * classify the query, extract the refinement and render the answer; and the
 * processor object whose `loaded_profiles` dictionary `_load_profile` updates.
 */
module QueryProcessor {
  import opened Wrappers
  import opened Text
  import opened FirstMax
  import opened Profiles
  import opened Categories
  import opened Refinements
  import opened Resolver
  import opened Responses

  /** The dictionary `process_query` returns: an answer, or an error with the loaded identifiers. */
  datatype QueryResult =
    | Answered(profileId: string, category: Category, specificRequest: Option<Refinement>, response: string)
    | Unanswered(error: string, availableProfiles: seq<string>)

  const NoProfileError: string := "Could not identify a profile in your query"

  /**
   * `process_query(query)` over the store's contents. An identifier that is
   * the empty string is falsy in the source and is treated as no identifier.
   * The source's fallback for an identifier that is not loaded is absent:
   * `Resolve` only ever returns loaded identifiers.
   */
  function Process(entries: seq<Entry>, query: string, ents: Entities, captures: seq<string>): (r: QueryResult)
    ensures r.Unanswered? <==>
              Resolve(entries, query, ents, captures).None? || Resolve(entries, query, ents, captures) == Some("")
    ensures r.Unanswered? ==> r.error == NoProfileError && r.availableProfiles == Ids(entries)
    ensures r.Answered? ==>
              && Some(r.profileId) == Resolve(entries, query, ents, captures)
              && r.profileId in Ids(entries)
              && Lookup(entries, r.profileId).Some?
              && r.category == Classify(query)
              && r.specificRequest == Refine(query, r.category, ents.orgs)
              && r.response == GenerateResponse(Lookup(entries, r.profileId).value, r.category, r.specificRequest)
  {
    var resolved := Resolve(entries, query, ents, captures);
    if resolved.None? || resolved.value == "" then Unanswered(NoProfileError, Ids(entries))
    else
      var profile := Lookup(entries, resolved.value).value;
      var category := Classify(query);
      var request := Refine(query, category, ents.orgs);
      Answered(resolved.value, category, request, GenerateResponse(profile, category, request))
  }

  /** Every answer mentions the name of the profile it was resolved to. */
  lemma AnswerNamesProfile(entries: seq<Entry>, query: string, ents: Entities, captures: seq<string>)
    ensures var r := Process(entries, query, ents, captures);
            r.Answered? ==> Contains(r.response, Lookup(entries, r.profileId).value.basics.name)
  {
  }

  /**
   * A query in which none of the four resolution methods finds anything is
   * answered with the fixed error and every loaded identifier.
   */
  lemma NothingMatchedMeansNoAnswer(entries: seq<Entry>, query: string, ents: Entities, captures: seq<string>)
    requires NoExactMatch(ents.persons, entries)
    requires forall p, e :: p in ents.persons && e in entries ==> Similarity(p, NameOf(e)) <= 0.5
    requires forall i, j :: 0 <= i < |captures| && 0 <= j < |entries| ==> !Matches(EitherContains, captures[i], entries[j])
    requires forall j :: 0 <= j < |entries| ==> !Contains(Lower(query), Lower(entries[j].id))
    ensures Process(entries, query, ents, captures) == Unanswered(NoProfileError, Ids(entries))
  {
    NothingMatchedMeansUnresolved(entries, query, ents, captures);
  }

  /** The fuzzy loop's best candidate and best score are those of the scan over the candidates seen so far. */
  ghost predicate Tracks(bestMatch: Option<string>, bestScore: real, cands: seq<(string, Entry)>)
    requires Scorable(cands)
  {
    var pick := Scan(SimScores(cands), 0.5);
    && bestScore == pick.score
    && bestMatch == (if pick.index.Some? then Some(cands[pick.index.value].1.id) else None)
  }

  /** Scoring one more candidate appends its similarity to the scores. */
  lemma SimScoresSnoc(before: seq<(string, Entry)>, cand: (string, Entry))
    requires Scorable(before) && (cand.0 != [] || NameOf(cand.1) != [])
    ensures Scorable(before + [cand])
    ensures SimScores(before + [cand]) == SimScores(before) + [Similarity(cand.0, NameOf(cand.1))]
  {
    assert (before + [cand])[|before|] == cand;
  }

  /** One step of the fuzzy loop keeps `Tracks`: the update rule is the scan's. */
  lemma TracksStep(bestMatch: Option<string>, bestScore: real, before: seq<(string, Entry)>, cand: (string, Entry))
    requires Scorable(before) && (cand.0 != [] || NameOf(cand.1) != [])
    requires Tracks(bestMatch, bestScore, before)
    ensures Scorable(before + [cand])
    ensures var s := Similarity(cand.0, NameOf(cand.1));
            if s > 0.5 && s > bestScore
            then Tracks(Some(cand.1.id), s, before + [cand])
            else Tracks(bestMatch, bestScore, before + [cand])
  {
    var s := Similarity(cand.0, NameOf(cand.1));
    SimScoresSnoc(before, cand);
    var prior := Scan(SimScores(before), 0.5);
    ScanSnoc(SimScores(before), s, 0.5);
    var after := before + [cand];
    if s > 0.5 && s > bestScore {
      assert Scan(SimScores(after), 0.5) == Pick(Some(|before|), s);
      assert after[|before|] == cand;
    } else {
      assert Scan(SimScores(after), 0.5) == prior;
      if prior.index.Some? {
        assert after[prior.index.value] == before[prior.index.value];
      }
    }
  }

  /** Scoring one more profile against the current span extends the candidates by that pair. */
  lemma PairsExtend(done: seq<(string, Entry)>, person: string, entries: seq<Entry>, j: nat)
    requires j < |entries|
    ensures done + Pairs(person, entries[..j + 1]) == done + Pairs(person, entries[..j]) + [(person, entries[j])]
  {
  }

  /** Finishing one span appends all its pairs to the candidates. */
  lemma CandidatesExtend(persons: seq<string>, entries: seq<Entry>, i: nat)
    requires i < |persons|
    ensures Candidates(persons[..i + 1], entries) == Candidates(persons[..i], entries) + Pairs(persons[i], entries)
  {
    var prefix := persons[..i + 1];
    assert prefix != [] && prefix[..|prefix| - 1] == persons[..i] && prefix[|prefix| - 1] == persons[i];
  }

  class ProfileQueryProcessor {
    /** `loaded_profiles`, in insertion order. */
    var loadedProfiles: seq<Entry>

    ghost predicate Valid()
      reads this
    {
      DistinctIds(loadedProfiles)
    }

    /** A processor with nothing loaded yet. */
    constructor ()
      ensures Valid() && loadedProfiles == []
    {
      loadedProfiles := [];
    }

    /**
     * `_load_profile(profile_id)`. `file` is the parsed content of the
     * profile's file, `None` when the file does not exist.
     */
    method LoadProfile(profileId: string, file: Option<Profile>) returns (ok: bool)
      requires Valid()
      modifies this
      ensures Valid()
      ensures ok <==> file.Some?
      ensures loadedProfiles == if ok then Insert(old(loadedProfiles), profileId, file.value) else old(loadedProfiles)
      ensures ok ==> Lookup(loadedProfiles, profileId) == file
    {
      if file.None? {
        return false;
      }
      InsertKeepsDistinct(loadedProfiles, profileId, file.value);
      InsertLookup(loadedProfiles, profileId, file.value, profileId);
      loadedProfiles := Insert(loadedProfiles, profileId, file.value);
      return true;
    }

    /**
     * The fuzzy step of `extract_profile_name_from_query`: every span
     * against every loaded name, keeping the best score above 1/2.
     */
    method FuzzyMatch(persons: seq<string>) returns (bestMatch: Option<string>)
      requires NoExactMatch(persons, loadedProfiles)
      ensures bestMatch == FuzzyBest(persons, loadedProfiles)
    {
      var entries := loadedProfiles;
      bestMatch := None;
      var bestScore: real := 0.0;
      ghost var seen: seq<(string, Entry)> := [];
      var i := 0;
      while i < |persons|
        invariant 0 <= i <= |persons|
        invariant seen == Candidates(persons[..i], entries)
        invariant Scorable(seen) && Tracks(bestMatch, bestScore, seen)
      {
        var person := persons[i];
        ghost var done := seen;
        var j := 0;
        assert Pairs(person, entries[..0]) == [];
        assert done + Pairs(person, entries[..0]) == done;
        while j < |entries|
          invariant 0 <= j <= |entries|
          invariant seen == done + Pairs(person, entries[..j])
          invariant Scorable(seen) && Tracks(bestMatch, bestScore, seen)
        {
          NoExactMatchPerson(persons, entries, i, j);
          var similarity := Similarity(person, entries[j].profile.basics.name);
          PairsExtend(done, person, entries, j);
          TracksStep(bestMatch, bestScore, seen, (person, entries[j]));
          seen := seen + [(person, entries[j])];
          if similarity > 0.5 && similarity > bestScore {
            bestMatch := Some(entries[j].id);
            bestScore := similarity;
          }
          j := j + 1;
        }
        assert entries[..|entries|] == entries;
        CandidatesExtend(persons, entries, i);
        i := i + 1;
      }
      assert persons[..|persons|] == persons;
      NoExactMatchScorable(persons, entries, Candidates(persons, entries));
    }

    /** `extract_profile_name_from_query(query)`. */
    method ExtractProfileNameFromQuery(query: string, ents: Entities, captures: seq<string>)
      returns (profileId: Option<string>)
      ensures profileId == Resolve(loadedProfiles, query, ents, captures)
    {
      if ents.persons != [] {
        var exact := FirstMatch(SpanInName, ents.persons, loadedProfiles);
        if exact.Some? {
          return exact;
        }
        assert FirstPair(SpanInName, ents.persons, loadedProfiles).None?;
        var bestMatch := FuzzyMatch(ents.persons);
        if bestMatch.Some? && bestMatch.value != "" {
          return bestMatch;
        }
      }
      var byPattern := FirstMatch(EitherContains, captures, loadedProfiles);
      if byPattern.Some? {
        return byPattern;
      }
      profileId := FirstMatch(IdInText, [query], loadedProfiles);
    }

    /** `identify_query_category(query)`. */
    method IdentifyQueryCategory(query: string) returns (category: Category)
      ensures category == Classify(query)
    {
      var lq := Lower(query);
      ghost var scores := Scores(lq);
      ghost var best := Scan(scores[..0], 0.0);
      var maxMatches: nat := 0;
      category := General;
      var i := 0;
      while i < |Declared|
        invariant 0 <= i <= |Declared|
        invariant best == Scan(scores[..i], 0.0)
        invariant maxMatches as real == best.score && category == Winner(best)
      {
        var matches := MatchCount(Keywords(Declared[i]), lq);
        ScanAt(lq, i);
        if matches > maxMatches {
          maxMatches := matches;
          category := Declared[i];
        }
        best := Scan(scores[..i + 1], 0.0);
        i := i + 1;
      }
      assert scores[..|Declared|] == scores;
    }

    /**
     * `process_query(query)`. Since the store never holds a key twice, an
     * answer is rendered from the one record stored under the resolved key.
     */
    method ProcessQuery(query: string, ents: Entities, captures: seq<string>) returns (result: QueryResult)
      requires Valid()
      ensures result == Process(loadedProfiles, query, ents, captures)
      ensures result.Answered? ==>
                forall j :: 0 <= j < |loadedProfiles| && loadedProfiles[j].id == result.profileId ==>
                  result.response == GenerateResponse(loadedProfiles[j].profile, result.category, result.specificRequest)
    {
      var profileId := ExtractProfileNameFromQuery(query, ents, captures);
      if profileId.None? || profileId.value == "" {
        return Unanswered(NoProfileError, Ids(loadedProfiles));
      }
      // where the source would reload a missing profile, the identifier is already loaded
      var profile := Lookup(loadedProfiles, profileId.value).value;
      var category := IdentifyQueryCategory(query);
      var request := Refine(query, category, ents.orgs);
      result := Answered(profileId.value, category, request, GenerateResponse(profile, category, request));
      forall j | 0 <= j < |loadedProfiles| && loadedProfiles[j].id == profileId.value
        ensures profile == loadedProfiles[j].profile
      {
        LookupStored(loadedProfiles, j);
      }
    }
  }
}
