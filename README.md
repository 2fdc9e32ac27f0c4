# Profile query processor — a Dafny model

This project models the query pipeline of `ProfileQueryProcessor`
(`query-processor.py`). The pipeline answers a natural-language question
about a stored professional profile in four steps:

1. **Subject resolution** (`extract_profile_name_from_query`) turns the
   query into the identifier of a loaded profile. It tries four methods in
   order, and the first that succeeds wins:
   - a PERSON span occurs, ignoring case, in a profile name;
   - the best "distinct shared characters" score of a span against a name,
     if it is above 1/2;
   - a captured name and a profile name, one containing the other;
   - a profile identifier occurs in the query.
2. **Category classification** (`identify_query_category`) counts keyword
   hits per category. The first category with the strictly highest count
   wins, and the default is `general`.
3. **Refinement extraction** (`extract_specific_request`) applies ordered
   keyword rules. For `experience` they yield current, previous or a company.
   For `education` they yield highest or a degree level.
4. **Response synthesis** (`_generate_response`) fills a fixed sentence
   template per category from the profile record. An empty list gets a fixed
   sentence instead.

`process_query` chains the four steps and builds the success or failure
result. `_load_profile` stores a parsed record in the `loaded_profiles`
dictionary.

## Modules

| file | module | contents |
|---|---|---|
| `wrappers.dfy` | `Wrappers` | `Option`, with `GetOr` standing in for `dict.get(key, default)` |
| `text.dfy` | `Text` | ASCII `Lower`, substring `Contains`, `Join`, and containment lemmas |
| `search.dfy` | `Search` | first-match search over test outcomes: one row (`FirstTrue`), or a grid searched row by row (`FirstCell`) |
| `first_max.dfy` | `FirstMax` | the "keep the best so far" scan both loops run, proved to select the first maximum above a floor |
| `profiles.dfy` | `Profiles` | the profile record, and the store as an insertion-ordered list of (identifier, record) entries with `Lookup`/`Insert` |
| `categories.dfy` | `Categories` | the category keyword table and the classifier |
| `refinements.dfy` | `Refinements` | refinement rules and the refinement's string encoding |
| `resolver.dfy` | `Resolver` | the four-step subject resolution |
| `responses.dfy` | `Responses` | the response templates |
| `processor.dfy` | `QueryProcessor` | `Process` (the pipeline as a function) and the `ProfileQueryProcessor` class |

The class has one field, `loadedProfiles`, which is the dictionary.
- `LoadProfile` updates that field in place.
- The two loops that update state (a running best candidate and best score)
  are methods with loop invariants, each proved equal to the function that
  specifies it: the category loop (`IdentifyQueryCategory` against
  `Classify`) and the fuzzy-match loop (`FuzzyMatch` against `FuzzyBest`).
- The source's other loops only search and return the first hit
  (lines 116-120, 150-153, 156-158, 201-222, 301-305, 334-338). They are the
  first-match functions `FirstPair`, `FirstContained` and `FirstTrue`.
- `ExtractProfileNameFromQuery` and `ProcessQuery` call them and are proved
  equal to `Resolve` and `Process`.

Modelling decisions:
- Python dictionaries keep insertion order, and every search in the source
  walks `loaded_profiles` in that order. The store is therefore a sequence of
  entries with distinct identifiers, not a map.
- Similarity scores are exact rationals (`real`). The source divides two small
  integers as floats. Two different ratios of integers below 2^26 never round
  to the same double. So the float comparisons `> 0.5` and `> best_score`
  decide exactly as the rational ones do.
- The fuzzy score divides by the longer of the two lengths. Both strings are
  empty only when the span is empty. The empty span occurs in every name, so
  the exact-match step would already have returned. `FuzzyMatch` therefore
  requires that no span matched exactly (`NoExactMatch`), and
  `NoExactMatchScorable` proves every denominator is positive there.
- An empty identifier is falsy in Python, and the model keeps that behaviour
  in two places:
  - a fuzzy pick of `""` is skipped (`if best_match:`);
  - `process_query` treats a resolved `""` like no identifier (`if not profile_id:`).
- The source passes a refinement as a string such as `"company:Acme"`. The
  model uses the `Refinement` datatype instead. `RequestText` and
  `ParseRequest` are the encoding and the reading that `_generate_response`
  applies. `ParseRequestText` and the contract of `ParseRequest` prove that
  they are inverse to each other.
- Two steps use the same "keep the best" update: the category loop with floor
  0 over keyword counts, and the fuzzy loop with floor 1/2 over scores. Both
  are `FirstMax.Scan`.

## Model

| member | source | states |
|---|---|---|
| Text.Lower | query-processor.py:172 | lower-casing keeps the length, lower-cases each ASCII capital in place, and leaves no ASCII capital |
| Text.ContainsInContext | query-processor.py:119 | a substring of the middle part is a substring of the whole concatenation |
| Text.JoinContainsItems | query-processor.py:313 | every item of a list occurs in the list joined with any separator |
| Search.FirstTrue | query-processor.py:301-305 | the first position whose test holds; none exactly when no test holds |
| Search.FirstCell | query-processor.py:116-120 | the first row that has a passing cell and, within it, the first passing cell; none exactly when no cell passes |
| FirstMax.Scan | query-processor.py:131-133 | the left-to-right "keep the best" scan the two loops perform; a picked index is a position of the scores (what it picks is `ScanIsFirstMax`) |
| FirstMax.ScanSnoc | query-processor.py:131-133 | one more score replaces the best exactly when it is above the floor and strictly above the best so far |
| FirstMax.ScanIsFirstMax | query-processor.py:123-133 | the scan picks nothing exactly when no score is above the floor; otherwise it picks the first maximum above the floor, with that score |
| Profiles.Ids | query-processor.py:243 | the stored identifiers, position by position, in insertion order |
| Profiles.Lookup | query-processor.py:256 | none exactly when the identifier is not stored; otherwise a record stored under that identifier |
| Profiles.LookupStored | query-processor.py:256 | with distinct keys, looking up a stored key gives exactly the record stored under it |
| Profiles.Insert | query-processor.py:94 | `loaded_profiles[id] = profile`: the new entry is stored, every entry under another key is kept, and nothing else appears |
| Profiles.InsertIds | query-processor.py:94 | storing under an existing key keeps the key list; a new key is appended at the end |
| Profiles.InsertLookup | query-processor.py:94 | after storing, the key maps to the new record and every other key to what it mapped to before |
| Profiles.InsertKeepsDistinct | query-processor.py:94 | storing keeps the keys distinct |
| Profiles.InsertIdempotent | query-processor.py:94 | storing the same record twice leaves the store as storing it once did |
| QueryProcessor.ProfileQueryProcessor.constructor | query-processor.py:34 | a new processor has an empty store |
| QueryProcessor.ProfileQueryProcessor.LoadProfile | query-processor.py:78-96 | returns true exactly when the file exists; then the store becomes the insertion of its record and the key looks up that record; otherwise the store is unchanged |
| Categories.Keywords | query-processor.py:38-65 | the keyword table; every category has keywords and no keyword is empty, so none matches every query |
| Categories.Position | query-processor.py:38-65 | each category's position in the declaration order of the keyword table |
| Categories.MatchCount | query-processor.py:179 | the keyword count is at most the number of keywords |
| Categories.MatchCountZero | query-processor.py:179 | the keyword count is zero exactly when no keyword occurs in the lower-cased query |
| Categories.ScanAt | query-processor.py:178-182 | visiting category i makes it the best exactly when its count is positive and strictly above the best count so far |
| Categories.BestIsTopScore | query-processor.py:175-184 | no category has more keyword hits than the chosen one |
| Categories.BestIsFirstOfTop | query-processor.py:180-182 | with a positive count, every category declared earlier has strictly fewer hits than the chosen one |
| Categories.BestZeroIsGeneral | query-processor.py:175-176 | a chosen category with zero hits is `general` |
| Categories.Classify | query-processor.py:172-184 | no category has more keyword hits on the lower-cased query than the chosen one, and a chosen category without hits is `general` (the scan over the per-category counts `Scores`) |
| Categories.ClassifyIsFirstBest | query-processor.py:172-184 | the classification is the first-declared category with the most hits, and `general` when nothing matched |
| Categories.NoKeywordMeansGeneral | query-processor.py:172-184 | a query containing no keyword of any category is classified `general` |
| Categories.TieGoesToEarlier | query-processor.py:47-52 | when two categories tie on a positive count, the later-declared one is never chosen, so `skills` beats `languages` on "proficient" |
| QueryProcessor.ProfileQueryProcessor.IdentifyQueryCategory | query-processor.py:162-184 | the loop over the keyword table returns `Classify(query)` |
| Refinements.FirstContained | query-processor.py:220-222 | the first word of the list that occurs; none exactly when none occurs |
| Refinements.Refine | query-processor.py:186-224 | categories other than experience and education get none. For experience: current if a current word occurs; else previous if a previous word occurs; else the first ORG span as a company. For education: highest if a highest word occurs; else the first degree word that occurs |
| Refinements.RequestText | query-processor.py:203-222 | the string form of a refinement: exactly the company forms start with "company:", exactly the degree forms with "degree:", and the other three are the plain words `current`, `previous`, `highest` |
| Refinements.ParseRequest | query-processor.py:293-333 | how the response step reads the string back (`==` on the plain words, `startswith` and `split(":", 1)[1]` on the tagged ones); whatever it reads back re-encodes to the same string |
| Refinements.ParseRequestText | query-processor.py:299-300 | reading back the string form of a refinement gives the refinement |
| Refinements.MostRecentDegreeIsHighest | query-processor.py:216-218 | an education query containing "most recent" refines to highest |
| Resolver.FirstPair | query-processor.py:116-120 | the first text, then the first profile in insertion order, that pass the test; none exactly when no pair passes (searched over the outcome grid `Outcomes`) |
| Resolver.FirstMatch | query-processor.py:150-153 | an identifier found by a containment search is a loaded identifier |
| Resolver.CharSet | query-processor.py:130 | a character is in the set exactly when it occurs in the string |
| Resolver.Similarity | query-processor.py:130 | the fuzzy score lies between 0 and 1: the shared distinct characters never outnumber the longer length |
| Resolver.Candidates | query-processor.py:126-127 | every scored pair combines a recognised span with a loaded profile |
| Resolver.CandidatesCover | query-processor.py:126-127 | every span against every loaded profile is among the scored pairs |
| Resolver.NoExactMatchPerson | query-processor.py:119 | after the exact step fails, no span is empty |
| Resolver.NoExactMatchScorable | query-processor.py:130 | after the exact step fails, no similarity divides by zero |
| Resolver.FuzzyBest | query-processor.py:123-136 | a fuzzy pick is a loaded identifier (scanned over `SimScores` of `Candidates`, the spans paired with every profile by `Pairs`) |
| Resolver.FuzzyBestNoneIffLowScores | query-processor.py:126-136 | the fuzzy step picks nothing exactly when every similarity is at most 1/2 |
| Resolver.FuzzyBestIsFirstMax | query-processor.py:126-133 | the fuzzy pick is the profile of the first pair with the highest similarity above 1/2 |
| Resolver.Resolve | query-processor.py:98-160 | every identifier resolution returns is a loaded identifier, so the not-found branch of `process_query` cannot be reached |
| Resolver.ExactMatchWins | query-processor.py:114-120 | when some span matches some name, resolution returns step 1's answer: the identifier of the first matching pair in span-then-insertion order, an exactly matching profile |
| Resolver.NoIdInTextMeansNoEmptyId | query-processor.py:155-158 | when no identifier occurs in the query, no loaded identifier is empty |
| Resolver.UnresolvedMeansNothingMatched | query-processor.py:98-160 | an unresolved query means: no exact match, every similarity at most 1/2, no captured-name match, and no identifier in the query |
| Resolver.NothingMatchedMeansUnresolved | query-processor.py:114-160 | conversely, when no span occurs in a name, every similarity is at most 1/2, no captured name matches and no identifier occurs in the query, resolution returns nothing |
| QueryProcessor.SimScoresSnoc | query-processor.py:130 | scoring one more pair appends its similarity |
| QueryProcessor.TracksStep | query-processor.py:131-133 | the loop's update of best match and best score is one step of the scan |
| QueryProcessor.PairsExtend | query-processor.py:127 | the inner loop's next profile extends the pairs seen by one |
| QueryProcessor.CandidatesExtend | query-processor.py:126 | the outer loop's next span extends the pairs seen by all its pairs |
| QueryProcessor.ProfileQueryProcessor.FuzzyMatch | query-processor.py:123-133 | the nested fuzzy loop returns `FuzzyBest` |
| QueryProcessor.ProfileQueryProcessor.ExtractProfileNameFromQuery | query-processor.py:98-160 | the method returns `Resolve` of the store, the spans and the captured names |
| Responses.FirstStudyWith | query-processor.py:301-305 | the first study whose degree contains the level, ignoring case; none exactly when no degree does (over the per-study tests `DegreeHits`) |
| Responses.FirstJobAt | query-processor.py:334-338 | the first job whose company contains the name, ignoring case; none exactly when no company does (over the per-job tests `CompanyHits`) |
| Responses.EducationResponse | query-processor.py:289-313 | the education branch; every education answer contains the name |
| Responses.ExperienceResponse | query-processor.py:315-346 | the experience branch; every experience answer contains the name |
| Responses.GeneralResponse | query-processor.py:380-398 | the general summary; it starts with the name |
| Responses.GenerateResponse | query-processor.py:275-398 | every response, in every category and refinement, contains the profile's name |
| Responses.PrefixOfLonger | query-processor.py:398 | a prefix of the first sentence is a prefix of the joined summary |
| Responses.HistoryListsEveryEntry | query-processor.py:311-346 | the unrefined experience and education answers contain every job and every study (the items of `JobItems` and `StudyItems`) |
| Responses.ListingsMentionEveryItem | query-processor.py:352-367 | the skills, languages and certifications answers contain every item (the items of `LanguageItems` and `CertificationItems`) |
| Responses.EmptyHistoryGetsFixedSentence | query-processor.py:289-317 | empty education or experience gets its fixed sentence, whatever the refinement |
| Responses.EmptyListsGetFixedSentences | query-processor.py:348-375 | empty skills, languages, certifications or contact details get their fixed sentence |
| Responses.CurrentAndPreviousJob | query-processor.py:319-329 | current is exactly the first job's sentence; previous is the second job's sentence, or the fixed sentence when there is only one job |
| Responses.JobAtCompany | query-processor.py:332-341 | a company request answers with the first job whose company contains the name, ignoring case, and with the fixed sentence when none does |
| Responses.HighestStudy | query-processor.py:293-296 | highest is exactly the first study's sentence |
| Responses.StudyWithDegree | query-processor.py:299-308 | a degree request answers with the first study whose degree contains the level, ignoring case, and with the fixed sentence when none does |
| QueryProcessor.Process | query-processor.py:226-273 | failure exactly when no (non-empty) identifier is resolved, with the fixed error and all loaded identifiers. Otherwise the answer carries the resolved loaded identifier, `Classify`, `Refine` and `GenerateResponse` of its record |
| QueryProcessor.AnswerNamesProfile | query-processor.py:265-272 | every successful answer contains the resolved profile's name (from the contract of `GenerateResponse`) |
| QueryProcessor.NothingMatchedMeansNoAnswer | query-processor.py:237-244 | a query in which none of the four resolution methods finds anything gets the fixed error and every loaded identifier |
| QueryProcessor.ProfileQueryProcessor.ProcessQuery | query-processor.py:226-273 | the method returns `Process` of the current store; as the store never holds a key twice, an answer is rendered from the one record stored under the resolved key |

## Left out

- The spaCy model and its `nlp(...)` calls are not modelled; they are a foreign NLP library. Their PERSON and ORG spans come in as `Entities`.
- The two regular expressions of the pattern step are not modelled; Python's `re` semantics are out of scope. Their captured, stripped names come in as `captures`, in pattern order. Only the containment search that follows is modelled.
- `_load_all_profiles` is not modelled: the directory walk, `os.path.exists` and JSON parsing are I/O. `LoadProfile` receives the parsed file, or none when there is no file.
- The "Profile … not found" branch of `process_query` is not modelled. `Resolve` only returns loaded identifiers, so that branch cannot be reached.
- `Text.Lower` lower-cases ASCII only; Unicode case mapping is not modelled.
- Records are assumed well-formed. A record missing `basics.name`, or a job or study missing a field, would raise `KeyError` in the source. The model's record type always has these fields.
- The optional `basics` fields `headline`, `location` and `summary` are `Option`s. A field present with a JSON `null` value is not distinguished from an absent one.
- Contact details are a `map<string, string>`. An `email` or `phone` present with a JSON `null` value, which the source prints as `None` (line 378), cannot be represented; `ContactField` gives "Not provided" only for an absent key.
- `main.py`, `api-server.py`, `wati-integration.py` and `profile-scraper.py` are not part of this model; they are configuration, HTTP and file plumbing around the processor.
