/**
 * Category classification (`identify_query_category`): every category has a
 * fixed keyword list; the query's lower-cased text scores one point per keyword
 * it contains, and the category with the strictly highest score wins, the
 * earliest-declared category winning a tie. With no keyword at all the answer
 * is `General`.
 */
module Categories {
  import opened Wrappers
  import opened Text
  import opened FirstMax

  datatype Category =
    Education | Experience | Skills | Languages | Certifications | Location | Contact | General

  /** The categories in the order the source's table declares them. */
  const Declared: seq<Category> :=
    [Education, Experience, Skills, Languages, Certifications, Location, Contact, General]

  /** The position of a category in `Declared`. */
  function Position(c: Category): (k: nat)
    ensures k < |Declared| && Declared[k] == c
  {
    match c
    case Education => 0
    case Experience => 1
    case Skills => 2
    case Languages => 3
    case Certifications => 4
    case Location => 5
    case Contact => 6
    case General => 7
  }

  /**
   * The trigger keywords of each category, as the source's table lists them.
   * Every category has keywords, and none is empty: an empty keyword would hit
   * every query.
   */
  function Keywords(c: Category): (r: seq<string>)
    ensures r != []
    ensures forall k :: 0 <= k < |r| ==> r[k] != []
  {
    match c
    case Education =>
      ["education", "degree", "university", "college", "school",
       "study", "studied", "graduate", "graduated", "qualification",
       "academic", "diploma", "bachelor", "master", "phd", "doctorate"]
    case Experience =>
      ["experience", "work", "job", "position", "employment", "career",
       "company", "organization", "industry", "role", "worked",
       "working", "professional"]
    case Skills =>
      ["skill", "expertise", "proficiency", "capability", "competency",
       "talent", "ability", "know", "knows", "proficient", "capable",
       "experienced in"]
    case Languages =>
      ["language", "speak", "speaking", "fluent", "proficient",
       "native", "bilingual", "multilingual"]
    case Certifications =>
      ["certification", "certificate", "certified", "credential",
       "qualification", "license", "accreditation"]
    case Location =>
      ["location", "located", "live", "lives", "based", "residing",
       "residence", "city", "country", "address", "area"]
    case Contact =>
      ["contact", "email", "phone", "website", "connect", "reach",
       "social media", "linkedin", "twitter"]
    case General =>
      ["about", "profile", "background", "summary", "overview",
       "introduction", "who is", "tell me about", "information"]
  }

  /** `sum(keyword in lq for keyword in keywords)`. */
  function MatchCount(keywords: seq<string>, lq: string): (n: nat)
    ensures n <= |keywords|
  {
    if keywords == [] then 0
    else (if Contains(lq, keywords[0]) then 1 else 0) + MatchCount(keywords[1..], lq)
  }

  /** The count is zero exactly when none of the keywords occurs. */
  lemma {:induction false} MatchCountZero(keywords: seq<string>, lq: string)
    ensures MatchCount(keywords, lq) == 0 <==> forall k :: 0 <= k < |keywords| ==> !Contains(lq, keywords[k])
  {
    if keywords != [] {
      MatchCountZero(keywords[1..], lq);
      assert forall k :: 0 < k < |keywords| ==> keywords[1..][k - 1] == keywords[k];
    }
  }

  /** The score of one category on the lower-cased query. */
  function Hits(c: Category, lq: string): nat {
    MatchCount(Keywords(c), lq)
  }

  /** The scores of all categories, in declaration order. */
  function Scores(lq: string): (s: seq<real>)
  {
    seq(|Declared|, k requires 0 <= k < |Declared| => Hits(Declared[k], lq) as real)
  }

  /** Scanning category `i`: it becomes the best exactly when its count is positive and beats the best so far. */
  lemma ScanAt(lq: string, i: nat)
    requires i < |Declared|
    ensures var v := MatchCount(Keywords(Declared[i]), lq) as real;
            var prev := Scan(Scores(lq)[..i], 0.0);
            Scan(Scores(lq)[..i + 1], 0.0) == if v > 0.0 && v > prev.score then Pick(Some(i), v) else prev
  {
    var s := Scores(lq);
    assert s[i] == Hits(Declared[i], lq) as real;
    assert s[..i + 1] == s[..i] + [s[i]];
    ScanSnoc(s[..i], s[i], 0.0);
  }

  /** The category the scan over the scores settles on. */
  function Winner(p: Pick): Category
    requires p.index.Some? ==> p.index.value < |Declared|
  {
    match p.index
    case Some(k) => Declared[k]
    case None => General
  }

  /**
   * `identify_query_category(query)`, as a function of the query: no category
   * has more keyword hits than the one chosen, and a choice without any hit
   * is `General`.
   */
  function Classify(query: string): (r: Category)
    ensures forall c :: Hits(c, Lower(query)) <= Hits(r, Lower(query))
    ensures Hits(r, Lower(query)) == 0 ==> r == General
  {
    BestIsTopScore(Lower(query));
    BestZeroIsGeneral(Lower(query));
    Best(Lower(query))
  }

  /** The category the scan settles on for an already lower-cased query. */
  function Best(lq: string): Category
  {
    Winner(Scan(Scores(lq), 0.0))
  }

  /** The winning category has the highest score of all. */
  lemma BestIsTopScore(lq: string)
    ensures forall c :: Hits(c, lq) <= Hits(Best(lq), lq)
  {
    var s := Scores(lq);
    ScanIsFirstMax(s, 0.0);
    var p := Scan(s, 0.0);
    var top: real := if p.index.Some? then s[p.index.value] else 0.0;
    assert top == Hits(Best(lq), lq) as real by {
      if p.index.Some? {
        assert Best(lq) == Declared[p.index.value];
      }
    }
    forall c
      ensures Hits(c, lq) <= Hits(Best(lq), lq)
    {
      assert s[Position(c)] == Hits(c, lq) as real;
    }
  }

  /** With a non-zero score, every category declared before the winner scores strictly less. */
  lemma BestIsFirstOfTop(lq: string)
    ensures Hits(Best(lq), lq) > 0 ==>
              forall c :: Position(c) < Position(Best(lq)) ==> Hits(c, lq) < Hits(Best(lq), lq)
  {
    var s := Scores(lq);
    ScanIsFirstMax(s, 0.0);
    var p := Scan(s, 0.0);
    if p.index.Some? {
      var k := p.index.value;
      assert Position(Declared[k]) == k by { PositionOfDeclared(k); }
      forall c | Position(c) < k
        ensures Hits(c, lq) < Hits(Best(lq), lq)
      {
        assert s[Position(c)] == Hits(c, lq) as real;
      }
    }
  }

  /** A winner with score zero is `General`. */
  lemma BestZeroIsGeneral(lq: string)
    ensures Hits(Best(lq), lq) == 0 ==> Best(lq) == General
  {
    var s := Scores(lq);
    ScanIsFirstMax(s, 0.0);
    var p := Scan(s, 0.0);
    if p.index.Some? {
      assert s[p.index.value] == Hits(Best(lq), lq) as real;
    }
  }

  /**
   * The winning category has the highest score of all, it is the first
   * category in declaration order to reach that score, and a query without
   * any keyword is `General`.
   */
  lemma ClassifyIsFirstBest(query: string)
    ensures forall c :: Hits(c, Lower(query)) <= Hits(Classify(query), Lower(query))
    ensures Hits(Classify(query), Lower(query)) > 0 ==>
              forall c :: Position(c) < Position(Classify(query)) ==>
                Hits(c, Lower(query)) < Hits(Classify(query), Lower(query))
    ensures Hits(Classify(query), Lower(query)) == 0 ==> Classify(query) == General
  {
    BestIsTopScore(Lower(query));
    BestIsFirstOfTop(Lower(query));
    BestZeroIsGeneral(Lower(query));
  }

  lemma PositionOfDeclared(k: nat)
    requires k < |Declared|
    ensures Position(Declared[k]) == k
  {
  }

  /** A query containing none of the keywords of any category is `General`. */
  lemma NoKeywordMeansGeneral(query: string)
    requires forall c, k :: 0 <= k < |Keywords(c)| ==> !Contains(Lower(query), Keywords(c)[k])
    ensures Classify(query) == General
  {
    ClassifyIsFirstBest(query);
    MatchCountZero(Keywords(Classify(query)), Lower(query));
  }

  /**
   * When two categories score the same non-zero count, the later-declared one
   * never wins; this is why `Skills` beats `Languages` on the shared keyword
   * "proficient".
   */
  lemma TieGoesToEarlier(query: string, earlier: Category, later: Category)
    requires Position(earlier) < Position(later)
    requires Hits(earlier, Lower(query)) == Hits(later, Lower(query)) > 0
    ensures Classify(query) != later
  {
    ClassifyIsFirstBest(query);
  }
}
