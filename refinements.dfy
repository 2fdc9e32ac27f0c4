/**
 * Refinement extraction (`extract_specific_request`): within the `Experience`
 * and `Education` categories, ordered keyword rules pick out which job or
 * degree the query asks for. The source passes the refinement around as a
 * string ("current", "company:Acme", "degree:phd", ...); the model uses a
 * datatype, and `RequestText`/`ParseRequest` are that string encoding.
 */
module Refinements {
  import opened Wrappers
  import opened Text
  import opened Categories

  datatype Refinement =
    | Current
    | Previous
    | Company(name: string)
    | Highest
    | Degree(level: string)

  const CurrentWords: seq<string> := ["current", "latest", "most recent"]
  const PreviousWords: seq<string> := ["previous", "past", "before", "former"]
  const HighestWords: seq<string> := ["highest", "latest", "most recent"]
  const DegreeWords: seq<string> := ["bachelor", "master", "phd", "doctorate", "mba"]

  /** The position of the first of `words` that occurs in `lq`, in the order of `words`. */
  function FirstContained(lq: string, words: seq<string>): (r: Option<nat>)
    ensures r.None? <==> !ContainsAny(lq, words)
    ensures r.Some? ==> r.value < |words| && Contains(lq, words[r.value])
    ensures r.Some? ==> forall j :: 0 <= j < r.value ==> !Contains(lq, words[j])
  {
    if words == [] then None
    else if Contains(lq, words[0]) then Some(0)
    else
      match FirstContained(lq, words[1..])
      case None => None
      case Some(k) => Some(k + 1)
  }

  /**
   * `extract_specific_request(query, category)`; `orgs` are the organisation
   * entities the recogniser finds in the query, in text order.
   */
  function Refine(query: string, category: Category, orgs: seq<string>): (r: Option<Refinement>)
    ensures category != Experience && category != Education ==> r.None?
    ensures r == Some(Current) <==>
              category == Experience && ContainsAny(Lower(query), CurrentWords)
    ensures r == Some(Previous) <==>
              && category == Experience
              && !ContainsAny(Lower(query), CurrentWords)
              && ContainsAny(Lower(query), PreviousWords)
    ensures (r.Some? && r.value.Company?) <==>
              && category == Experience
              && !ContainsAny(Lower(query), CurrentWords)
              && !ContainsAny(Lower(query), PreviousWords)
              && orgs != []
    ensures r.Some? && r.value.Company? ==> r.value.name == orgs[0]
    ensures r == Some(Highest) <==>
              category == Education && ContainsAny(Lower(query), HighestWords)
    ensures (r.Some? && r.value.Degree?) <==>
              && category == Education
              && !ContainsAny(Lower(query), HighestWords)
              && ContainsAny(Lower(query), DegreeWords)
    ensures r.Some? && r.value.Degree? ==>
              exists k :: 0 <= k < |DegreeWords| && r.value.level == DegreeWords[k]
                && Contains(Lower(query), DegreeWords[k])
                && forall j :: 0 <= j < k ==> !Contains(Lower(query), DegreeWords[j])
  {
    var lq := Lower(query);
    if category == Experience then
      if ContainsAny(lq, CurrentWords) then Some(Current)
      else if ContainsAny(lq, PreviousWords) then Some(Previous)
      else if orgs != [] then Some(Company(orgs[0]))
      else None
    else if category == Education then
      if ContainsAny(lq, HighestWords) then Some(Highest)
      else
        match FirstContained(lq, DegreeWords)
        case Some(k) => Some(Degree(DegreeWords[k]))
        case None => None
    else None
  }

  /**
   * The string the source uses for a refinement. The `startswith` tests of
   * `_generate_response` tell the forms apart: exactly the company forms start
   * with "company:", exactly the degree forms with "degree:", and the other
   * three are the plain words.
   */
  function RequestText(r: Refinement): (s: string)
    ensures r.Company? <==> "company:" <= s
    ensures r.Degree? <==> "degree:" <= s
    ensures !r.Company? && !r.Degree? <==> s == "current" || s == "previous" || s == "highest"
  {
    match r
    case Current =>
      assert "current"[0] == 'c' && "current"[1] == 'u';
      "current"
    case Previous =>
      assert "previous"[0] == 'p';
      "previous"
    case Company(name) =>
      var s := "company:" + name;
      assert s[..8] == "company:";
      assert s[0] == 'c' && s[1] == 'o';
      assert "current"[1] == 'u' && "previous"[0] == 'p' && "highest"[0] == 'h';
      s
    case Highest =>
      assert "highest"[0] == 'h';
      "highest"
    case Degree(level) =>
      var s := "degree:" + level;
      assert s[..7] == "degree:";
      assert s[0] == 'd';
      assert "current"[0] == 'c' && "previous"[0] == 'p' && "highest"[0] == 'h';
      s
  }

  /**
   * How `_generate_response` reads the string back: an exact comparison for
   * the three plain words, and `startswith` plus `split(":", 1)[1]` for the
   * two tagged forms.
   */
  function ParseRequest(s: string): (r: Option<Refinement>)
    ensures r.Some? ==> RequestText(r.value) == s
  {
    if s == "current" then Some(Current)
    else if s == "previous" then Some(Previous)
    else if s == "highest" then Some(Highest)
    else if "company:" <= s then
      assert s[..8] == "company:";
      assert RequestText(Company(s[8..])) == s[..8] + s[8..] == s;
      Some(Company(s[8..]))
    else if "degree:" <= s then
      assert s[..7] == "degree:";
      assert RequestText(Degree(s[7..])) == s[..7] + s[7..] == s;
      Some(Degree(s[7..]))
    else None
  }

  /**
   * Reading a refinement's string gives the refinement back: no two
   * refinements share a string. With `ParseRequest`'s own contract, the
   * string encoding and its reading are inverse to each other.
   */
  lemma ParseRequestText(r: Refinement)
    ensures ParseRequest(RequestText(r)) == Some(r)
  {
    match r
    case Company(name) =>
      var s := "company:" + name;
      assert s[..8] == "company:";
      assert s[2] == 'm';
      assert s != "previous" by { assert s[0] != "previous"[0]; }
      assert s[8..] == name;
    case Degree(level) =>
      var s := "degree:" + level;
      assert s[..7] == "degree:";
      assert s[0] == 'd';
      assert s[7..] == level;
    case _ =>
  }

  /** A query asking for the "most recent" degree refines to `Highest`. */
  lemma MostRecentDegreeIsHighest(query: string, orgs: seq<string>)
    requires Contains(Lower(query), "most recent")
    ensures Refine(query, Education, orgs) == Some(Highest)
  {
    assert HighestWords[2] == "most recent";
  }
}
