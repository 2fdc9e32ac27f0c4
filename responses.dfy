/**
 * Response synthesis (`_generate_response`): a fixed sentence template per
 * category, filled from the profile record, with a fixed sentence in place of
 * every list that is empty or absent.
 */
module Responses {
  import opened Wrappers
  import opened Text
  import opened Profiles
  import opened Categories
  import opened Refinements
  import opened Search

  function JobItem(j: Job): string {
    j.title + " at " + j.company + " (" + j.duration + ")"
  }

  function StudyItem(e: Study): string {
    e.degree + " from " + e.institution + " (" + e.dateRange + ")"
  }

  function LanguageItem(l: Language): string {
    l.language + " (" + l.proficiency + ")"
  }

  function CertificationItem(c: Certification): string {
    c.name + " from " + c.issuer + " (" + c.date + ")"
  }

  function JobItems(jobs: seq<Job>): (r: seq<string>)
  {
    seq(|jobs|, k requires 0 <= k < |jobs| => JobItem(jobs[k]))
  }

  function StudyItems(studies: seq<Study>): (r: seq<string>)
  {
    seq(|studies|, k requires 0 <= k < |studies| => StudyItem(studies[k]))
  }

  function LanguageItems(langs: seq<Language>): (r: seq<string>)
  {
    seq(|langs|, k requires 0 <= k < |langs| => LanguageItem(langs[k]))
  }

  function CertificationItems(certs: seq<Certification>): (r: seq<string>)
  {
    seq(|certs|, k requires 0 <= k < |certs| => CertificationItem(certs[k]))
  }

  /** The first study whose degree contains `level`, both lower-cased. */
  function FirstStudyWith(studies: seq<Study>, level: string): (r: Option<nat>)
    ensures r.None? <==> forall k :: 0 <= k < |studies| ==> !Contains(Lower(studies[k].degree), Lower(level))
    ensures r.Some? ==> r.value < |studies| && Contains(Lower(studies[r.value].degree), Lower(level))
    ensures r.Some? ==> forall k :: 0 <= k < r.value ==> !Contains(Lower(studies[k].degree), Lower(level))
  {
    var hits := DegreeHits(studies, level);
    assert forall k :: 0 <= k < |studies| ==> hits[k] == Contains(Lower(studies[k].degree), Lower(level));
    FirstTrue(hits)
  }

  function DegreeHits(studies: seq<Study>, level: string): (f: seq<bool>)
  {
    seq(|studies|, k requires 0 <= k < |studies| => Contains(Lower(studies[k].degree), Lower(level)))
  }

  /** The first job whose company contains `company`, both lower-cased. */
  function FirstJobAt(jobs: seq<Job>, company: string): (r: Option<nat>)
    ensures r.None? <==> forall k :: 0 <= k < |jobs| ==> !Contains(Lower(jobs[k].company), Lower(company))
    ensures r.Some? ==> r.value < |jobs| && Contains(Lower(jobs[r.value].company), Lower(company))
    ensures r.Some? ==> forall k :: 0 <= k < r.value ==> !Contains(Lower(jobs[k].company), Lower(company))
  {
    var hits := CompanyHits(jobs, company);
    assert forall k :: 0 <= k < |jobs| ==> hits[k] == Contains(Lower(jobs[k].company), Lower(company));
    FirstTrue(hits)
  }

  function CompanyHits(jobs: seq<Job>, company: string): (f: seq<bool>)
  {
    seq(|jobs|, k requires 0 <= k < |jobs| => Contains(Lower(jobs[k].company), Lower(company)))
  }

  function NoEducationSentence(name: string): string {
    name + " has no education information in their profile."
  }

  function HighestSentence(name: string, e: Study): string {
    name + "'s highest education is " + e.degree + " from " + e.institution + " (" + e.dateRange + ")."
  }

  function HasDegreeSentence(name: string, e: Study): string {
    name + " has a " + e.degree + " from " + e.institution + " (" + e.dateRange + ")."
  }

  function NoDegreeSentence(name: string, level: string): string {
    "Could not find a " + level + " degree for " + name + "."
  }

  function EducationListing(name: string, studies: seq<Study>): string {
    name + "'s education: " + Join(StudyItems(studies), "; ") + "."
  }

  function NoExperienceSentence(name: string): string {
    name + " has no work experience information in their profile."
  }

  function CurrentJobSentence(name: string, j: Job): string {
    name + " currently works as " + j.title + " at " + j.company + " (" + j.duration + ")."
  }

  function PreviousJobSentence(name: string, j: Job): string {
    name + " previously worked as " + j.title + " at " + j.company + " (" + j.duration + ")."
  }

  function NoPreviousSentence(name: string): string {
    "No previous job experience found for " + name + " before their current role."
  }

  function WorkedAtSentence(name: string, j: Job): string {
    name + " worked as " + j.title + " at " + j.company + " (" + j.duration + ")."
  }

  function NoCompanySentence(name: string, company: string): string {
    "Could not find experience at " + company + " for " + name + "."
  }

  function ExperienceListing(name: string, jobs: seq<Job>): string {
    name + "'s work experience: " + Join(JobItems(jobs), "; ") + "."
  }

  function NoSkillsSentence(name: string): string {
    name + " has no skills listed in their profile."
  }

  function NoLanguagesSentence(name: string): string {
    name + " has no language information in their profile."
  }

  function NoCertificationsSentence(name: string): string {
    name + " has no certifications listed in their profile."
  }

  function NoContactSentence(name: string): string {
    "No contact information available for " + name + "."
  }

  /** `dict.get(key, default)` on the contact information. */
  function ContactField(info: map<string, string>, key: string): string {
    if key in info then info[key] else "Not provided"
  }

  /** The e-mail and phone part of the `contact` answer. */
  function ContactDetails(info: map<string, string>): string {
    ": Email: " + ContactField(info, "email") + ", Phone: " + ContactField(info, "phone") + "."
  }

  /** The `education` branch; every answer mentions the person. */
  function EducationResponse(name: string, studies: seq<Study>, request: Option<Refinement>): (r: string)
    ensures Contains(r, name)
  {
    if studies == [] then
      assert name <= NoEducationSentence(name);
      NoEducationSentence(name)
    else if request == Some(Highest) then
      assert name <= HighestSentence(name, studies[0]);
      HighestSentence(name, studies[0])
    else if request.Some? && request.value.Degree? then
      match FirstStudyWith(studies, request.value.level)
      case Some(k) =>
        assert name <= HasDegreeSentence(name, studies[k]);
        HasDegreeSentence(name, studies[k])
      case None =>
        ContainsInContext("Could not find a " + request.value.level + " degree for ", name, ".", name);
        NoDegreeSentence(name, request.value.level)
    else
      assert name <= EducationListing(name, studies);
      EducationListing(name, studies)
  }

  /** The `experience` branch; every answer mentions the person. */
  function ExperienceResponse(name: string, jobs: seq<Job>, request: Option<Refinement>): (r: string)
    ensures Contains(r, name)
  {
    if jobs == [] then
      assert name <= NoExperienceSentence(name);
      NoExperienceSentence(name)
    else if request == Some(Current) then
      assert name <= CurrentJobSentence(name, jobs[0]);
      CurrentJobSentence(name, jobs[0])
    else if request == Some(Previous) then
      if |jobs| > 1 then
        assert name <= PreviousJobSentence(name, jobs[1]);
        PreviousJobSentence(name, jobs[1])
      else
        ContainsInContext("No previous job experience found for ", name, " before their current role.", name);
        NoPreviousSentence(name)
    else if request.Some? && request.value.Company? then
      match FirstJobAt(jobs, request.value.name)
      case Some(k) =>
        assert name <= WorkedAtSentence(name, jobs[k]);
        WorkedAtSentence(name, jobs[k])
      case None =>
        ContainsInContext("Could not find experience at " + request.value.name + " for ", name, ".", name);
        NoCompanySentence(name, request.value.name)
    else
      assert name <= ExperienceListing(name, jobs);
      ExperienceListing(name, jobs)
  }

  /** The two sentences the `general` summary always has. */
  function Opening(b: Basics): string {
    b.name + " is a " + b.headline.GetOr("professional") + " based in " + b.location.GetOr("an unknown location") + "."
  }

  /** The optional sentences of the `general` summary, each preceded by the joining space. */
  function SummaryPart(b: Basics): string {
    if b.summary.Some? && b.summary.value != "" then " Summary: " + b.summary.value else ""
  }

  function CurrentJobPart(jobs: seq<Job>): string {
    if jobs != [] then " Currently working as " + jobs[0].title + " at " + jobs[0].company + "." else ""
  }

  function StudiedPart(studies: seq<Study>): string {
    if studies != [] then " Has studied " + studies[0].degree + " at " + studies[0].institution + "." else ""
  }

  /** The `general` branch: the summary's sentences joined by single spaces, opening with the person's name. */
  function GeneralResponse(p: Profile): (r: string)
    ensures p.basics.name <= r
  {
    var opening := Opening(p.basics);
    var tail := SummaryPart(p.basics) + CurrentJobPart(p.experience) + StudiedPart(p.education);
    assert p.basics.name <= opening;
    PrefixOfLonger(p.basics.name, opening, tail);
    assert opening + tail == Opening(p.basics) + SummaryPart(p.basics) + CurrentJobPart(p.experience) + StudiedPart(p.education);
    opening + tail
  }

  /**
   * `_generate_response(profile, category, specific_request)`. Every answer
   * mentions the person it is about: whatever the category and the
   * refinement, the profile's name occurs in the response.
   */
  function GenerateResponse(p: Profile, category: Category, request: Option<Refinement>): (r: string)
    ensures Contains(r, p.basics.name)
  {
    var name := p.basics.name;
    match category
    case Education => EducationResponse(name, p.education, request)
    case Experience => ExperienceResponse(name, p.experience, request)
    case Skills =>
      var r := if p.skills == [] then NoSkillsSentence(name)
               else name + "'s skills include: " + Join(p.skills, ", ") + ".";
      assert name <= r;
      r
    case Languages =>
      var r := if p.languages == [] then NoLanguagesSentence(name)
               else name + " speaks: " + Join(LanguageItems(p.languages), ", ") + ".";
      assert name <= r;
      r
    case Certifications =>
      var r := if p.certifications == [] then NoCertificationsSentence(name)
               else name + "'s certifications: " + Join(CertificationItems(p.certifications), "; ") + ".";
      assert name <= r;
      r
    case Location =>
      var r := name + " is located in " + p.basics.location.GetOr("Unknown") + ".";
      assert name <= r;
      r
    case Contact =>
      if |p.contactInfo| == 0 then
        ContainsInContext("No contact information available for ", name, ".", name);
        NoContactSentence(name)
      else
        ContainsInContext("Contact information for ", name, ContactDetails(p.contactInfo), name);
        "Contact information for " + name + ContactDetails(p.contactInfo)
    case General => GeneralResponse(p)
  }


  /** A prefix of a text is a prefix of that text extended. */
  lemma PrefixOfLonger(a: string, b: string, c: string)
    requires a <= b
    ensures a <= b + c
  {
    assert (b + c)[..|a|] == b[..|a|];
  }

  /**
   * The unrefined listings leave nothing out: every job and every study of
   * the profile appears in its category's answer.
   */
  lemma HistoryListsEveryEntry(p: Profile, k: nat)
    ensures k < |p.experience| ==>
              Contains(GenerateResponse(p, Experience, None), JobItem(p.experience[k]))
    ensures k < |p.education| ==>
              Contains(GenerateResponse(p, Education, None), StudyItem(p.education[k]))
  {
    var name := p.basics.name;
    if k < |p.experience| {
      JoinContainsItems(JobItems(p.experience), "; ", k);
      ContainsInContext(name + "'s work experience: ", Join(JobItems(p.experience), "; "), ".", JobItem(p.experience[k]));
    }
    if k < |p.education| {
      JoinContainsItems(StudyItems(p.education), "; ", k);
      ContainsInContext(name + "'s education: ", Join(StudyItems(p.education), "; "), ".", StudyItem(p.education[k]));
    }
  }

  /** Every skill, language and certification of the profile appears in its category's answer. */
  lemma ListingsMentionEveryItem(p: Profile, k: nat)
    ensures k < |p.skills| ==>
              Contains(GenerateResponse(p, Skills, None), p.skills[k])
    ensures k < |p.languages| ==>
              Contains(GenerateResponse(p, Languages, None), LanguageItem(p.languages[k]))
    ensures k < |p.certifications| ==>
              Contains(GenerateResponse(p, Certifications, None), CertificationItem(p.certifications[k]))
  {
    var name := p.basics.name;
    if k < |p.skills| {
      JoinContainsItems(p.skills, ", ", k);
      ContainsInContext(name + "'s skills include: ", Join(p.skills, ", "), ".", p.skills[k]);
    }
    if k < |p.languages| {
      JoinContainsItems(LanguageItems(p.languages), ", ", k);
      ContainsInContext(name + " speaks: ", Join(LanguageItems(p.languages), ", "), ".", LanguageItem(p.languages[k]));
    }
    if k < |p.certifications| {
      JoinContainsItems(CertificationItems(p.certifications), "; ", k);
      ContainsInContext(name + "'s certifications: ", Join(CertificationItems(p.certifications), "; "), ".",
                        CertificationItem(p.certifications[k]));
    }
  }

  /** A profile without jobs or without studies gets a fixed sentence, whatever the refinement. */
  lemma EmptyHistoryGetsFixedSentence(p: Profile, request: Option<Refinement>)
    ensures p.education == [] ==>
              GenerateResponse(p, Education, request) == p.basics.name + " has no education information in their profile."
    ensures p.experience == [] ==>
              GenerateResponse(p, Experience, request) == p.basics.name + " has no work experience information in their profile."
  {
  }

  /** Empty skills, languages, certifications or contact details get a fixed sentence. */
  lemma EmptyListsGetFixedSentences(p: Profile, request: Option<Refinement>)
    ensures p.skills == [] ==>
              GenerateResponse(p, Skills, request) == p.basics.name + " has no skills listed in their profile."
    ensures p.languages == [] ==>
              GenerateResponse(p, Languages, request) == p.basics.name + " has no language information in their profile."
    ensures p.certifications == [] ==>
              GenerateResponse(p, Certifications, request) == p.basics.name + " has no certifications listed in their profile."
    ensures |p.contactInfo| == 0 ==>
              GenerateResponse(p, Contact, request) == "No contact information available for " + p.basics.name + "."
  {
  }

  /**
   * The current job is the first listed, and the previous job the second,
   * with a fixed sentence when there is none.
   */
  lemma CurrentAndPreviousJob(p: Profile)
    requires p.experience != []
    ensures GenerateResponse(p, Experience, Some(Current)) ==
              p.basics.name + " currently works as " + p.experience[0].title + " at "
              + p.experience[0].company + " (" + p.experience[0].duration + ")."
    ensures |p.experience| < 2 ==>
              GenerateResponse(p, Experience, Some(Previous)) ==
                "No previous job experience found for " + p.basics.name + " before their current role."
    ensures |p.experience| >= 2 ==>
              GenerateResponse(p, Experience, Some(Previous)) ==
                p.basics.name + " previously worked as " + p.experience[1].title + " at "
                + p.experience[1].company + " (" + p.experience[1].duration + ")."
  {
  }

  /**
   * A company request answers with the first job whose company contains the
   * requested name, ignoring case, and with a fixed sentence when none does.
   */
  lemma JobAtCompany(p: Profile, company: string)
    requires p.experience != []
    ensures (forall k :: 0 <= k < |p.experience| ==> !Contains(Lower(p.experience[k].company), Lower(company))) ==>
              GenerateResponse(p, Experience, Some(Company(company))) ==
                "Could not find experience at " + company + " for " + p.basics.name + "."
    ensures (exists k :: 0 <= k < |p.experience| && Contains(Lower(p.experience[k].company), Lower(company))) ==>
              exists k :: 0 <= k < |p.experience|
                && Contains(Lower(p.experience[k].company), Lower(company))
                && (forall j :: 0 <= j < k ==> !Contains(Lower(p.experience[j].company), Lower(company)))
                && GenerateResponse(p, Experience, Some(Company(company))) == WorkedAtSentence(p.basics.name, p.experience[k])
  {
    var f := FirstJobAt(p.experience, company);
    var r := GenerateResponse(p, Experience, Some(Company(company)));
    if f.Some? {
      var k := f.value;
      assert r == WorkedAtSentence(p.basics.name, p.experience[k]);
      assert Contains(Lower(p.experience[k].company), Lower(company));
    } else {
      assert r == NoCompanySentence(p.basics.name, company);
    }
  }

  /** A request for the highest degree answers with the first study listed. */
  lemma HighestStudy(p: Profile)
    requires p.education != []
    ensures GenerateResponse(p, Education, Some(Highest)) ==
              p.basics.name + "'s highest education is " + p.education[0].degree + " from "
              + p.education[0].institution + " (" + p.education[0].dateRange + ")."
  {
  }

  /**
   * A degree request answers with the first study whose degree contains the
   * requested level, ignoring case, and with a fixed sentence when none does.
   */
  lemma StudyWithDegree(p: Profile, level: string)
    requires p.education != []
    ensures (forall k :: 0 <= k < |p.education| ==> !Contains(Lower(p.education[k].degree), Lower(level))) ==>
              GenerateResponse(p, Education, Some(Degree(level))) ==
                "Could not find a " + level + " degree for " + p.basics.name + "."
    ensures (exists k :: 0 <= k < |p.education| && Contains(Lower(p.education[k].degree), Lower(level))) ==>
              exists k :: 0 <= k < |p.education|
                && Contains(Lower(p.education[k].degree), Lower(level))
                && (forall j :: 0 <= j < k ==> !Contains(Lower(p.education[j].degree), Lower(level)))
                && GenerateResponse(p, Education, Some(Degree(level))) == HasDegreeSentence(p.basics.name, p.education[k])
  {
    var f := FirstStudyWith(p.education, level);
    var r := GenerateResponse(p, Education, Some(Degree(level)));
    if f.Some? {
      var k := f.value;
      assert r == HasDegreeSentence(p.basics.name, p.education[k]);
      assert Contains(Lower(p.education[k].degree), Lower(level));
    } else {
      assert r == NoDegreeSentence(p.basics.name, level);
    }
  }
}
