/**
 * The profile records the processor answers from, and the in-memory store
 * `loaded_profiles`: a Python dict, i.e. a mapping that remembers the order in
 * which its keys were first inserted. It is modelled as a sequence of entries
 * with distinct identifiers.
 */
module Profiles {
  import opened Wrappers

  datatype Job = Job(title: string, company: string, duration: string)

  datatype Study = Study(degree: string, institution: string, dateRange: string)

  datatype Language = Language(language: string, proficiency: string)

  datatype Certification = Certification(name: string, issuer: string, date: string)

  /** `basics`: the name is required; the other keys may be absent (`None`). */
  datatype Basics = Basics(
    name: string,
    headline: Option<string>,
    location: Option<string>,
    summary: Option<string>)

  /**
   * One stored profile. A list key that is absent is the empty sequence (the
   * source tests both with `not profile.get(key)`); `contactInfo` is the
   * `contact_info` dictionary, empty when absent.
   */
  datatype Profile = Profile(
    basics: Basics,
    experience: seq<Job>,
    education: seq<Study>,
    skills: seq<string>,
    languages: seq<Language>,
    certifications: seq<Certification>,
    contactInfo: map<string, string>)

  /** One key/value pair of `loaded_profiles`. */
  datatype Entry = Entry(id: string, profile: Profile)

  /** `list(loaded_profiles.keys())`, in insertion order. */
  function Ids(entries: seq<Entry>): (ids: seq<string>)
    ensures |ids| == |entries|
    ensures forall j :: 0 <= j < |entries| ==> ids[j] == entries[j].id
  {
    if entries == [] then [] else [entries[0].id] + Ids(entries[1..])
  }

  /** A dict never holds a key twice. */
  ghost predicate DistinctIds(entries: seq<Entry>)
  {
    forall i, j :: 0 <= i < j < |entries| ==> entries[i].id != entries[j].id
  }

  /** `loaded_profiles.get(id)`. */
  function Lookup(entries: seq<Entry>, id: string): (r: Option<Profile>)
    ensures r.None? <==> id !in Ids(entries)
    ensures r.Some? ==> exists j :: 0 <= j < |entries| && entries[j] == Entry(id, r.value)
  {
    if entries == [] then None
    else if entries[0].id == id then Some(entries[0].profile)
    else
      var r := Lookup(entries[1..], id);
      assert Ids(entries) == [entries[0].id] + Ids(entries[1..]);
      r
  }

  /** With distinct keys, looking up a stored key gives the one record stored under it. */
  lemma {:induction false} LookupStored(entries: seq<Entry>, j: nat)
    requires DistinctIds(entries)
    requires j < |entries|
    ensures Lookup(entries, entries[j].id) == Some(entries[j].profile)
  {
    if j > 0 {
      assert entries[0].id != entries[j].id;
      assert entries[1..][j - 1] == entries[j];
      LookupStored(entries[1..], j - 1);
    }
  }

  /**
   * `loaded_profiles[id] = profile`: an existing key keeps its position and
   * gets the new value; a new key is appended.
   */
  function Insert(entries: seq<Entry>, id: string, profile: Profile): (r: seq<Entry>)
    ensures Entry(id, profile) in r
    ensures forall e :: e in entries && e.id != id ==> e in r
    ensures forall e :: e in r ==> e == Entry(id, profile) || e in entries
  {
    if entries == [] then [Entry(id, profile)]
    else if entries[0].id == id then [Entry(id, profile)] + entries[1..]
    else [entries[0]] + Insert(entries[1..], id, profile)
  }

  /** The keys after an insertion: unchanged for a present key, the new key appended otherwise. */
  lemma {:induction false} InsertIds(entries: seq<Entry>, id: string, profile: Profile)
    ensures Ids(Insert(entries, id, profile)) == if id in Ids(entries) then Ids(entries) else Ids(entries) + [id]
  {
    if entries != [] && entries[0].id != id {
      var r := Insert(entries, id, profile);
      assert r[0] == entries[0] && r[1..] == Insert(entries[1..], id, profile);
      InsertIds(entries[1..], id, profile);
    }
  }

  /** After the insertion the key maps to the new record and every other key to what it did before. */
  lemma {:induction false} InsertLookup(entries: seq<Entry>, id: string, profile: Profile, k: string)
    ensures Lookup(Insert(entries, id, profile), k) == if k == id then Some(profile) else Lookup(entries, k)
  {
    if entries != [] && entries[0].id != id {
      InsertLookup(entries[1..], id, profile, k);
      assert Insert(entries, id, profile)[1..] == Insert(entries[1..], id, profile);
    }
  }

  /** Insertion keeps the keys distinct. */
  lemma InsertKeepsDistinct(entries: seq<Entry>, id: string, profile: Profile)
    requires DistinctIds(entries)
    ensures DistinctIds(Insert(entries, id, profile))
  {
    var r := Insert(entries, id, profile);
    InsertIds(entries, id, profile);
    forall i, j | 0 <= i < j < |r|
      ensures r[i].id != r[j].id
    {
      assert Ids(r)[i] == r[i].id && Ids(r)[j] == r[j].id;
    }
  }

  /** Storing the same record twice leaves the store as storing it once did. */
  lemma {:induction false} InsertIdempotent(entries: seq<Entry>, id: string, profile: Profile)
    ensures Insert(Insert(entries, id, profile), id, profile) == Insert(entries, id, profile)
  {
    if entries != [] && entries[0].id != id {
      InsertIdempotent(entries[1..], id, profile);
      assert Insert(entries, id, profile)[1..] == Insert(entries[1..], id, profile);
    }
  }
}
