/** The lead records the component displays, and its built-in fallback data. */
module Leads {
  import opened Wrappers

  /**
   * A creation timestamp, kept opaque. `Given` is a string that arrived with
   * the record; `FromLocal(t)` stands for `new Date(t).toISOString()`, whose
   * value depends on the time zone of the runtime that evaluates it.
   */
  datatype Stamp = Given(text: string) | FromLocal(local: string)

  /** One lead record; `id` is the record's `_id`, every other field may be missing. */
  datatype Lead = Lead(
    id: string,
    name: Option<string>,
    email: Option<string>,
    phoneNumber: Option<string>,
    fitnessGoal: Option<string>,
    experienceLevel: Option<string>,
    preferredTime: Option<string>,
    interests: Option<seq<string>>,
    createdAt: Option<Stamp>)

  /** The three sample records shown when loading fails. */
  const DummyLeads: seq<Lead> := [
    Lead("1", Some("Aanand"), Some("aanandsemail@gmail.com"), Some("9875654221"),
         Some("weight-loss"), Some("beginner"), Some("morning"),
         Some(["Strength Training", "Cardio", "Nutrition"]),
         Some(FromLocal("2024-01-15T09:00:00"))),
    Lead("2", Some("Bhanuj"), Some("bhanujchowdhary@gmail.com"), Some("9711912224"),
         Some("muscle-gain"), Some("intermediate"), Some("evening"),
         Some(["HIIT", "Yoga", "Personal Training"]),
         Some(FromLocal("2024-01-16T14:30:00"))),
    Lead("3", Some("Pranjal"), Some("Pgwalapranjal@gmail.com"), Some("7827284786"),
         Some("general-fitness"), Some("advanced"), Some("afternoon"),
         Some(["CrossFit", "Olympic Lifting", "Mobility"]),
         Some(FromLocal("2024-01-17T16:45:00")))
  ]

  /** No two records share an `_id`. */
  predicate UniqueIds(leads: seq<Lead>) {
    forall i, j :: 0 <= i < |leads| && 0 <= j < |leads| && leads[i].id == leads[j].id ==> i == j
  }

  /** The identifiers of a list of records, in order. */
  function Ids(leads: seq<Lead>): (ids: seq<string>)
    ensures |ids| == |leads|
    ensures forall k :: 0 <= k < |leads| ==> ids[k] == leads[k].id
  {
    if leads == [] then [] else [leads[0].id] + Ids(leads[1..])
  }

  /** The fallback data is three records with identifiers "1", "2", "3" in that order. */
  lemma DummyLeadsShape()
    ensures Ids(DummyLeads) == ["1", "2", "3"]
    ensures UniqueIds(DummyLeads)
  {
    assert Ids(DummyLeads)[0] == "1" && Ids(DummyLeads)[1] == "2" && Ids(DummyLeads)[2] == "3";
  }
}
