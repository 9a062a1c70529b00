/**
 * What the component renders, as a pure function of its view state: a
 * spinner while loading, otherwise a page with an optional warning banner
 * and a table body whose rows are the leads in reverse of the order received.
 */
module Display {
  import opened Wrappers
  import opened Leads
  import opened Labels
  import opened Session

  /** The detail panel under an expanded row. */
  datatype Detail = Interests(items: seq<string>) | NoInterests

  /** One lead's row: its record, its three labels, and its detail panel if expanded. */
  datatype Row = Row(lead: Lead, goal: string, experience: string, time: string, detail: Option<Detail>)

  datatype Body = NoLeadsFound | Table(rows: seq<Row>)

  datatype View = Spinner | Page(banner: Option<string>, body: Body)

  /** The text of the table's single placeholder row, if the body is that row. */
  function PlaceholderText(b: Body): (t: Option<string>)
    ensures t.Some? <==> b.NoLeadsFound?
    ensures t.Some? ==> t.value == NoLeadsText
  {
    if b.NoLeadsFound? then Some(NoLeadsText) else None
  }

  /** The text of the placeholder row and of an empty detail panel. */
  const NoLeadsText: string := "No leads found."
  const NoInterestsText: string := "No interests specified"

  /** `slice().reverse()`: a reversed copy, defined element by element from the end. */
  function Reverse<T>(s: seq<T>): (r: seq<T>)
    ensures |r| == |s|
    decreases |s|
  {
    if s == [] then [] else Reverse(s[1..]) + [s[0]]
  }

  /** Badges for a present, non-empty interest list; the placeholder otherwise. */
  function DetailOf(lead: Lead): (d: Detail)
    ensures DetailTexts(d) != []
    ensures d.Interests? <==> lead.interests.Some? && lead.interests.value != []
    ensures d.Interests? ==> d.items == lead.interests.value
  {
    if lead.interests.Some? && |lead.interests.value| > 0 then Interests(lead.interests.value) else NoInterests
  }

  /** The texts a detail panel shows, in order. */
  function DetailTexts(d: Detail): seq<string> {
    match d
    case Interests(items) => items
    case NoInterests => [NoInterestsText]
  }

  /** A row, with a detail panel exactly under the lead whose `_id` is selected. */
  function RowOf(lead: Lead, expanded: Option<string>): (row: Row)
    ensures row.lead == lead
    ensures row.goal == FitnessGoalLabel(lead.fitnessGoal)
    ensures row.experience == ExperienceLabel(lead.experienceLevel)
    ensures row.time == PreferredTimeLabel(lead.preferredTime)
    ensures row.detail.Some? <==> expanded == Some(lead.id)
    ensures row.detail.Some? ==> row.detail.value == DetailOf(lead)
  {
    Row(lead,
        FitnessGoalLabel(lead.fitnessGoal),
        ExperienceLabel(lead.experienceLevel),
        PreferredTimeLabel(lead.preferredTime),
        if expanded == Some(lead.id) then Some(DetailOf(lead)) else None)
  }

  /** One row per lead of a reversed copy of the list, or the placeholder row for an empty list. */
  function BodyOf(leads: seq<Lead>, expanded: Option<string>): (b: Body)
    ensures b.Table? <==> |leads| > 0
    ensures b.Table? ==> |b.rows| == |leads|
  {
    if |leads| > 0 then
      var shown := Reverse(leads);
      Table(seq(|shown|, k requires 0 <= k < |shown| => RowOf(shown[k], expanded)))
    else NoLeadsFound
  }

  /** The warning banner, shown only for a non-empty message. */
  function Banner(error: Option<string>): (b: Option<string>)
    ensures b == None || b == error
    ensures b.Some? <==> error.Some? && error.value != ""
  {
    if error.Some? && error.value != "" then error else None
  }

  /** The component's output: the spinner while loading, otherwise the banner and the table body. */
  function Render(s: ViewState): (v: View)
    ensures v == Spinner <==> s.loading
    ensures v.Page? ==> (v.body == NoLeadsFound <==> s.leads == [])
    ensures !s.loading ==> v.Page? && v.banner == Banner(s.error) && v.body == BodyOf(s.leads, s.expanded)
  {
    if s.loading then Spinner else Page(Banner(s.error), BodyOf(s.leads, s.expanded))
  }

  /** Position `k` of the reversed copy holds the element `k` places from the end. */
  lemma {:induction false} ReverseAt<T>(s: seq<T>, k: int)
    requires 0 <= k < |s|
    ensures Reverse(s)[k] == s[|s| - 1 - k]
    decreases |s|
  {
    if k < |s| - 1 {
      ReverseAt(s[1..], k);
    }
  }

  /** Reversing the copy twice gives the original list back. */
  lemma ReverseTwice<T>(s: seq<T>)
    ensures Reverse(Reverse(s)) == s
  {
    forall k | 0 <= k < |s| ensures Reverse(Reverse(s))[k] == s[k] {
      ReverseAt(Reverse(s), k);
      ReverseAt(s, |s| - 1 - k);
    }
  }

  /** While loading, only the spinner is shown. */
  lemma SpinnerWhileLoading(s: ViewState)
    ensures Render(s) == Spinner <==> s.loading
  {
  }

  /** Once loaded, the placeholder row is shown exactly when there are no leads. */
  lemma EmptyListPlaceholder(s: ViewState)
    requires !s.loading
    ensures Render(s).Page?
    ensures Render(s).body == NoLeadsFound <==> s.leads == []
    ensures PlaceholderText(Render(s).body) == Some(NoLeadsText) <==> s.leads == []
  {
  }

  /** With leads, there is one row per lead, row `k` being lead `|leads| - 1 - k`, with its labels. */
  lemma RowsReversed(s: ViewState, k: int)
    requires !s.loading && 0 <= k < |s.leads|
    ensures Render(s).Page? && Render(s).body.Table?
    ensures |Render(s).body.rows| == |s.leads|
    ensures var row := Render(s).body.rows[k]; var lead := s.leads[|s.leads| - 1 - k];
      row.lead == lead &&
      row.goal == FitnessGoalLabel(lead.fitnessGoal) &&
      row.experience == ExperienceLabel(lead.experienceLevel) &&
      row.time == PreferredTimeLabel(lead.preferredTime)
  {
    ReverseAt(s.leads, k);
  }

  /**
   * Row `k` has a detail panel exactly when its lead is the selected one; the
   * panel lists the lead's interests in order, or the placeholder when they
   * are missing or empty.
   */
  lemma DetailUnderSelected(s: ViewState, k: int)
    requires !s.loading && 0 <= k < |s.leads|
    ensures Render(s).Page? && Render(s).body.Table? && |Render(s).body.rows| == |s.leads|
    ensures var row := Render(s).body.rows[k]; var lead := s.leads[|s.leads| - 1 - k];
      (row.detail.Some? <==> s.expanded == Some(lead.id)) &&
      (row.detail.Some? ==>
        DetailTexts(row.detail.value) ==
          if lead.interests == None || lead.interests == Some([]) then [NoInterestsText]
          else lead.interests.value)
  {
    ReverseAt(s.leads, k);
  }

  /** With unique ids, at most one row shows a detail panel. */
  lemma AtMostOneDetail(s: ViewState, i: int, j: int)
    requires !s.loading && UniqueIds(s.leads)
    requires 0 <= i < |s.leads| && 0 <= j < |s.leads|
    ensures Render(s).Page? && Render(s).body.Table?
    ensures Render(s).body.rows[i].detail.Some? && Render(s).body.rows[j].detail.Some? ==> i == j
  {
    DetailUnderSelected(s, i);
    DetailUnderSelected(s, j);
  }

  /** A detail panel is shown somewhere exactly when some lead's `_id` is selected. */
  lemma SomeDetailIffSelectedPresent(s: ViewState)
    requires !s.loading && s.leads != []
    ensures Render(s).Page? && Render(s).body.Table?
    ensures (exists k :: 0 <= k < |s.leads| && Render(s).body.rows[k].detail.Some?) <==>
      (exists m :: 0 <= m < |s.leads| && s.expanded == Some(s.leads[m].id))
  {
    var n := |s.leads|;
    if m :| 0 <= m < n && s.expanded == Some(s.leads[m].id) {
      DetailUnderSelected(s, n - 1 - m);
    }
    if k :| 0 <= k < n && Render(s).body.rows[k].detail.Some? {
      DetailUnderSelected(s, k);
    }
  }

  /** With `error` never set, no banner is ever rendered. */
  lemma NoBannerWithoutError(s: ViewState)
    requires s.error == None
    ensures Render(s) == Spinner || Render(s).banner == None
  {
  }

  /** After a failed load, the rows read Pranjal, Bhanuj, Aanand, top to bottom. */
  lemma FallbackShownReversed(s: ViewState, o: Fetch.Outcome)
    requires Fetch.GetLeads(o).Err?
    ensures var v := Render(LoadStep(s, o));
      v.Page? && v.body.Table? && |v.body.rows| == 3 &&
      v.body.rows[0].lead.name == Some("Pranjal") &&
      v.body.rows[1].lead.name == Some("Bhanuj") &&
      v.body.rows[2].lead.name == Some("Aanand")
  {
    var t := LoadStep(s, o);
    assert t.leads == DummyLeads;
    ReverseAt(DummyLeads, 0);
    ReverseAt(DummyLeads, 1);
    ReverseAt(DummyLeads, 2);
  }
}
