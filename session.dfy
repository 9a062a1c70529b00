/**
 * The component's view state and the two transitions that change it: the
 * settling of the load attempt and a row click. The class in `Component`
 * performs these transitions in place; here they are values, so that
 * sequences of them can be reasoned about.
 */
module Session {
  import opened Wrappers
  import opened Leads
  import opened Fetch

  /** `leads`, `loading`, `error` and `expandedLeadId`. */
  datatype ViewState = ViewState(
    leads: seq<Lead>,
    loading: bool,
    error: Option<string>,
    expanded: Option<string>)

  /** The state on mount. */
  const Initial: ViewState := ViewState([], true, None, None)

  /** The list installed when the load attempt settles: the fetched one, or the fallback. */
  function Settle(o: Outcome): (r: seq<Lead>)
    ensures o.Response? && IsOkStatus(o.status) && o.body.Parsed? ==> r == o.body.leadsField.GetOr([])
    ensures o.NetworkFailure? || !IsOkStatus(o.status) || o.body.Malformed? ==> r == DummyLeads
  {
    match GetLeads(o)
    case Ok(fetched) => fetched
    case Err(_) => DummyLeads
  }

  /** The load attempt settles: `setLeads(...)` in `try` or `catch`, then `setLoading(false)` in `finally`. */
  function LoadStep(s: ViewState, o: Outcome): (r: ViewState)
    ensures r.leads == Settle(o)
    ensures r.(leads := s.leads, loading := s.loading) == s
  {
    s.(leads := Settle(o), loading := false)
  }

  /** The click rule: the selected id is cleared, any other id becomes the selection. */
  function Toggle(expanded: Option<string>, id: string): (r: Option<string>)
    ensures r == None || r == Some(id)
    ensures r != expanded
  {
    if expanded == Some(id) then None else Some(id)
  }

  /** A click on the row of lead `id`. */
  function ClickStep(s: ViewState, id: string): (r: ViewState)
    ensures r.expanded == Toggle(s.expanded, id)
    ensures r.(expanded := s.expanded) == s
    ensures r != s
  {
    s.(expanded := Toggle(s.expanded, id))
  }

  /** Settling the load clears `loading` on every path and leaves `error` and the selection alone. */
  lemma LoadSettles(s: ViewState, o: Outcome)
    ensures !LoadStep(s, o).loading
    ensures LoadStep(s, o).error == s.error
    ensures LoadStep(s, o).expanded == s.expanded
  {
  }

  /**
   * A failed load (network failure, non-ok status, unreadable body) installs
   * exactly the three fallback records, "1", "2", "3" in that order; a
   * successful one installs the response's `leads`, or nothing when absent.
   */
  lemma LoadInstalls(s: ViewState, o: Outcome)
    ensures (o.NetworkFailure? || !IsOkStatus(o.status) || o.body.Malformed?) ==>
      LoadStep(s, o).leads == DummyLeads && Ids(LoadStep(s, o).leads) == ["1", "2", "3"]
    ensures o.Response? && IsOkStatus(o.status) && o.body.Parsed? ==>
      LoadStep(s, o).leads == o.body.leadsField.GetOr([])
  {
    DummyLeadsShape();
  }

  /** Clicking the expanded row collapses it; clicking any other row expands that one. */
  lemma ToggleSelects(expanded: Option<string>, id: string)
    ensures Toggle(expanded, id) == None <==> expanded == Some(id)
    ensures Toggle(expanded, id) != None ==> Toggle(expanded, id) == Some(id)
  {
  }

  /** Clicking the same row twice restores the selection exactly when it was none or that row. */
  lemma ToggleTwice(expanded: Option<string>, id: string)
    ensures Toggle(Toggle(expanded, id), id) == expanded <==> expanded == None || expanded == Some(id)
  {
  }

  /** The two entry points that change state. */
  datatype Event = Loaded(outcome: Outcome) | Clicked(id: string)

  function Step(s: ViewState, e: Event): ViewState {
    match e
    case Loaded(o) => LoadStep(s, o)
    case Clicked(id) => ClickStep(s, id)
  }

  /** The state after a sequence of events, first event first. */
  function Run(s: ViewState, events: seq<Event>): ViewState
    decreases |events|
  {
    if events == [] then s else Run(Step(s, events[0]), events[1..])
  }

  /** The ids of the rows clicked, in order. */
  function Clicks(events: seq<Event>): (ids: seq<string>)
    ensures |ids| <= |events|
  {
    if events == [] then []
    else if events[0].Clicked? then [events[0].id] + Clicks(events[1..])
    else Clicks(events[1..])
  }

  /** The selection after toggling each id of a sequence, in order. */
  function ToggleAll(expanded: Option<string>, ids: seq<string>): Option<string>
    decreases |ids|
  {
    if ids == [] then expanded else ToggleAll(Toggle(expanded, ids[0]), ids[1..])
  }

  predicate HasLoad(events: seq<Event>) {
    exists k :: 0 <= k < |events| && events[k].Loaded?
  }

  /** No event ever assigns `error`. */
  lemma {:induction false} RunKeepsError(s: ViewState, events: seq<Event>)
    ensures Run(s, events).error == s.error
    decreases |events|
  {
    if events != [] {
      RunKeepsError(Step(s, events[0]), events[1..]);
    }
  }

  /** `loading` is still set exactly when it was and no load has settled. */
  lemma {:induction false} RunLoading(s: ViewState, events: seq<Event>)
    ensures Run(s, events).loading <==> s.loading && !HasLoad(events)
    decreases |events|
  {
    if events != [] {
      var rest := events[1..];
      RunLoading(Step(s, events[0]), rest);
      if HasLoad(rest) {
        var k :| 0 <= k < |rest| && rest[k].Loaded?;
        assert events[k + 1].Loaded?;
      }
      if HasLoad(events) && !events[0].Loaded? {
        var k :| 0 <= k < |events| && events[k].Loaded?;
        assert rest[k - 1].Loaded?;
      }
    }
  }

  /** Loads do not touch the selection: it is the clicks' toggles alone. */
  lemma {:induction false} RunSelection(s: ViewState, events: seq<Event>)
    ensures Run(s, events).expanded == ToggleAll(s.expanded, Clicks(events))
    decreases |events|
  {
    if events != [] {
      RunSelection(Step(s, events[0]), events[1..]);
    }
  }

  /** After any clicks the selection is none or the last row clicked. */
  lemma {:induction false} ToggleAllLast(expanded: Option<string>, ids: seq<string>)
    requires ids != []
    ensures ToggleAll(expanded, ids) == None || ToggleAll(expanded, ids) == Some(ids[|ids| - 1])
    decreases |ids|
  {
    if |ids| > 1 {
      ToggleAllLast(Toggle(expanded, ids[0]), ids[1..]);
    }
  }

  /** The outcome of the last load among the events, if any. */
  function LastLoad(events: seq<Event>): Option<Outcome>
    decreases |events|
  {
    if events == [] then None
    else if events[|events| - 1].Loaded? then Some(events[|events| - 1].outcome)
    else LastLoad(events[..|events| - 1])
  }

  /** Clicks never change `leads`: they are the last load's list, or what they were. */
  lemma {:induction false} RunLeads(s: ViewState, events: seq<Event>)
    ensures Run(s, events).leads ==
      match LastLoad(events) case None => s.leads case Some(o) => Settle(o)
    decreases |events|
  {
    if events != [] {
      var front := events[..|events| - 1];
      RunSplit(s, front, events[|events| - 1]);
      RunLeads(s, front);
      assert events == front + [events[|events| - 1]];
    }
  }

  /** Running `events + [e]` is one more step after running `events`. */
  lemma {:induction false} RunSplit(s: ViewState, events: seq<Event>, e: Event)
    ensures Run(s, events + [e]) == Step(Run(s, events), e)
    decreases |events|
  {
    if events == [] {
      assert [] + [e] == [e];
    } else {
      assert (events + [e])[1..] == events[1..] + [e];
      RunSplit(Step(s, events[0]), events[1..], e);
    }
  }

  /** From mount, any sequence of events leaves `error` unset, and `loading` set only until a load. */
  lemma FromMount(events: seq<Event>)
    ensures Run(Initial, events).error == None
    ensures Run(Initial, events).loading <==> !HasLoad(events)
    ensures LastLoad(events) == None ==> Run(Initial, events).leads == []
    ensures Clicks(events) != [] ==>
      Run(Initial, events).expanded == None ||
      Run(Initial, events).expanded == Some(Clicks(events)[|Clicks(events)| - 1])
  {
    RunKeepsError(Initial, events);
    RunLoading(Initial, events);
    RunSelection(Initial, events);
    RunLeads(Initial, events);
    if Clicks(events) != [] {
      ToggleAllLast(None, Clicks(events));
    }
  }
}
