/**
 * The `LeadsList` component as an object: its four state fields, updated in
 * place by the mount-time load and by row clicks.
 */
module Component {
  import opened Wrappers
  import opened Leads
  import opened Fetch
  import opened Session

  class LeadsList {
    var leads: seq<Lead>
    var loading: bool
    var error: Option<string>
    var expandedLeadId: Option<string>

    /** The fields as one view-state value. */
    function Snapshot(): ViewState
      reads this
    {
      ViewState(leads, loading, error, expandedLeadId)
    }

    /** `error` is never set, and no lead is held before the load settles. */
    ghost predicate Valid()
      reads this
    {
      error == None && (loading ==> leads == [])
    }

    /** The `useState` initial values. */
    constructor ()
      ensures Valid()
      ensures Snapshot() == Initial
    {
      leads := [];
      loading := true;
      error := None;
      expandedLeadId := None;
    }

    /** `fetchLeads`: install the fetched list or the fallback, then clear `loading` in `finally`. */
    method Load(outcome: Outcome)
      requires Valid()
      modifies this
      ensures Valid()
      ensures Snapshot() == LoadStep(old(Snapshot()), outcome)
      ensures !loading && error == old(error) && expandedLeadId == old(expandedLeadId)
    {
      var result := GetLeads(outcome);
      match result {
        case Ok(fetched) =>
          leads := fetched;
        case Err(_) =>
          leads := DummyLeads;
      }
      loading := false;
    }

    /** A click on the row of lead `leadId`. */
    method Click(leadId: string)
      requires Valid()
      modifies this
      ensures Valid()
      ensures Snapshot() == ClickStep(old(Snapshot()), leadId)
      ensures expandedLeadId == (if old(expandedLeadId) == Some(leadId) then None else Some(leadId))
      ensures leads == old(leads) && loading == old(loading) && error == old(error)
    {
      expandedLeadId := if expandedLeadId == Some(leadId) then None else Some(leadId);
    }
  }

  /** Mount, settle the load, then click one row twice: the row opens, then closes. */
  method MountLoadClickTwice(outcome: Outcome, leadId: string) returns (afterFirst: Option<string>, afterSecond: Option<string>)
    ensures afterFirst == Some(leadId)
    ensures afterSecond == None
  {
    var c := new LeadsList();
    c.Load(outcome);
    assert !c.loading && c.error == None && c.expandedLeadId == None;
    c.Click(leadId);
    afterFirst := c.expandedLeadId;
    c.Click(leadId);
    afterSecond := c.expandedLeadId;
  }
}
