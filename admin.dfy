/**
 * The lead dashboard: the list of consultation requests, loaded once (or
 * replaced by three demo leads when the load fails), whose statuses the
 * admin changes locally whatever the store answers to the update.
 */
module Admin {
  import opened Records
  import Api

  /**
   * The three demo leads: ids 1, 2, 3 with statuses new, pending and
   * completed, created now, a day ago and two days ago; only the second has
   * no website.
   */
  function DemoConsultations(now: string, dayAgo: string, twoDaysAgo: string): (demo: seq<Consultation>)
    ensures |demo| == 3
    ensures demo[0].id == "1" && demo[1].id == "2" && demo[2].id == "3"
    ensures demo[0].status == "new" && demo[1].status == "pending" && demo[2].status == "completed"
    ensures demo[0].createdAt == now && demo[1].createdAt == dayAgo && demo[2].createdAt == twoDaysAgo
    ensures demo[0].website.Some? && demo[1].website.None? && demo[2].website.Some?
  {
    [
      Consultation("1", "John Smith", "john@example.com", "555-123-4567", "Smith Enterprises",
        Some("https://smithenterprises.com"), "Technology",
        "Looking to implement AI chatbots for our customer service department.", now, "new"),
      Consultation("2", "Sarah Johnson", "sarah@example.com", "555-987-6543", "Johnson Healthcare",
        None, "Healthcare",
        "Interested in AI process automation for our patient intake procedures.", dayAgo, "pending"),
      Consultation("3", "Michael Wong", "michael@example.com", "555-456-7890", "Wong Financial",
        Some("https://wongfinancial.com"), "Finance",
        "Need help with AI strategy for our investment analysis team.", twoDaysAgo, "completed")
    ]
  }

  /**
   * The `map` that gives every lead with `id` the status `status`: the list
   * keeps its length and order, matching leads change only their status,
   * and every other lead is kept as it was.
   */
  function WithStatus(leads: seq<Consultation>, id: string, status: string): (r: seq<Consultation>)
    ensures |r| == |leads|
    ensures forall i :: 0 <= i < |leads| && leads[i].id == id ==> r[i] == leads[i].(status := status)
    ensures forall i :: 0 <= i < |leads| && leads[i].id != id ==> r[i] == leads[i]
  {
    if leads == [] then []
    else
      var first := if leads[0].id == id then leads[0].(status := status) else leads[0];
      [first] + WithStatus(leads[1..], id, status)
  }

  /** Setting the same status twice is setting it once. */
  lemma WithStatusIdempotent(leads: seq<Consultation>, id: string, status: string)
    ensures WithStatus(WithStatus(leads, id, status), id, status) == WithStatus(leads, id, status)
  {
    var once := WithStatus(leads, id, status);
    var twice := WithStatus(once, id, status);
    assert forall i :: 0 <= i < |leads| ==> twice[i] == once[i];
  }

  /** Of two status updates of the same lead, the second wins. */
  lemma WithStatusLastWins(leads: seq<Consultation>, id: string, first: string, second: string)
    ensures WithStatus(WithStatus(leads, id, first), id, second) == WithStatus(leads, id, second)
  {
    var once := WithStatus(leads, id, first);
    var twice := WithStatus(once, id, second);
    var direct := WithStatus(leads, id, second);
    assert forall i :: 0 <= i < |leads| ==> twice[i] == direct[i];
  }

  /** Updates of two different leads commute. */
  lemma WithStatusCommutes(leads: seq<Consultation>, id1: string, s1: string, id2: string, s2: string)
    requires id1 != id2
    ensures WithStatus(WithStatus(leads, id1, s1), id2, s2) == WithStatus(WithStatus(leads, id2, s2), id1, s1)
  {
    var a := WithStatus(WithStatus(leads, id1, s1), id2, s2);
    var b := WithStatus(WithStatus(leads, id2, s2), id1, s1);
    assert forall i :: 0 <= i < |leads| ==> a[i] == b[i];
  }

  /** The icon a status is shown with. */
  datatype StatusIcon = CheckGreen | CrossRed | ClockYellow | ClockAccent

  /** `getStatusIcon`: three named statuses, and every other string falls to the default clock. */
  function GetStatusIcon(status: string): (icon: StatusIcon)
    ensures icon == CheckGreen <==> status == "completed"
    ensures icon == CrossRed <==> status == "rejected"
    ensures icon == ClockYellow <==> status == "pending"
    ensures icon == ClockAccent <==> status !in {"completed", "rejected", "pending"}
  {
    match status
    case "completed" => CheckGreen
    case "rejected" => CrossRed
    case "pending" => ClockYellow
    case _ => ClockAccent
  }

  /** The demo leads show the default clock, the yellow clock and the green check, in that order. */
  lemma DemoLeadIcons(now: string, dayAgo: string, twoDaysAgo: string)
    ensures var demo := DemoConsultations(now, dayAgo, twoDaysAgo);
      && GetStatusIcon(demo[0].status) == ClockAccent
      && GetStatusIcon(demo[1].status) == ClockYellow
      && GetStatusIcon(demo[2].status) == CheckGreen
  {
  }

  /** A status update sent to the store whose answer has not come back yet: the lead and status captured at the click. */
  datatype StatusUpdate = StatusUpdate(id: string, status: string)

  /** The state of the dashboard page. */
  class Dashboard {
    var consultations: seq<Consultation>
    var loading: bool
    /** The writes sent to the store, in order. */
    var outbox: seq<Api.StoreCall>
    /** The status updates whose answers are still awaited, in the order they were sent. */
    var inFlight: seq<StatusUpdate>

    constructor ()
      ensures consultations == [] && loading && outbox == [] && inFlight == []
    {
      consultations, loading, outbox, inFlight := [], true, [], [];
    }

    /**
     * `fetchConsultations`: an answer without error gives its rows (none
     * when it carries no data); an error or a thrown call gives the demo
     * leads. Either way loading ends.
     */
    method FetchConsultations(reply: Api.Reply<seq<Consultation>>, now: string, dayAgo: string, twoDaysAgo: string)
      modifies this`consultations, this`loading
      ensures Api.Succeeded(reply) ==> consultations == reply.data.GetOr([])
      ensures !Api.Succeeded(reply) ==> consultations == DemoConsultations(now, dayAgo, twoDaysAgo)
      ensures !loading
    {
      if reply.Reply? && reply.error.None? {
        consultations := if reply.data.Some? then reply.data.value else [];
      } else {
        consultations := DemoConsultations(now, dayAgo, twoDaysAgo);
      }
      loading := false;
    }

    /** A status button click: send the update and await the answer; the list does not change yet. */
    method SendUpdateStatus(id: string, status: string)
      modifies this`outbox, this`inFlight
      ensures outbox == old(outbox) + [Api.UpdateLeadStatus(id, status)]
      ensures inFlight == old(inFlight) + [StatusUpdate(id, status)]
    {
      outbox := outbox + [Api.UpdateLeadStatus(id, status)];
      inFlight := inFlight + [StatusUpdate(id, status)];
    }

    /**
     * The update sent for the `k`-th write comes back, whatever it says: the
     * status captured at the click is set on the list as it is now.
     */
    method ResolveUpdateStatus(k: nat, reply: Api.Reply<()>)
      requires k < |inFlight|
      modifies this`consultations, this`inFlight
      ensures consultations == WithStatus(old(consultations), old(inFlight)[k].id, old(inFlight)[k].status)
      ensures inFlight == Api.Resolved(old(inFlight), k)
    {
      consultations := WithStatus(consultations, inFlight[k].id, inFlight[k].status);
      inFlight := Api.Resolved(inFlight, k);
    }

    /** `updateStatus` when its answer comes back before anything else happens. */
    method UpdateStatus(id: string, status: string, reply: Api.Reply<()>)
      modifies this`consultations, this`outbox, this`inFlight
      ensures consultations == WithStatus(old(consultations), id, status)
      ensures outbox == old(outbox) + [Api.UpdateLeadStatus(id, status)]
      ensures inFlight == old(inFlight)
    {
      SendUpdateStatus(id, status);
      ResolveUpdateStatus(|inFlight| - 1, reply);
    }
  }

  /**
   * Two status clicks on one lead whose answers come back in reverse order:
   * both updates are sent in click order, and the list ends on the FIRST
   * click's status, the one whose answer arrived last.
   */
  method TwoClicksAnsweredInReverse(dashboard: Dashboard, id: string, first: string, second: string,
                                    reply1: Api.Reply<()>, reply2: Api.Reply<()>)
    modifies dashboard`consultations, dashboard`outbox, dashboard`inFlight
    ensures dashboard.outbox == old(dashboard.outbox) + [Api.UpdateLeadStatus(id, first), Api.UpdateLeadStatus(id, second)]
    ensures dashboard.consultations == WithStatus(old(dashboard.consultations), id, first)
    ensures dashboard.inFlight == old(dashboard.inFlight)
  {
    var n := |dashboard.inFlight|;
    dashboard.SendUpdateStatus(id, first);
    dashboard.SendUpdateStatus(id, second);
    dashboard.ResolveUpdateStatus(n + 1, reply2);
    dashboard.ResolveUpdateStatus(n, reply1);
    WithStatusLastWins(old(dashboard.consultations), id, second, first);
  }
}
