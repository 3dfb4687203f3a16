/** The domain store of App.tsx: the four collections that are the application's source of
    truth and the four actions that replace them. Each action's new collection is a pure
    sequence transform (spread-prepend, filter, map); DomainStore holds the collections as
    fields and its methods reassign them. */
module Store {
  import opened Seqs
  import opened Types
  import MockData

  /** `prev.filter(c => c.id !== id)`: the contacts with another id, in their original
      relative order; no contact with the id remains. */
  function RemoveContactById(contacts: seq<Contact>, id: string): (r: seq<Contact>)
    ensures forall c :: c in r <==> c in contacts && c.id != id
    ensures IsSubseq(r, contacts)
  {
    Filter((c: Contact) => c.id != id, contacts)
  }

  /** deleteContact's result is the one subsequence of the input that has no contact with
      the id and drops only the contacts that have it. */
  lemma RemoveContactSpec(contacts: seq<Contact>, id: string, r: seq<Contact>)
    ensures IsSubseq(r, contacts) && (forall c :: c in r ==> c.id != id) &&
            |r| == Count((c: Contact) => c.id != id, contacts)
            ==> r == RemoveContactById(contacts, id)
  {
    if IsSubseq(r, contacts) && (forall c :: c in r ==> c.id != id) &&
       |r| == Count((c: Contact) => c.id != id, contacts) {
      FilterUnique((c: Contact) => c.id != id, r, contacts);
    }
  }

  /** Deleting an id no contact has leaves the collection unchanged. */
  lemma RemoveAbsentContact(contacts: seq<Contact>, id: string)
    requires forall j :: 0 <= j < |contacts| ==> contacts[j].id != id
    ensures RemoveContactById(contacts, id) == contacts
  {
    FilterAll((c: Contact) => c.id != id, contacts);
  }

  /** Deleting the same id twice is deleting it once. */
  lemma RemoveContactIdempotent(contacts: seq<Contact>, id: string)
    ensures RemoveContactById(RemoveContactById(contacts, id), id) == RemoveContactById(contacts, id)
  {
    FilterIdempotent((c: Contact) => c.id != id, contacts);
  }

  /** `prev.map(d => d.id === id ? { ...d, stage } : d)`. */
  function SetDealStage(deals: seq<Deal>, id: string, stage: DealStage): (r: seq<Deal>)
    ensures |r| == |deals|
    ensures forall i :: 0 <= i < |deals| ==>
              r[i] == if deals[i].id == id then deals[i].(stage := stage) else deals[i]
  {
    if |deals| == 0 then []
    else [if deals[0].id == id then deals[0].(stage := stage) else deals[0]]
         + SetDealStage(deals[1..], id, stage)
  }

  /** updateDealStage: length and order are kept, every deal with the id ends in the given
      stage with all its other fields intact, every other deal is untouched. */
  lemma SetDealStageSpec(deals: seq<Deal>, id: string, stage: DealStage, i: int)
    requires 0 <= i < |deals|
    ensures |SetDealStage(deals, id, stage)| == |deals|
    ensures SetDealStage(deals, id, stage)[i].id == deals[i].id
    ensures SetDealStage(deals, id, stage)[i].title == deals[i].title
    ensures SetDealStage(deals, id, stage)[i].leadId == deals[i].leadId
    ensures SetDealStage(deals, id, stage)[i].value == deals[i].value
    ensures SetDealStage(deals, id, stage)[i].expectedCloseDate == deals[i].expectedCloseDate
    ensures deals[i].id == id ==> SetDealStage(deals, id, stage)[i].stage == stage
    ensures deals[i].id != id ==> SetDealStage(deals, id, stage)[i] == deals[i]
  {
  }

  /** updateDealStage on an id no deal has leaves the deals identical. */
  lemma SetDealStageAbsent(deals: seq<Deal>, id: string, stage: DealStage)
    requires forall j :: 0 <= j < |deals| ==> deals[j].id != id
    ensures SetDealStage(deals, id, stage) == deals
  {
  }

  /** Setting the same stage twice is setting it once. */
  lemma SetDealStageIdempotent(deals: seq<Deal>, id: string, stage: DealStage)
    ensures SetDealStage(SetDealStage(deals, id, stage), id, stage) == SetDealStage(deals, id, stage)
  {
  }

  /** The four collections at one moment. */
  datatype Snapshot = Snapshot(leads: seq<Lead>, deals: seq<Deal>, contacts: seq<Contact>, tasks: seq<Task>)

  /** The four actions App.tsx hands to the pages. */
  datatype Action =
    | AddLead(lead: Lead)
    | AddContact(contact: Contact)
    | DeleteContact(id: string)
    | UpdateDealStage(dealId: string, stage: DealStage)

  /** The state the seeds give at start-up. */
  const Initial: Snapshot :=
    Snapshot(MockData.MockLeads, MockData.MockDeals, MockData.MockContacts, MockData.MockTasks)

  /** One action: each replaces its own collection and no other. */
  function Apply(s: Snapshot, a: Action): (t: Snapshot)
    ensures t.tasks == s.tasks
    ensures !a.AddLead? ==> t.leads == s.leads
    ensures !a.UpdateDealStage? ==> t.deals == s.deals
    ensures !(a.AddContact? || a.DeleteContact?) ==> t.contacts == s.contacts
  {
    match a
    case AddLead(lead) => s.(leads := [lead] + s.leads)
    case AddContact(contact) => s.(contacts := [contact] + s.contacts)
    case DeleteContact(id) => s.(contacts := RemoveContactById(s.contacts, id))
    case UpdateDealStage(id, stage) => s.(deals := SetDealStage(s.deals, id, stage))
  }

  /** Actions applied in order, each to the state the previous one left. */
  function ApplyAll(s: Snapshot, acts: seq<Action>): Snapshot
    decreases |acts|
  {
    if |acts| == 0 then s else ApplyAll(Apply(s, acts[0]), acts[1..])
  }

  /** Number of AddLead actions. */
  function CountAddLead(acts: seq<Action>): nat
  {
    Count((a: Action) => a.AddLead?, acts)
  }

  /** Applying `a + b` is applying `a`, then `b`. */
  lemma {:induction false} ApplyAllAppend(s: Snapshot, a: seq<Action>, b: seq<Action>)
    ensures ApplyAll(s, a + b) == ApplyAll(ApplyAll(s, a), b)
    decreases |a|
  {
    if |a| > 0 {
      assert (a + b)[0] == a[0] && (a + b)[1..] == a[1..] + b;
      ApplyAllAppend(Apply(s, a[0]), a[1..], b);
    } else {
      assert a + b == b;
    }
  }

  /** No action sequence ever changes the tasks: tasks has no action at all. */
  lemma {:induction false} TasksNeverChange(s: Snapshot, acts: seq<Action>)
    ensures ApplyAll(s, acts).tasks == s.tasks
    decreases |acts|
  {
    if |acts| > 0 {
      TasksNeverChange(Apply(s, acts[0]), acts[1..]);
    }
  }

  /** The number of leads grows by exactly the number of AddLead actions. */
  lemma {:induction false} LeadCountGrowth(s: Snapshot, acts: seq<Action>)
    ensures |ApplyAll(s, acts).leads| == |s.leads| + CountAddLead(acts)
    decreases |acts|
  {
    if |acts| > 0 {
      LeadCountGrowth(Apply(s, acts[0]), acts[1..]);
    }
  }

  /** Actions other than AddLead leave the leads as they are. */
  lemma {:induction false} LeadsUntouched(s: Snapshot, acts: seq<Action>)
    requires forall j :: 0 <= j < |acts| ==> !acts[j].AddLead?
    ensures ApplyAll(s, acts).leads == s.leads
    decreases |acts|
  {
    if |acts| > 0 {
      LeadsUntouched(Apply(s, acts[0]), acts[1..]);
    }
  }

  /** The most recently added lead is at index 0, and the leads present before it follow
      in their order, whatever non-lead actions come afterwards. */
  lemma NewestLeadFirst(s: Snapshot, before: seq<Action>, lead: Lead, after: seq<Action>)
    requires forall j :: 0 <= j < |after| ==> !after[j].AddLead?
    ensures ApplyAll(s, before + [AddLead(lead)] + after).leads
            == [lead] + ApplyAll(s, before).leads
  {
    ApplyAllAppend(s, before + [AddLead(lead)], after);
    ApplyAllAppend(s, before, [AddLead(lead)]);
    LeadsUntouched(ApplyAll(s, before + [AddLead(lead)]), after);
  }

  /** The application's store: the four collections as fields. */
  class DomainStore {
    var leads: seq<Lead>
    var deals: seq<Deal>
    var contacts: seq<Contact>
    var tasks: seq<Task>

    function Current(): Snapshot
      reads this
    {
      Snapshot(leads, deals, contacts, tasks)
    }

    /** The useState initialisers: every collection starts as its seed. */
    constructor ()
      ensures Current() == Initial
      ensures leads == MockData.MockLeads && deals == MockData.MockDeals
      ensures contacts == MockData.MockContacts && tasks == MockData.MockTasks
    {
      leads := MockData.MockLeads;
      deals := MockData.MockDeals;
      contacts := MockData.MockContacts;
      tasks := MockData.MockTasks;
    }

    method AddLead(lead: Lead)
      modifies this
      ensures leads == [lead] + old(leads)
      ensures deals == old(deals) && contacts == old(contacts) && tasks == old(tasks)
      ensures Current() == Apply(old(Current()), Action.AddLead(lead))
    {
      leads := [lead] + leads;
    }

    method AddContact(contact: Contact)
      modifies this
      ensures contacts == [contact] + old(contacts)
      ensures leads == old(leads) && deals == old(deals) && tasks == old(tasks)
      ensures Current() == Apply(old(Current()), Action.AddContact(contact))
    {
      contacts := [contact] + contacts;
    }

    method DeleteContact(id: string)
      modifies this
      ensures contacts == RemoveContactById(old(contacts), id)
      ensures forall c :: c in contacts ==> c.id != id
      ensures leads == old(leads) && deals == old(deals) && tasks == old(tasks)
      ensures Current() == Apply(old(Current()), Action.DeleteContact(id))
    {
      contacts := RemoveContactById(contacts, id);
    }

    method UpdateDealStage(id: string, stage: DealStage)
      modifies this
      ensures deals == SetDealStage(old(deals), id, stage)
      ensures leads == old(leads) && contacts == old(contacts) && tasks == old(tasks)
      ensures Current() == Apply(old(Current()), Action.UpdateDealStage(id, stage))
    {
      deals := SetDealStage(deals, id, stage);
    }
  }
}
