/** Facts about the seed collections of data/mockData.ts, stated through the model's own
    operations: the store's start state, the pipeline board and the dashboard cards the
    application opens with. */
module SeedFacts {
  import opened Seqs
  import opened Types
  import opened MockData
  import Store
  import Pipeline
  import Dashboard
  import ContactsPage
  import opened Text

  /** The four seed leads have four different ids, and their values are non-negative. */
  lemma SeedLeads()
    ensures |MockLeads| == 4
    ensures forall i, j :: 0 <= i < j < |MockLeads| ==> MockLeads[i].id != MockLeads[j].id
    ensures forall i :: 0 <= i < |MockLeads| ==> MockLeads[i].value >= 0
  {
  }

  /** Every seed deal's lead reference resolves: d1 to l1, d2 to l2 and d3 to l4. */
  lemma SeedDealLeadsResolve()
    ensures Pipeline.FindLead(MockLeads, MockDeals[0].leadId) == Some(MockLeads[0])
    ensures Pipeline.FindLead(MockLeads, MockDeals[1].leadId) == Some(MockLeads[1])
    ensures Pipeline.FindLead(MockLeads, MockDeals[2].leadId) == Some(MockLeads[3])
  {
    SeedLeadAt(0, 0);
    SeedLeadAt(1, 1);
    SeedLeadAt(2, 3);
  }

  /** Deal i refers to lead k, and no lead before k has that id. */
  lemma SeedLeadAt(i: nat, k: nat)
    requires (i, k) in {(0, 0), (1, 1), (2, 3)}
    ensures i < |MockDeals| && k < |MockLeads|
    ensures Pipeline.FindLead(MockLeads, MockDeals[i].leadId) == Some(MockLeads[k])
  {
    SeedLeads();
    assert MockDeals[i].leadId == MockLeads[k].id;
    Pipeline.FindLeadAt(MockLeads, MockLeads[k].id, k);
  }

  /** The seed deals: non-negative values summing to 16000, and none in Prospecting, Closed
      Won or Closed Lost. */
  lemma SeedDeals()
    ensures Dashboard.PipelineTotal(MockDeals) == 16000
    ensures forall k :: 0 <= k < |MockDeals| ==> MockDeals[k].value >= 0
    ensures forall k :: 0 <= k < |MockDeals| ==>
              MockDeals[k].stage !in {Prospecting, ClosedWon, ClosedLost}
  {
    SeedValueSum();
  }

  lemma SeedValueSum()
    ensures Pipeline.SumValues(MockDeals) == 16000
  {
    assert MockDeals[1..][1..][1..] == [];
  }

  /** The board at start-up: one deal each in Qualification, Proposal and Negotiation, and
      empty Prospecting and Closed Won columns. */
  lemma SeedBoard()
    ensures Pipeline.StageDeals(MockDeals, Prospecting) == []
    ensures Pipeline.StageDeals(MockDeals, Qualification) == [MockDeals[2]]
    ensures Pipeline.StageDeals(MockDeals, Proposal) == [MockDeals[1]]
    ensures Pipeline.StageDeals(MockDeals, Negotiation) == [MockDeals[0]]
    ensures Pipeline.StageDeals(MockDeals, ClosedWon) == []
  {
    assert MockDeals[1..][1..][1..] == [];
  }

  /** Exactly one seed task is completed, so two are pending; t3 has no related entity. */
  lemma SeedTasks()
    ensures Dashboard.PendingCount(MockTasks) == 2
    ensures MockTasks[2].id == "t3" && MockTasks[2].relatedTo.None?
    ensures Count((t: Task) => t.completed, MockTasks) == 1
  {
    Dashboard.PendingCountSpec(MockTasks);
    assert MockTasks[1..][1..][1..] == [];
  }

  /** The dashboard's cards at start-up. */
  lemma SeedCards()
    ensures Dashboard.Cards(MockLeads, MockDeals, MockTasks) == Dashboard.StatCards(16000, 4, 3, 2)
  {
    SeedDeals();
    SeedTasks();
  }

  /** The four seed contacts have different ids and every one has an avatar. */
  lemma SeedContacts()
    ensures |MockContacts| == 4
    ensures forall i, j :: 0 <= i < j < |MockContacts| ==> MockContacts[i].id != MockContacts[j].id
    ensures forall i :: 0 <= i < |MockContacts| ==> MockContacts[i].avatarUrl.Some?
  {
  }

  /** The store starts as the seeds, and no seed deal has the id of another. */
  lemma StoreStartsSeeded()
    ensures Store.Initial.leads == MockLeads && Store.Initial.deals == MockDeals
    ensures Store.Initial.contacts == MockContacts && Store.Initial.tasks == MockTasks
    ensures forall i, j :: 0 <= i < j < |MockDeals| ==> MockDeals[i].id != MockDeals[j].id
  {
  }

  /** Searching "TECH" finds John Doe through his company, TechCorp. */
  lemma SeedSearchByCompany()
    ensures ContactsPage.MatchesSearch(MockContacts[0], "TECH")
  {
    assert MockContacts[0].company == "TechCorp";
    TechPrefix();
    ContainsPrefix(ToLower(MockContacts[0].company), ToLower("TECH"));
  }

  lemma TechPrefix()
    ensures IsPrefix(ToLower("TECH"), ToLower("TechCorp"))
  {
    var t, co := ToLower("TECH"), ToLower("TechCorp");
    assert |t| == 4 && t[0] == 't' && t[1] == 'e' && t[2] == 'c' && t[3] == 'h';
    assert co[0] == 't' && co[1] == 'e' && co[2] == 'c' && co[3] == 'h';
    assert co[..4] == t;
  }

  lemma ContainsPrefix(hay: string, needle: string)
    requires IsPrefix(needle, hay)
    ensures Contains(hay, needle)
  {
  }
}
