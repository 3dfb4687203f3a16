/** The sales pipeline board (pages/Deals.tsx): a five-entry stage table, the cyclic
    "advance to the next stage" rule behind a click on a deal card, the per-stage columns
    with their counts and value sums, the header total, and the weak lead lookup behind a
    card's labels. */
module Pipeline {
  import opened Seqs
  import opened Types
  import Store

  /** One entry of the STAGES table. */
  datatype StageEntry = StageEntry(id: DealStage, heading: string)

  /** STAGES: the board's columns, in order. ClosedLost has no entry. */
  const Stages: seq<StageEntry> := [
    StageEntry(Prospecting, "Prospecting"),
    StageEntry(Qualification, "Qualification"),
    StageEntry(Proposal, "Proposal"),
    StageEntry(Negotiation, "Negotiation"),
    StageEntry(ClosedWon, "Closed Won")
  ]

  /** `STAGES.findIndex(s => s.id === stage)`: the stage's column, or -1. */
  function StageIndex(stage: DealStage): (k: int)
    ensures -1 <= k < |Stages|
    ensures k >= 0 ==> Stages[k].id == stage
    ensures k == -1 <==> stage == ClosedLost
  {
    FindIndex((e: StageEntry) => e.id == stage, Stages)
  }

  /** moveDeal's target stage: `STAGES[(currentIndex + 1) % STAGES.length].id`. The index
      is at least -1, so the remainder is never negative and JavaScript's `%` agrees with
      Dafny's. The result is the stage one column further on, cyclically, and never
      ClosedLost. */
  function NextStage(current: DealStage): (r: DealStage)
    ensures StageIndex(r) == (StageIndex(current) + 1) % |Stages|
    ensures r != ClosedLost
  {
    var m := (StageIndex(current) + 1) % |Stages|;
    IndexInTable(Stages[m].id, m);
    Stages[m].id
  }

  /** The stage moveDeal picks from the table is NextStage. */
  lemma NextStageIs(current: DealStage, next: int)
    requires next == (StageIndex(current) + 1) % |Stages|
    ensures 0 <= next < |Stages| && Stages[next].id == NextStage(current)
  {
  }

  /** The table's column indices. */
  lemma StageIndices()
    ensures Stages[0].id == Prospecting && Stages[1].id == Qualification
    ensures Stages[2].id == Proposal && Stages[3].id == Negotiation && Stages[4].id == ClosedWon
    ensures StageIndex(Prospecting) == 0 && StageIndex(Qualification) == 1
    ensures StageIndex(Proposal) == 2 && StageIndex(Negotiation) == 3
    ensures StageIndex(ClosedWon) == 4 && StageIndex(ClosedLost) == -1
  {
    IndexInTable(Prospecting, 0);
    IndexInTable(Qualification, 1);
    IndexInTable(Proposal, 2);
    IndexInTable(Negotiation, 3);
    IndexInTable(ClosedWon, 4);
  }

  /** The table, entry by entry: the index of each stage and the stage after it. */
  lemma StageTable()
    ensures Stages[0].id == Prospecting && Stages[1].id == Qualification
    ensures Stages[2].id == Proposal && Stages[3].id == Negotiation && Stages[4].id == ClosedWon
    ensures StageIndex(Prospecting) == 0 && StageIndex(Qualification) == 1
    ensures StageIndex(Proposal) == 2 && StageIndex(Negotiation) == 3
    ensures StageIndex(ClosedWon) == 4 && StageIndex(ClosedLost) == -1
    ensures NextStage(Prospecting) == Qualification && NextStage(Qualification) == Proposal
    ensures NextStage(Proposal) == Negotiation && NextStage(Negotiation) == ClosedWon
    ensures NextStage(ClosedWon) == Prospecting && NextStage(ClosedLost) == Prospecting
  {
    StageIndices();
    NextStages();
  }

  /** The stage after each stage. */
  lemma NextStages()
    ensures NextStage(Prospecting) == Qualification && NextStage(Qualification) == Proposal
    ensures NextStage(Proposal) == Negotiation && NextStage(Negotiation) == ClosedWon
    ensures NextStage(ClosedWon) == Prospecting && NextStage(ClosedLost) == Prospecting
  {
    StageIndices();
    assert NextStage(Prospecting) == Qualification by { NextStageIs(Prospecting, 1); }
    assert NextStage(Qualification) == Proposal by { NextStageIs(Qualification, 2); }
    assert NextStage(Proposal) == Negotiation by { NextStageIs(Proposal, 3); }
    assert NextStage(Negotiation) == ClosedWon by { NextStageIs(Negotiation, 4); }
    assert NextStage(ClosedWon) == Prospecting by { NextStageIs(ClosedWon, 0); }
    assert NextStage(ClosedLost) == Prospecting by { NextStageIs(ClosedLost, 0); }
  }

  /** The column of a stage is the only index holding it, because the table's ids differ. */
  lemma IndexInTable(stage: DealStage, i: int)
    requires 0 <= i < |Stages| && Stages[i].id == stage
    ensures StageIndex(stage) == i
  {
    var k := StageIndex(stage);
    assert Stages[k].id == stage;
  }

  /** Advancing from the stage in column i gives the stage in column (i + 1) % 5. */
  lemma NextStageAt(i: int)
    requires 0 <= i < |Stages|
    ensures StageIndex(Stages[i].id) == i
    ensures NextStage(Stages[i].id) == Stages[(i + 1) % 5].id
  {
    StageTable();
  }

  /** An advance never produces ClosedLost. */
  lemma NextStageNeverLost(s: DealStage)
    ensures NextStage(s) != ClosedLost
  {
    StageTable();
  }

  /** `n` successive advances. */
  function Advance(s: DealStage, n: nat): DealStage
    decreases n
  {
    if n == 0 then s else Advance(NextStage(s), n - 1)
  }

  /** Five successive advances bring every tabled stage back to itself; ClosedLost, which
      is not tabled, is not restored. */
  lemma FiveAdvancesCycle(s: DealStage)
    ensures s != ClosedLost <==> Advance(s, 5) == s
  {
    StageTable();
  }

  /** On the tabled stages the advance is one-to-one (a cyclic permutation). */
  lemma NextStageInjective(a: DealStage, b: DealStage)
    requires a != ClosedLost && b != ClosedLost
    requires NextStage(a) == NextStage(b)
    ensures a == b
  {
    StageTable();
  }

  /** `deals.reduce((a, b) => a + b.value, 0)`, over exact integers. Used for the header
      total here and the pipeline value on the dashboard. No deals sum to 0, and
      non-negative values have a non-negative sum. */
  function SumValues(deals: seq<Deal>): (r: int)
    ensures |deals| == 0 ==> r == 0
  {
    if |deals| == 0 then 0 else deals[0].value + SumValues(deals[1..])
  }

  lemma {:induction false} SumValuesAppend(a: seq<Deal>, b: seq<Deal>)
    ensures SumValues(a + b) == SumValues(a) + SumValues(b)
  {
    if |a| > 0 {
      SumValuesAppend(a[1..], b);
      assert (a + b)[1..] == a[1..] + b;
    } else {
      assert a + b == b;
    }
  }

  /** Deals of non-negative value have a non-negative sum. */
  lemma {:induction false} SumValuesNonNegative(deals: seq<Deal>)
    ensures (forall k :: 0 <= k < |deals| ==> deals[k].value >= 0) ==> SumValues(deals) >= 0
  {
    if |deals| > 0 {
      SumValuesNonNegative(deals[1..]);
      if forall k :: 0 <= k < |deals| ==> deals[k].value >= 0 {
        assert forall k :: 0 <= k < |deals[1..]| ==> deals[1..][k].value >= 0 by {
          forall k | 0 <= k < |deals[1..]| ensures deals[1..][k].value >= 0 {
            assert deals[1..][k] == deals[k + 1];
          }
        }
      }
    }
  }

  /** Changing a deal's stage never changes the total. */
  lemma {:induction false} SumValuesStageIndependent(deals: seq<Deal>, id: string, stage: DealStage)
    ensures SumValues(Store.SetDealStage(deals, id, stage)) == SumValues(deals)
  {
    if |deals| > 0 {
      SumValuesStageIndependent(deals[1..], id, stage);
    }
  }

  /** `deals.filter(d => d.stage === stage)`: the deals in the stage, in collection order. */
  function StageDeals(deals: seq<Deal>, stage: DealStage): (r: seq<Deal>)
    ensures forall d :: d in r <==> d in deals && d.stage == stage
  {
    Filter((d: Deal) => d.stage == stage, deals)
  }

  /** Total value of the deals in one stage. */
  function StageValue(deals: seq<Deal>, stage: DealStage): int
  {
    SumValues(StageDeals(deals, stage))
  }

  /** One column of the board: its table entry, its deals, the count badge and the value. */
  datatype Column = Column(entry: StageEntry, deals: seq<Deal>, count: nat, value: int)

  /** One column: it holds exactly the deals in the entry's stage, in collection order; its
      badge is their number and its value their sum. */
  function MakeColumn(entry: StageEntry, deals: seq<Deal>): (c: Column)
    ensures c.entry == entry
    ensures forall d :: d in c.deals <==> d in deals && d.stage == entry.id
    ensures c.count == |c.deals| == Count((d: Deal) => d.stage == entry.id, deals)
    ensures c.value == SumValues(c.deals)
  {
    var ds := StageDeals(deals, entry.id);
    Column(entry, ds, |ds|, SumValues(ds))
  }

  /** `STAGES.map(...)`: one column per table entry, in table order. */
  function Columns(table: seq<StageEntry>, deals: seq<Deal>): (cs: seq<Column>)
    ensures |cs| == |table|
    ensures forall i :: 0 <= i < |table| ==> cs[i] == MakeColumn(table[i], deals)
  {
    if |table| == 0 then [] else [MakeColumn(table[0], deals)] + Columns(table[1..], deals)
  }

  function Board(deals: seq<Deal>): seq<Column>
  {
    Columns(Stages, deals)
  }

  /** Each column holds exactly the deals in its stage, in collection order, and its badge
      is their number. */
  lemma ColumnContents(deals: seq<Deal>, i: int)
    requires 0 <= i < |Stages|
    ensures |Board(deals)| == 5
    ensures Board(deals)[i].entry == Stages[i]
    ensures forall d :: d in Board(deals)[i].deals <==> d in deals && d.stage == Stages[i].id
    ensures IsSubseq(Board(deals)[i].deals, deals)
    ensures Board(deals)[i].count == |Board(deals)[i].deals|
                                 == Count((d: Deal) => d.stage == Stages[i].id, deals)
    ensures Board(deals)[i].value == SumValues(Board(deals)[i].deals)
  {
  }

  /** Every deal outside ClosedLost is in exactly one column, the one of its stage;
      a ClosedLost deal is in none. */
  lemma DealInOneColumn(deals: seq<Deal>, d: Deal)
    requires d in deals
    ensures d.stage != ClosedLost ==>
              forall i :: 0 <= i < |Stages| ==> (d in Board(deals)[i].deals <==> i == StageIndex(d.stage))
    ensures d.stage == ClosedLost ==>
              forall i :: 0 <= i < |Stages| ==> d !in Board(deals)[i].deals
  {
    forall i | 0 <= i < |Stages|
      ensures d in Board(deals)[i].deals <==> d.stage == Stages[i].id
    {
      ColumnContents(deals, i);
    }
    if d.stage != ClosedLost {
      forall i | 0 <= i < |Stages| ensures d.stage == Stages[i].id <==> i == StageIndex(d.stage) {
        NextStageAt(i);
      }
    }
  }

  /** Every deal counts towards exactly one of the six stage totals. */
  lemma {:induction false} StageValuesPartition(deals: seq<Deal>)
    ensures StageValue(deals, Prospecting) + StageValue(deals, Qualification)
          + StageValue(deals, Proposal) + StageValue(deals, Negotiation)
          + StageValue(deals, ClosedWon) + StageValue(deals, ClosedLost) == SumValues(deals)
  {
    if |deals| > 0 {
      StageValuesPartition(deals[1..]);
      StageValueStep(deals, Prospecting);
      StageValueStep(deals, Qualification);
      StageValueStep(deals, Proposal);
      StageValueStep(deals, Negotiation);
      StageValueStep(deals, ClosedWon);
      StageValueStep(deals, ClosedLost);
    }
  }

  /** A stage total takes the first deal's value exactly when the deal is in that stage. */
  lemma StageValueStep(deals: seq<Deal>, stage: DealStage)
    requires |deals| > 0
    ensures StageValue(deals, stage) ==
              (if deals[0].stage == stage then deals[0].value else 0) + StageValue(deals[1..], stage)
  {
  }

  /** Sum of the columns' values. */
  function ColumnsValue(cs: seq<Column>): int
  {
    if |cs| == 0 then 0 else cs[0].value + ColumnsValue(cs[1..])
  }

  /** The five column values plus the ClosedLost deals' value make the header total. */
  lemma BoardTotal(deals: seq<Deal>)
    ensures ColumnsValue(Board(deals)) + StageValue(deals, ClosedLost) == SumValues(deals)
  {
    var b := Board(deals);
    assert ColumnsValue(b[4..]) == b[4].value by {
      assert b[4..][1..] == [];
    }
    assert ColumnsValue(b[3..]) == b[3].value + ColumnsValue(b[4..]) by {
      assert b[3..][1..] == b[4..];
    }
    assert ColumnsValue(b[2..]) == b[2].value + ColumnsValue(b[3..]) by {
      assert b[2..][1..] == b[3..];
    }
    assert ColumnsValue(b[1..]) == b[1].value + ColumnsValue(b[2..]) by {
      assert b[1..][1..] == b[2..];
    }
    StageValuesPartition(deals);
  }

  /** `leads.find(l => l.id === deal.leadId)`: a weak reference, resolved by lookup. The
      result is the first lead with the id, or nothing when no lead has it. */
  function FindLead(leads: seq<Lead>, leadId: string): (r: Option<Lead>)
    ensures r.None? <==> forall j :: 0 <= j < |leads| ==> leads[j].id != leadId
    ensures r.Some? ==> r.value in leads && r.value.id == leadId
  {
    Find((l: Lead) => l.id == leadId, leads)
  }

  /** The lead at index k is found when no earlier lead has its id. */
  lemma FindLeadAt(leads: seq<Lead>, leadId: string, k: int)
    requires 0 <= k < |leads| && leads[k].id == leadId
    requires forall j :: 0 <= j < k ==> leads[j].id != leadId
    ensures FindLead(leads, leadId) == Some(leads[k])
  {
    var r := FindLead(leads, leadId);
    var i :| 0 <= i < |leads| && leads[i] == r.value && leads[i].id == leadId &&
             forall j :: 0 <= j < i ==> leads[j].id != leadId;
    assert i == k;
  }

  /** The lookup yields the first lead with the id: every lead before it has another id. */
  lemma FindLeadFirst(leads: seq<Lead>, leadId: string)
    ensures FindLead(leads, leadId).Some? ==>
              exists i :: 0 <= i < |leads| && leads[i] == FindLead(leads, leadId).value &&
                          leads[i].id == leadId && forall j :: 0 <= j < i ==> leads[j].id != leadId
  {
  }

  /** `lead?.company`: the lead's company, blank when the lead is missing. */
  function CompanyLabel(lead: Option<Lead>): (r: string)
    ensures lead.Some? ==> r == lead.value.company
    ensures lead.None? ==> r == ""
  {
    if lead.Some? then lead.value.company else ""
  }

  /** `lead?.name.charAt(0)`: blank when the lead is missing or its name is empty. */
  function InitialLabel(lead: Option<Lead>): (r: string)
    ensures |r| <= 1
    ensures r != "" <==> lead.Some? && lead.value.name != ""
    ensures r != "" ==> r[0] == lead.value.name[0]
  {
    if lead.Some? && |lead.value.name| > 0 then [lead.value.name[0]] else ""
  }

  /** A deal whose lead is missing renders blank labels instead of failing. */
  lemma DanglingLeadBlank(leads: seq<Lead>, deal: Deal)
    requires forall j :: 0 <= j < |leads| ==> leads[j].id != deal.leadId
    ensures CompanyLabel(FindLead(leads, deal.leadId)) == ""
    ensures InitialLabel(FindLead(leads, deal.leadId)) == ""
  {
  }

  /** moveDeal: a click on a deal card moves every deal with the card's id to the stage after
      the card's stage. */
  method MoveDeal(store: Store.DomainStore, id: string, currentStage: DealStage)
    modifies store
    ensures store.deals == Store.SetDealStage(old(store.deals), id, NextStage(currentStage))
    ensures store.leads == old(store.leads) && store.contacts == old(store.contacts)
    ensures store.tasks == old(store.tasks)
  {
    var k := StageIndex(currentStage);
    var next := (k + 1) % |Stages|;
    var target := Stages[next].id;
    NextStageIs(currentStage, next);
    store.UpdateDealStage(id, target);
  }
}
