/** pages/Dashboard.tsx: the stat cards computed from the store (pipeline value, lead and
    deal counts, pending tasks) and the AI insights panel with its loading flag. */
module Dashboard {
  import opened Seqs
  import opened Types
  import opened Gateway
  import Pipeline
  import Store

  /** totalPipelineValue: every deal's value, whatever its stage; deals of non-negative
      value give a non-negative total. */
  function PipelineTotal(deals: seq<Deal>): (r: int)
    ensures (forall k :: 0 <= k < |deals| ==> deals[k].value >= 0) ==> r >= 0
  {
    Pipeline.SumValuesNonNegative(deals);
    Pipeline.SumValues(deals)
  }

  /** The total is zero without deals, adds up over concatenation, splits into the six
      stage totals (ClosedLost included), and is not changed by moving a deal's stage. */
  lemma PipelineTotalSpec(deals: seq<Deal>, more: seq<Deal>, id: string, stage: DealStage)
    ensures PipelineTotal([]) == 0
    ensures PipelineTotal(deals + more) == PipelineTotal(deals) + PipelineTotal(more)
    ensures PipelineTotal(deals) ==
              Pipeline.StageValue(deals, Prospecting) + Pipeline.StageValue(deals, Qualification) +
              Pipeline.StageValue(deals, Proposal) + Pipeline.StageValue(deals, Negotiation) +
              Pipeline.StageValue(deals, ClosedWon) + Pipeline.StageValue(deals, ClosedLost)
    ensures PipelineTotal(Store.SetDealStage(deals, id, stage)) == PipelineTotal(deals)
  {
    Pipeline.SumValuesAppend(deals, more);
    Pipeline.StageValuesPartition(deals);
    Pipeline.SumValuesStageIndependent(deals, id, stage);
  }

  /** `tasks.filter(t => !t.completed).length`. */
  function PendingCount(tasks: seq<Task>): (n: nat)
    ensures n <= |tasks|
    ensures n == Count((t: Task) => !t.completed, tasks)
  {
    |Filter((t: Task) => !t.completed, tasks)|
  }

  /** The pending tasks and the completed tasks make up all the tasks; the count is the
      length when none is completed and zero when all are. */
  lemma PendingCountSpec(tasks: seq<Task>)
    ensures PendingCount(tasks) + Count((t: Task) => t.completed, tasks) == |tasks|
    ensures (forall j :: 0 <= j < |tasks| ==> !tasks[j].completed) ==> PendingCount(tasks) == |tasks|
    ensures (forall j :: 0 <= j < |tasks| ==> tasks[j].completed) ==> PendingCount(tasks) == 0
  {
    var p := (t: Task) => t.completed;
    CountComplement(p, tasks);
    assert Filter((t: Task) => !t.completed, tasks) == Filter((t: Task) => !p(t), tasks) by {
      FilterExt((t: Task) => !t.completed, (t: Task) => !p(t), tasks);
    }
    if forall j :: 0 <= j < |tasks| ==> !tasks[j].completed {
      FilterAll((t: Task) => !t.completed, tasks);
    }
    if forall j :: 0 <= j < |tasks| ==> tasks[j].completed {
      FilterAll(p, tasks);
    }
  }

  /** The four numbers on the top cards. */
  datatype StatCards = StatCards(pipelineValue: int, totalLeads: nat, dealsCount: nat, tasksPending: nat)

  /** Pipeline Value is the total of all deals, Total Leads and Deals Count are the
      collection lengths, and Tasks Pending counts the tasks not completed. */
  function Cards(leads: seq<Lead>, deals: seq<Deal>, tasks: seq<Task>): (c: StatCards)
    ensures c.pipelineValue == PipelineTotal(deals)
    ensures c.totalLeads == |leads| && c.dealsCount == |deals|
    ensures c.tasksPending == Count((t: Task) => !t.completed, tasks) && c.tasksPending <= |tasks|
  {
    StatCards(PipelineTotal(deals), |leads|, |deals|, PendingCount(tasks))
  }

  /** Adding a lead raises Total Leads by one and leaves the other cards alone; deleting a
      contact or moving a deal's stage leaves every card as it was. */
  lemma CardsAfterActions(s: Store.Snapshot, lead: Lead, id: string, dealId: string, stage: DealStage)
    ensures Cards(Store.Apply(s, Store.AddLead(lead)).leads, s.deals, s.tasks) ==
              Cards(s.leads, s.deals, s.tasks).(totalLeads := |s.leads| + 1)
    ensures var t := Store.Apply(s, Store.DeleteContact(id));
            Cards(t.leads, t.deals, t.tasks) == Cards(s.leads, s.deals, s.tasks)
    ensures var t := Store.Apply(s, Store.UpdateDealStage(dealId, stage));
            Cards(t.leads, t.deals, t.tasks) == Cards(s.leads, s.deals, s.tasks)
  {
    Pipeline.SumValuesStageIndependent(s.deals, dealId, stage);
  }

  const LoadingText: string := "Analyzing pipeline..."
  const NoInsightsText: string := "No insights available yet."
  const InsightsErrorText: string := "Unable to load AI insights."

  /** The insights panel's state: the text and the loading flag. */
  class InsightsPanel {
    var insights: string
    var loadingInsights: bool

    /** The initial state: no text yet, and loading. */
    constructor ()
      ensures insights == "" && loadingInsights
      ensures Shown() == LoadingText
    {
      insights := "";
      loadingInsights := true;
    }

    /** `loadingInsights ? "Analyzing pipeline..." : insights`. */
    function Shown(): string
      reads this
    {
      if loadingInsights then LoadingText else insights
    }

    /** fetchInsights, run with the call's outcome (on mount and whenever the leads or
      deals change): a resolved call shows its text, or the no-insights notice when it is
      empty; a rejected call shows the error notice; the flag ends lowered in every case.
      Nothing ever raises the flag again, so after the first completion the panel shows the
      text rather than the loading notice, and that text is never empty. */
    method FetchInsights(outcome: Outcome)
      modifies this
      ensures !loadingInsights
      ensures outcome.Failure? ==> insights == InsightsErrorText
      ensures !outcome.Failure? ==> insights == TextOr(outcome, NoInsightsText)
      ensures Shown() == insights && Shown() != ""
    {
      if outcome.Failure? {
        insights := InsightsErrorText;
      } else {
        insights := TextOr(outcome, NoInsightsText);
      }
      loadingInsights := false;
    }
  }
}
