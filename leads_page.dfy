/** The interactive part of pages/Leads.tsx: the add-lead form and its submit handler, and
    the two AI actions of a lead card (score explanation and e-mail draft) with the side
    panel's selection, loading flag and the two texts. The AI call is split at its `await`:
    BeginLeadAction runs the statements before it, CompleteLeadAction the ones after it, so
    the state a re-render can observe in between is part of the model. */
module LeadsPage {
  import opened Seqs
  import opened Types
  import opened Text
  import opened Gateway
  import Store
  import Pipeline

  /** The add-lead form; `value` is the raw text of the number input. */
  datatype LeadForm = LeadForm(
    name: string,
    company: string,
    email: string,
    value: string,
    status: LeadStatus,
    notes: string)

  /** The form's initial and reset value: every text empty, status WARM. */
  const BlankForm: LeadForm := LeadForm("", "", "", "", Warm, "")

  /** The two buttons on a lead card. */
  datatype LeadAction = Analyze | Email

  /** What the panel shows when the AI call rejects. */
  const UnavailableText: string := "AI service unavailable at the moment."

  /** The lead handleAddSubmit builds: id `l` followed by the clock reading `now` (a
      Date.now() value), `Number(value) || 0`, and `today` (the date part of the current
      ISO time) as the last contact. The lead copies the form's texts and status and has an
      id made of `l` and decimal digits. */
  function NewLead(form: LeadForm, now: nat, today: string): (l: Lead)
    ensures |l.id| >= 2 && l.id[0] == 'l'
    ensures forall i :: 1 <= i < |l.id| ==> IsDigit(l.id[i])
    ensures l.name == form.name && l.company == form.company && l.email == form.email
    ensures l.status == form.status && l.notes == form.notes
    ensures l.lastContacted == today
    ensures ParseNumber(form.value).Some? ==> l.value == ParseNumber(form.value).value
    ensures ParseNumber(form.value).None? ==> l.value == 0
  {
    var id := "l" + NatToString(now);
    assert id[1..] == NatToString(now);
    Lead(id, form.name, form.email, form.company, form.status, CoerceNumber(form.value), today, form.notes)
  }

  /** The value is the number the form's text denotes: the text of an integer gives that
      integer back, an empty or blank text gives 0, a text that is not a number gives 0, and
      a run of digits, with leading zeros or a plus sign, gives the value of its digits. */
  lemma NewLeadValue(form: LeadForm, now: nat, today: string, n: int, digits: string)
    ensures form.value == IntToString(n) ==> NewLead(form, now, today).value == n
    ensures ParseNumber(form.value).None? ==> NewLead(form, now, today).value == 0
    ensures (forall i :: 0 <= i < |form.value| ==> IsWhitespace(form.value[i])) ==>
              NewLead(form, now, today).value == 0
    ensures |digits| > 0 && AllDigits(digits) && form.value == digits ==>
              NewLead(form, now, today).value == DigitsValue(digits)
    ensures |digits| > 0 && AllDigits(digits) && form.value == "+" + digits ==>
              NewLead(form, now, today).value == DigitsValue(digits)
  {
    if form.value == IntToString(n) {
      ParseIntToString(n);
    }
    if |digits| > 0 && AllDigits(digits) {
      ParseDigitRun(digits);
      ParsePlus(digits);
    }
  }

  /** Two submits at different clock readings give different ids. */
  lemma NewLeadIdsDiffer(form: LeadForm, form': LeadForm, now: nat, now': nat, today: string)
    requires now != now'
    ensures NewLead(form, now, today).id != NewLead(form', now', today).id
  {
    var a, b := NewLead(form, now, today).id, NewLead(form', now', today).id;
    if a == b {
      assert a[1..] == NatToString(now) && b[1..] == NatToString(now');
      DigitsValueOfNat(now);
      DigitsValueOfNat(now');
    }
  }

  /** The page's local state. */
  class LeadsPage {
    var selectedLeadId: Option<string>
    var aiAnalysis: string
    var emailDraft: string
    var loadingAI: bool
    var isModalOpen: bool
    var form: LeadForm

    constructor ()
      ensures selectedLeadId == None && aiAnalysis == "" && emailDraft == ""
      ensures !loadingAI && !isModalOpen && form == BlankForm
    {
      selectedLeadId := None;
      aiAnalysis := "";
      emailDraft := "";
      loadingAI := false;
      isModalOpen := false;
      form := BlankForm;
    }

    /** `leads.find(l => l.id === selectedLeadId)`: the lead the side panel describes, the
      first lead with the selected id, and nothing when no lead has it or nothing is
      selected (no lead's id equals `null`). */
    function SelectedLead(leads: seq<Lead>): (r: Option<Lead>)
      reads this
      ensures selectedLeadId.Some? ==> r == Pipeline.FindLead(leads, selectedLeadId.value)
      ensures r.None? <==>
                selectedLeadId.None? || forall j :: 0 <= j < |leads| ==> leads[j].id != selectedLeadId.value
      ensures r.Some? ==> exists i :: 0 <= i < |leads| && leads[i] == r.value &&
                                      leads[i].id == selectedLeadId.value &&
                                      forall j :: 0 <= j < i ==> leads[j].id != selectedLeadId.value
    {
      if selectedLeadId.None? then None else Pipeline.FindLead(leads, selectedLeadId.value)
    }

    /** A click on a lead card selects it. */
    method SelectLead(leadId: string)
      modifies this
      ensures selectedLeadId == Some(leadId)
      ensures aiAnalysis == old(aiAnalysis) && emailDraft == old(emailDraft)
      ensures loadingAI == old(loadingAI) && isModalOpen == old(isModalOpen) && form == old(form)
    {
      selectedLeadId := Some(leadId);
    }

    /** handleAddSubmit: the new lead is prepended to the store's leads, the modal closes
      and the form is reset; nothing else in the store or on the page changes. */
    method HandleAddSubmit(store: Store.DomainStore, now: nat, today: string)
      modifies this, store
      ensures store.leads == [NewLead(old(form), now, today)] + old(store.leads)
      ensures store.deals == old(store.deals) && store.contacts == old(store.contacts)
      ensures store.tasks == old(store.tasks)
      ensures !isModalOpen && form == BlankForm
      ensures selectedLeadId == old(selectedLeadId) && aiAnalysis == old(aiAnalysis)
      ensures emailDraft == old(emailDraft) && loadingAI == old(loadingAI)
    {
      var lead := NewLead(form, now, today);
      store.AddLead(lead);
      isModalOpen := false;
      form := BlankForm;
    }

    /** handleLeadAction up to its `await`: the card becomes the selection and the loading
      flag is raised before the lead is looked up; the lead found (if any) comes back, and
      when there is none the handler has returned with the flag still raised. */
    method BeginLeadAction(leads: seq<Lead>, leadId: string) returns (lead: Option<Lead>)
      modifies this
      ensures lead == Pipeline.FindLead(leads, leadId) && lead == SelectedLead(leads)
      ensures lead.None? <==> forall j :: 0 <= j < |leads| ==> leads[j].id != leadId
      ensures lead.Some? ==> lead.value in leads && lead.value.id == leadId
      ensures selectedLeadId == Some(leadId) && loadingAI
      ensures aiAnalysis == old(aiAnalysis) && emailDraft == old(emailDraft)
      ensures isModalOpen == old(isModalOpen) && form == old(form)
    {
      selectedLeadId := Some(leadId);
      loadingAI := true;
      lead := Pipeline.FindLead(leads, leadId);
    }

    /** handleLeadAction after its `await`. A resolved call puts its text, or "" when it is
      empty, in the text of the action and clears the other text; a rejected call puts the
      unavailability notice in the analysis and leaves the draft as it was. The `finally`
      lowers the loading flag in every case. */
    method CompleteLeadAction(action: LeadAction, outcome: Outcome)
      modifies this
      ensures !loadingAI
      ensures outcome.Failure? ==> aiAnalysis == UnavailableText && emailDraft == old(emailDraft)
      ensures !outcome.Failure? && action == Analyze ==>
                aiAnalysis == TextOr(outcome, "") && emailDraft == ""
      ensures !outcome.Failure? && action == Email ==>
                emailDraft == TextOr(outcome, "") && aiAnalysis == ""
      ensures selectedLeadId == old(selectedLeadId) && isModalOpen == old(isModalOpen)
      ensures form == old(form)
    {
      if outcome.Failure? {
        aiAnalysis := UnavailableText;
      } else if action == Analyze {
        aiAnalysis := TextOr(outcome, "");
        emailDraft := "";
      } else {
        emailDraft := TextOr(outcome, "");
        aiAnalysis := "";
      }
      loadingAI := false;
    }

    /** handleLeadAction run to completion with the call's outcome: for a lead that exists the
      flag ends lowered and the texts follow CompleteLeadAction; for a missing lead the
      handler stops early with the selection set, the flag stuck raised and both texts
      untouched. */
    method HandleLeadAction(leads: seq<Lead>, leadId: string, action: LeadAction, outcome: Outcome)
      modifies this
      ensures selectedLeadId == Some(leadId)
      ensures (exists j :: 0 <= j < |leads| && leads[j].id == leadId) <==> !loadingAI
      ensures (forall j :: 0 <= j < |leads| ==> leads[j].id != leadId) ==>
                aiAnalysis == old(aiAnalysis) && emailDraft == old(emailDraft)
      ensures (exists j :: 0 <= j < |leads| && leads[j].id == leadId) ==>
                (outcome.Failure? ==> aiAnalysis == UnavailableText && emailDraft == old(emailDraft)) &&
                (!outcome.Failure? && action == Analyze ==> aiAnalysis == TextOr(outcome, "") && emailDraft == "") &&
                (!outcome.Failure? && action == Email ==> emailDraft == TextOr(outcome, "") && aiAnalysis == "")
      ensures isModalOpen == old(isModalOpen) && form == old(form)
    {
      var lead := BeginLeadAction(leads, leadId);
      if lead.None? {
        return;
      }
      CompleteLeadAction(action, outcome);
    }
  }
}
