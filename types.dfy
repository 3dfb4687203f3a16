/** The CRM's entities (types.ts): two enumerations and five records. Every record is an
    immutable value; an update builds a new record. `value` is an unconstrained integer:
    nothing in the types enforces non-negative values or unique ids. */
module Types {
  import opened Seqs

  /** A lead's qualification score. */
  datatype LeadStatus = Hot | Warm | Cold

  /** Pipeline stages; ClosedLost exists here but the pipeline board has no column for it. */
  datatype DealStage = Prospecting | Qualification | Proposal | Negotiation | ClosedWon | ClosedLost

  datatype Priority = High | Medium | Low

  datatype Role = User | Assistant

  datatype Lead = Lead(
    id: string,
    name: string,
    email: string,
    company: string,
    status: LeadStatus,
    value: int,
    lastContacted: string,
    notes: string)

  datatype Deal = Deal(
    id: string,
    title: string,
    leadId: string,            // weak reference to a Lead id, never checked
    value: int,
    stage: DealStage,
    expectedCloseDate: string)

  datatype Task = Task(
    id: string,
    title: string,
    dueDate: string,
    priority: Priority,
    completed: bool,
    relatedTo: Option<string>)

  datatype Contact = Contact(
    id: string,
    name: string,
    email: string,
    phone: string,
    role: string,
    jobTitle: string,
    company: string,
    companyDescription: Option<string>,
    recentInteraction: Option<string>,
    avatarUrl: Option<string>)

  /** A chat turn; the Date timestamp is a clock reading supplied by the caller. */
  datatype Message = Message(role: Role, content: string, timestamp: int)

  /** The string value of each LeadStatus member (what the CSV export writes): one of the
      three names, and the one the status parser maps back to the member. */
  function LeadStatusName(s: LeadStatus): (r: string)
    ensures r in {"HOT", "WARM", "COLD"}
    ensures ParseLeadStatus(r) == Some(s)
  {
    match s
    case Hot => "HOT"
    case Warm => "WARM"
    case Cold => "COLD"
  }

  /** The status selector's value read back as a member: the member whose string value is
      `name`, if there is one. TypeScript's `as LeadStatus` is an unchecked cast; what keeps
      the value to HOT, WARM or COLD is that the select offers only those three options. */
  function ParseLeadStatus(name: string): Option<LeadStatus>
  {
    if name == "HOT" then Some(Hot)
    else if name == "WARM" then Some(Warm)
    else if name == "COLD" then Some(Cold)
    else None
  }

  /** Status names and ParseLeadStatus are inverse: each of the three members is recovered
      from its name, and only the three names parse. */
  lemma LeadStatusNames(s: LeadStatus, name: string)
    ensures ParseLeadStatus(LeadStatusName(s)) == Some(s)
    ensures ParseLeadStatus(name) == Some(s) <==> name == LeadStatusName(s)
    ensures ParseLeadStatus(name).None? <==> name !in {"HOT", "WARM", "COLD"}
  {
  }

  /** All six stages, in declaration order. */
  const AllDealStages: seq<DealStage> :=
    [Prospecting, Qualification, Proposal, Negotiation, ClosedWon, ClosedLost]

  /** DealStage has exactly six members, ClosedLost among them. */
  lemma DealStagesEnumerated(s: DealStage)
    ensures s in AllDealStages
    ensures |AllDealStages| == 6 && ClosedLost in AllDealStages
    ensures forall i, j :: 0 <= i < j < |AllDealStages| ==> AllDealStages[i] != AllDealStages[j]
  {
  }
}
