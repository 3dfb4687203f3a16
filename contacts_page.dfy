/** pages/Contacts.tsx: the directory search, the add-contact form and its submit handler,
    deletion with the selection rule, the initials avatar a list row shows for a missing
    avatar, and the fallbacks the profile panel shows for missing description and
    interaction texts. The panel shows the stored avatar as it is, with no fallback. */
module ContactsPage {
  import opened Seqs
  import opened Types
  import opened Text
  import Store

  /** `name`, `company` or `jobTitle`, lower-cased, includes the lower-cased term. */
  predicate MatchesSearch(c: Contact, term: string)
  {
    var t := ToLower(term);
    Contains(ToLower(c.name), t) || Contains(ToLower(c.company), t) || Contains(ToLower(c.jobTitle), t)
  }

  /** filteredContacts: `contacts.filter(MatchesSearch)`, the matching contacts in their
      original order. */
  function FilteredContacts(contacts: seq<Contact>, term: string): (r: seq<Contact>)
    ensures forall c :: c in r <==> c in contacts && MatchesSearch(c, term)
    ensures IsSubseq(r, contacts)
    ensures |r| == Count((c: Contact) => MatchesSearch(c, term), contacts)
  {
    Filter((c: Contact) => MatchesSearch(c, term), contacts)
  }

  /** The result is the only subsequence of the collection that holds matching contacts
      alone and all of them. */
  lemma FilteredContactsSpec(contacts: seq<Contact>, term: string, r: seq<Contact>)
    ensures IsSubseq(r, contacts) && (forall c :: c in r ==> MatchesSearch(c, term)) &&
            |r| == Count((c: Contact) => MatchesSearch(c, term), contacts)
            ==> r == FilteredContacts(contacts, term)
  {
    if IsSubseq(r, contacts) && (forall c :: c in r ==> MatchesSearch(c, term)) &&
       |r| == Count((c: Contact) => MatchesSearch(c, term), contacts) {
      FilterUnique((c: Contact) => MatchesSearch(c, term), r, contacts);
    }
  }

  /** With an empty search box the whole collection is listed, in its order. */
  lemma EmptySearchListsAll(contacts: seq<Contact>)
    ensures FilteredContacts(contacts, "") == contacts
  {
    forall j | 0 <= j < |contacts| ensures MatchesSearch(contacts[j], "") {
      ContainsEmpty(ToLower(contacts[j].name));
    }
    FilterAll((c: Contact) => MatchesSearch(c, ""), contacts);
  }

  /** The search ignores the case of the term: the upper-cased and the lower-cased term
      list the same contacts as the term itself. */
  lemma SearchIgnoresCase(contacts: seq<Contact>, term: string)
    ensures FilteredContacts(contacts, ToUpper(term)) == FilteredContacts(contacts, term)
    ensures FilteredContacts(contacts, ToLower(term)) == FilteredContacts(contacts, term)
  {
    LowerForgetsCase(term);
    FilterExt((c: Contact) => MatchesSearch(c, ToUpper(term)), (c: Contact) => MatchesSearch(c, term), contacts);
    FilterExt((c: Contact) => MatchesSearch(c, ToLower(term)), (c: Contact) => MatchesSearch(c, term), contacts);
  }

  /** The search also ignores the case of the contact's fields. */
  lemma SearchIgnoresFieldCase(c: Contact, term: string)
    ensures MatchesSearch(c.(name := ToUpper(c.name), company := ToUpper(c.company),
                             jobTitle := ToUpper(c.jobTitle)), term) == MatchesSearch(c, term)
  {
    LowerForgetsCase(c.name);
    LowerForgetsCase(c.company);
    LowerForgetsCase(c.jobTitle);
  }

  /** A contact matches exactly when the lower-cased term starts at some offset of its
      lower-cased name, company or job title. */
  lemma MatchesAnyField(c: Contact, term: string)
    ensures MatchesSearch(c, term) <==>
              exists i :: OccursAt(ToLower(c.name), ToLower(term), i) ||
                          OccursAt(ToLower(c.company), ToLower(term), i) ||
                          OccursAt(ToLower(c.jobTitle), ToLower(term), i)
  {
    var n, co, j, t := ToLower(c.name), ToLower(c.company), ToLower(c.jobTitle), ToLower(term);
    ContainsAt(n, t);
    ContainsAt(co, t);
    ContainsAt(j, t);
    if Contains(n, t) {
      var i :| OccursAt(n, t, i);
      assert MatchesSearch(c, term);
      assert OccursAt(n, t, i) || OccursAt(co, t, i) || OccursAt(j, t, i);
    } else if Contains(co, t) {
      var i :| OccursAt(co, t, i);
    } else if Contains(j, t) {
      var i :| OccursAt(j, t, i);
    }
  }

  /** The add-contact form: eight texts. */
  datatype ContactForm = ContactForm(
    name: string,
    email: string,
    phone: string,
    role: string,
    jobTitle: string,
    company: string,
    companyDescription: string,
    recentInteraction: string)

  const BlankContactForm: ContactForm := ContactForm("", "", "", "", "", "", "", "")

  const AvataaarsPrefix: string := "https://api.dicebear.com/7.x/avataaars/svg?seed="
  const InitialsPrefix: string := "https://api.dicebear.com/7.x/initials/svg?seed="
  const NoDescriptionText: string := "No company description available for this profile."
  const NoInteractionText: string := "System waiting for initial contact logging."

  /** handleAddSubmit's contact: the spread form, id `c` followed by the clock reading `now`,
      and the avataaars avatar seeded with the name. The contact copies every form field (the
      spread copies the two free texts even when they are empty), has an id made of `c` and
      decimal digits, and always has an avatar, the avataaars URL for its name. */
  function NewContact(form: ContactForm, now: nat): (c: Contact)
    ensures |c.id| >= 2 && c.id[0] == 'c'
    ensures forall i :: 1 <= i < |c.id| ==> IsDigit(c.id[i])
    ensures c.name == form.name && c.email == form.email
    ensures c.phone == form.phone && c.role == form.role
    ensures c.jobTitle == form.jobTitle && c.company == form.company
    ensures c.companyDescription == Some(form.companyDescription)
    ensures c.recentInteraction == Some(form.recentInteraction)
    ensures c.avatarUrl.Some? && IsPrefix(AvataaarsPrefix, c.avatarUrl.value)
    ensures c.avatarUrl.value[|AvataaarsPrefix|..] == form.name
  {
    var id := "c" + NatToString(now);
    assert id[1..] == NatToString(now);
    var url := AvataaarsPrefix + form.name;
    assert url[..|AvataaarsPrefix|] == AvataaarsPrefix;
    Contact(id, form.name, form.email, form.phone, form.role, form.jobTitle, form.company,
            Some(form.companyDescription), Some(form.recentInteraction), Some(url))
  }

  /** `text || fallback` on an optional text: the text unless it is missing or empty. */
  function OrFallback(text: Option<string>, fallback: string): (r: string)
    ensures text.Some? && text.value != "" ==> r == text.value
    ensures text.None? || text == Some("") ==> r == fallback
    ensures fallback != "" ==> r != ""
  {
    if text.Some? && text.value != "" then text.value else fallback
  }

  /** The list avatar: a missing or empty avatar shows the initials URL seeded with the
      name; a present one shows itself. */
  function AvatarSrc(c: Contact): (r: string)
    ensures (c.avatarUrl.None? || c.avatarUrl.value == "") ==> r == InitialsPrefix + c.name
    ensures c.avatarUrl.Some? && c.avatarUrl.value != "" ==> r == c.avatarUrl.value
    ensures r != ""
  {
    OrFallback(c.avatarUrl, InitialsPrefix + c.name)
  }

  /** The profile panel's company description: the fixed placeholder when it is missing or
      empty, otherwise the description itself. */
  function DescriptionText(c: Contact): (r: string)
    ensures (c.companyDescription.None? || c.companyDescription.value == "") ==> r == NoDescriptionText
    ensures c.companyDescription.Some? && c.companyDescription.value != "" ==> r == c.companyDescription.value
  {
    OrFallback(c.companyDescription, NoDescriptionText)
  }

  /** The profile panel's latest interaction: the fixed placeholder when it is missing or
      empty, otherwise the text itself. */
  function InteractionText(c: Contact): (r: string)
    ensures (c.recentInteraction.None? || c.recentInteraction.value == "") ==> r == NoInteractionText
    ensures c.recentInteraction.Some? && c.recentInteraction.value != "" ==> r == c.recentInteraction.value
  {
    OrFallback(c.recentInteraction, NoInteractionText)
  }

  /** A contact added with the free texts left blank shows both placeholders, although the
      spread stores them as present (empty) texts; its list row shows the avataaars URL. */
  lemma BlankContactPanel(form: ContactForm, now: nat)
    requires form.companyDescription == "" && form.recentInteraction == ""
    ensures NewContact(form, now).companyDescription == Some("")
    ensures DescriptionText(NewContact(form, now)) == NoDescriptionText
    ensures InteractionText(NewContact(form, now)) == NoInteractionText
    ensures AvatarSrc(NewContact(form, now)) == AvataaarsPrefix + form.name
  {
    var c := NewContact(form, now);
    assert c.avatarUrl.value != "" by {
      assert |c.avatarUrl.value| >= |AvataaarsPrefix| > 0;
    }
  }

  /** The page's local state. */
  class ContactsPage {
    var searchTerm: string
    var selectedContact: Option<Contact>
    var isModalOpen: bool
    var form: ContactForm

    constructor ()
      ensures searchTerm == "" && selectedContact == None && !isModalOpen && form == BlankContactForm
    {
      searchTerm := "";
      selectedContact := None;
      isModalOpen := false;
      form := BlankContactForm;
    }

    /** The search box's onChange. */
    method SetSearchTerm(term: string)
      modifies this
      ensures searchTerm == term
      ensures selectedContact == old(selectedContact) && isModalOpen == old(isModalOpen)
      ensures form == old(form)
    {
      searchTerm := term;
    }

    /** A click on a row selects that contact. */
    method SelectContact(c: Contact)
      modifies this
      ensures selectedContact == Some(c)
      ensures searchTerm == old(searchTerm) && isModalOpen == old(isModalOpen) && form == old(form)
    {
      selectedContact := Some(c);
    }

    /** handleAddSubmit: the new contact is prepended to the store's contacts, the modal
      closes and every form field is reset to empty. */
    method HandleAddSubmit(store: Store.DomainStore, now: nat)
      modifies this, store
      ensures store.contacts == [NewContact(old(form), now)] + old(store.contacts)
      ensures store.leads == old(store.leads) && store.deals == old(store.deals)
      ensures store.tasks == old(store.tasks)
      ensures !isModalOpen && form == BlankContactForm
      ensures searchTerm == old(searchTerm) && selectedContact == old(selectedContact)
    {
      var contact := NewContact(form, now);
      store.AddContact(contact);
      isModalOpen := false;
      form := BlankContactForm;
    }

    /** The delete button of a row: the store drops every contact with the row's id; the
      selection is cleared exactly when it has that id, and otherwise kept. */
    method HandleDelete(store: Store.DomainStore, contact: Contact)
      modifies this, store
      ensures store.contacts == Store.RemoveContactById(old(store.contacts), contact.id)
      ensures store.leads == old(store.leads) && store.deals == old(store.deals)
      ensures store.tasks == old(store.tasks)
      ensures old(selectedContact).Some? && old(selectedContact).value.id == contact.id ==>
                selectedContact == None
      ensures !(old(selectedContact).Some? && old(selectedContact).value.id == contact.id) ==>
                selectedContact == old(selectedContact)
      ensures selectedContact.Some? ==> selectedContact.value.id != contact.id
      ensures searchTerm == old(searchTerm) && isModalOpen == old(isModalOpen) && form == old(form)
    {
      store.DeleteContact(contact.id);
      if selectedContact.Some? && selectedContact.value.id == contact.id {
        selectedContact := None;
      }
    }
  }
}
