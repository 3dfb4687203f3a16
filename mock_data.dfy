/** The fixture collections the store is seeded with at start-up (data/mockData.ts). */
module MockData {
  import opened Seqs
  import opened Types

  const MockLeads: seq<Lead> := [
    Lead("l1", "John Doe", "john@techcorp.com", "TechCorp", Hot, 5000, "2023-10-25",
         "Very interested in our premium plan."),
    Lead("l2", "Jane Smith", "jane@designhub.io", "DesignHub", Warm, 2500, "2023-10-20",
         "Asking about bulk discounts."),
    Lead("l3", "Bob Wilson", "bob@builders.net", "Wilson Builders", Cold, 12000, "2023-09-15",
         "Call back in 3 months."),
    Lead("l4", "Alice Brown", "alice@crypto.com", "CryptoPay", Hot, 8500, "2023-10-26",
         "Need immediate implementation.")
  ]

  const MockDeals: seq<Deal> := [
    Deal("d1", "TechCorp Enterprise", "l1", 5000, Negotiation, "2023-11-15"),
    Deal("d2", "DesignHub Expansion", "l2", 2500, Proposal, "2023-11-30"),
    Deal("d3", "CryptoPay Integration", "l4", 8500, Qualification, "2023-12-05")
  ]

  const MockTasks: seq<Task> := [
    Task("t1", "Follow up with John Doe", "2023-10-28", High, false, Some("l1")),
    Task("t2", "Draft proposal for Jane", "2023-10-29", Medium, false, Some("l2")),
    Task("t3", "Check invoice status", "2023-10-25", Low, true, None)
  ]

  const MockContacts: seq<Contact> := [
    Contact("c1", "John Doe", "john@techcorp.com", "+1 555-123-4567", "Executive",
            "Chief Technology Officer", "TechCorp",
            Some("Global leader in cloud infrastructure and cybersecurity solutions for mid-market firms."),
            Some("Discussed the Q4 scaling roadmap. John is concerned about latency in the APAC region."),
            Some("https://api.dicebear.com/7.x/avataaars/svg?seed=John")),
    Contact("c2", "Jane Smith", "jane@designhub.io", "+1 555-987-6543", "Creative",
            "Creative Director", "DesignHub",
            Some("Award-winning boutique agency specializing in sustainable brand identity and UI/UX design."),
            Some("Jane requested a demo of our asset management feature for their freelance network."),
            Some("https://api.dicebear.com/7.x/avataaars/svg?seed=Jane")),
    Contact("c3", "Sarah Connor", "sarah@resistance.net", "+1 555-000-1984", "Operations",
            "Operations Manager", "Skynet Solutions",
            Some("Edge computing startup focusing on automated threat detection and logistics."),
            Some("Sent follow-up regarding the service level agreement. Waiting for legal review."),
            Some("https://api.dicebear.com/7.x/avataaars/svg?seed=Sarah")),
    Contact("c4", "Michael Scott", "michael@dundermifflin.com", "+1 555-111-2222", "Management",
            "Regional Manager", "Dunder Mifflin",
            Some("Premier regional paper supplier with a focus on personalized customer service."),
            Some("Michael called to discuss \"unlimited\" paper supplies. Seems to be shopping for a new CRM."),
            Some("https://api.dicebear.com/7.x/avataaars/svg?seed=Michael"))
  ]
}
