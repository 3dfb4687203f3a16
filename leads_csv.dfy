/** The lead report export of pages/Leads.tsx: a header line, then one comma-joined row
    per lead, the lines joined with "\n". The only escaping is that commas in the notes
    become spaces; no field is quoted, so this is not the quoting dialect of section 2 of
    RFC 4180. An empty lead collection yields no document: the page alerts and stops. */
module LeadsCsv {
  import opened Seqs
  import opened Types
  import opened Text

  const Headers: seq<string> :=
    ["ID", "Name", "Email", "Company", "Status", "Value ($)", "Last Contacted", "Notes"]

  function HeaderLine(): string
  {
    Join(Headers, ",")
  }

  /** `l.notes.replace(/,/g, ' ')`. */
  function SanitizeNotes(notes: string): (r: string)
    ensures |r| == |notes|
    ensures ',' !in r
    ensures forall i :: 0 <= i < |notes| ==> r[i] == (if notes[i] == ',' then ' ' else notes[i])
  {
    ReplaceChar(notes, ',', ' ')
  }

  /** The eight cells of a lead's row, in header order; only the notes are altered. */
  function RowFields(l: Lead): seq<string>
  {
    [l.id, l.name, l.email, l.company, LeadStatusName(l.status), IntToString(l.value),
     l.lastContacted, SanitizeNotes(l.notes)]
  }

  /** `r.join(",")`: the eight cells with one comma between neighbours. */
  function Row(l: Lead): (r: string)
    ensures r == l.id + "," + l.name + "," + l.email + "," + l.company + "," +
                 LeadStatusName(l.status) + "," + IntToString(l.value) + "," +
                 l.lastContacted + "," + SanitizeNotes(l.notes)
  {
    Join8(l.id, l.name, l.email, l.company, LeadStatusName(l.status), IntToString(l.value),
          l.lastContacted, SanitizeNotes(l.notes), ",");
    Join(RowFields(l), ",")
  }

  /** `leads.map(...)` followed by `r.join(",")`, in collection order. */
  function Rows(leads: seq<Lead>): (rs: seq<string>)
    ensures |rs| == |leads|
    ensures forall i :: 0 <= i < |leads| ==> rs[i] == Row(leads[i])
  {
    if |leads| == 0 then [] else [Row(leads[0])] + Rows(leads[1..])
  }

  /** exportLeadsToCSV's document, or None for an empty collection. */
  function Export(leads: seq<Lead>): (r: Option<string>)
    ensures r.None? <==> |leads| == 0
  {
    if |leads| == 0 then None else Some(Join([HeaderLine()] + Rows(leads), "\n"))
  }

  /** The header line: the eight names in order with one comma between neighbours (the text
      `ID,Name,Email,Company,Status,Value ($),Last Contacted,Notes`). It splits back into
      the eight names and holds no line break. */
  lemma HeaderLineText()
    ensures HeaderLine() == "ID" + "," + "Name" + "," + "Email" + "," + "Company" + "," +
                            "Status" + "," + "Value ($)" + "," + "Last Contacted" + "," + "Notes"
    ensures Split(HeaderLine(), ',') == Headers && |Split(HeaderLine(), ',')| == 8
    ensures '\n' !in HeaderLine()
  {
    Join8("ID", "Name", "Email", "Company", "Status", "Value ($)", "Last Contacted", "Notes", ",");
    HeaderSplitsBack();
    HeaderSingleLine();
  }

  lemma HeaderSplitsBack()
    ensures Split(HeaderLine(), ',') == Headers
  {
    forall i | 0 <= i < |Headers| ensures ',' !in Headers[i] {}
    SplitJoin(Headers, ',');
  }

  lemma HeaderSingleLine()
    ensures '\n' !in HeaderLine()
  {
    forall i | 0 <= i < |Headers| ensures '\n' !in Headers[i] {}
    JoinAvoids(Headers, ",", '\n');
  }

  /** A character in neither the parts nor the separator is not in the joined text. */
  lemma {:induction false} JoinAvoids(parts: seq<string>, sep: string, c: char)
    requires c !in sep
    requires forall i :: 0 <= i < |parts| ==> c !in parts[i]
    ensures c !in Join(parts, sep)
  {
    if |parts| > 1 {
      JoinAvoids(parts[1..], sep, c);
    }
  }

  /** The document begins with the header line and a newline, and its first line is the
      header, whatever the leads hold. */
  lemma ExportStartsWithHeader(leads: seq<Lead>)
    requires |leads| > 0
    ensures Export(leads).value == HeaderLine() + "\n" + Join(Rows(leads), "\n")
    ensures Split(Export(leads).value, '\n')[0] == HeaderLine()
  {
    var parts := [HeaderLine()] + Rows(leads);
    assert parts[1..] == Rows(leads);
    HeaderLineText();
    SplitFirst(HeaderLine(), '\n', Join(Rows(leads), "\n"));
  }

  /** No cell of the lead holds a line break. */
  predicate SingleLine(l: Lead)
  {
    '\n' !in l.id && '\n' !in l.name && '\n' !in l.email && '\n' !in l.company &&
    '\n' !in l.lastContacted && '\n' !in l.notes
  }

  lemma RowSingleLine(l: Lead)
    requires SingleLine(l)
    ensures '\n' !in Row(l)
  {
    ReplaceCharKeeps(l.notes, ',', ' ', '\n');
    JoinAvoids(RowFields(l), ",", '\n');
  }

  /** When no cell holds a line break, the document's lines are exactly the header and then
      one row per lead in collection order: no blank line, no trailing newline. */
  lemma ExportLines(leads: seq<Lead>)
    requires |leads| > 0
    requires forall i :: 0 <= i < |leads| ==> SingleLine(leads[i])
    ensures Split(Export(leads).value, '\n') == [HeaderLine()] + Rows(leads)
    ensures |Split(Export(leads).value, '\n')| == |leads| + 1
  {
    var parts := [HeaderLine()] + Rows(leads);
    HeaderSingleLine();
    RowsSingleLine(leads);
    assert forall i :: 0 <= i < |parts| ==> '\n' !in parts[i] by {
      forall i | 0 <= i < |parts| ensures '\n' !in parts[i] {
        if i > 0 {
          assert parts[i] == Rows(leads)[i - 1];
        }
      }
    }
    SplitJoin(parts, '\n');
  }

  lemma RowsSingleLine(leads: seq<Lead>)
    requires forall i :: 0 <= i < |leads| ==> SingleLine(leads[i])
    ensures forall i :: 0 <= i < |leads| ==> '\n' !in Rows(leads)[i]
  {
    forall i | 0 <= i < |leads| ensures '\n' !in Rows(leads)[i] {
      RowSingleLine(leads[i]);
    }
  }

  /** When id, name, email, company and date hold no comma, a row splits back into the
      eight cells, in header order, with the notes sanitised. */
  lemma RowCells(l: Lead)
    requires ',' !in l.id && ',' !in l.name && ',' !in l.email && ',' !in l.company
    requires ',' !in l.lastContacted
    ensures Split(Row(l), ',') == RowFields(l)
    ensures |Split(Row(l), ',')| == |Headers|
  {
    var f := RowFields(l);
    assert ',' !in LeadStatusName(l.status);
    SplitJoin(f, ',');
  }

  /** Commas outside the notes pass through unquoted: a name holding one comma (and no other
      unsanitised cell holding any) makes the row split into nine pieces instead of eight,
      the name falling apart into two. */
  lemma CommaInNamePassesThrough(l: Lead, first: string, second: string)
    requires l.name == first + "," + second
    requires ',' !in first && ',' !in second
    requires ',' !in l.id && ',' !in l.email && ',' !in l.company && ',' !in l.lastContacted
    ensures Split(Row(l), ',') == [l.id, first, second, l.email, l.company,
                                   LeadStatusName(l.status), IntToString(l.value),
                                   l.lastContacted, SanitizeNotes(l.notes)]
    ensures |Split(Row(l), ',')| == |Headers| + 1
  {
    var tail := [l.email, l.company, LeadStatusName(l.status), IntToString(l.value),
                 l.lastContacted, SanitizeNotes(l.notes)];
    var pieces := [l.id, first, second] + tail;
    assert RowFields(l) == [l.id, first + "," + second] + tail;
    SplitCellJoin(l.id, first, second, tail, ",");
    assert ',' !in LeadStatusName(l.status) && ',' !in IntToString(l.value);
    forall i | 0 <= i < |pieces| ensures ',' !in pieces[i] {
      if i >= 3 {
        assert pieces[i] == tail[i - 3];
      }
    }
    SplitJoin(pieces, ',');
  }

  /** Joining with a cell that holds the separator equals joining with that cell split in
      two at the separator. */
  lemma SplitCellJoin(x: string, first: string, second: string, tail: seq<string>, sep: string)
    requires |tail| > 0
    ensures Join([x, first + sep + second] + tail, sep) == Join([x, first, second] + tail, sep)
  {
    JoinAppend([x, first + sep + second], tail, sep);
    JoinAppend([x, first, second], tail, sep);
    assert Join([x, first + sep + second], sep) == x + sep + (first + sep + second) by {
      assert [x, first + sep + second][1..] == [first + sep + second];
    }
    assert Join([x, first, second], sep) == x + sep + (first + sep + second) by {
      assert [x, first, second][1..] == [first, second];
      assert [first, second][1..] == [second];
    }
  }
}
