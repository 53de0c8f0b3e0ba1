/** The registrations export: reading the stored registration documents and
    writing them as a CSV file with a byte-order mark, one line per
    registration after a fixed header line. Cells are quoted as in section 2,
    rule 7 of RFC 4180. */
module RegistrationExport {
  import opened Text
  import opened Options

  /** A stored registration document as the database returns it; an absent
      field is `None`. The timestamp is kept as the text it is shown as. */
  datatype Document = Document(
    name: Option<string>,
    email: Option<string>,
    phone: Option<string>,
    district: Option<string>,
    districtEnglish: Option<string>,
    memberId: Option<string>,
    registeredAt: Option<string>)

  /** A registration with every text field present. */
  datatype Registration = Registration(
    name: string,
    email: string,
    phone: string,
    district: string,
    districtEnglish: string,
    memberId: string,
    registeredAt: Option<string>)

  /** `value || ''`: an absent or empty field reads as the empty string. */
  function OrEmpty(v: Option<string>): string {
    if v.Some? then v.value else []
  }

  function FromDocument(d: Document): Registration {
    Registration(OrEmpty(d.name), OrEmpty(d.email), OrEmpty(d.phone), OrEmpty(d.district),
      OrEmpty(d.districtEnglish), OrEmpty(d.memberId), d.registeredAt)
  }

  /** The registrations the fetch loop builds, as a function of the documents. */
  function Fetched(docs: seq<Document>): (registrations: seq<Registration>)
    ensures |registrations| == |docs|
  {
    if docs == [] then [] else Fetched(docs[..|docs| - 1]) + [FromDocument(docs[|docs| - 1])]
  }

  /** Registration k is made from document k alone: a present field is
      copied, an absent one becomes empty, and the timestamp is carried over
      as it is. */
  lemma {:induction false} FetchedSpec(docs: seq<Document>)
    ensures forall k :: 0 <= k < |docs| ==>
      var r := Fetched(docs)[k];
      var d := docs[k];
      && (d.name.Some? ==> r.name == d.name.value) && (d.name.None? ==> r.name == [])
      && (d.email.Some? ==> r.email == d.email.value) && (d.email.None? ==> r.email == [])
      && (d.phone.Some? ==> r.phone == d.phone.value) && (d.phone.None? ==> r.phone == [])
      && (d.district.Some? ==> r.district == d.district.value) && (d.district.None? ==> r.district == [])
      && (d.districtEnglish.Some? ==> r.districtEnglish == d.districtEnglish.value)
      && (d.districtEnglish.None? ==> r.districtEnglish == [])
      && (d.memberId.Some? ==> r.memberId == d.memberId.value) && (d.memberId.None? ==> r.memberId == [])
      && r.registeredAt == d.registeredAt
  {
    if docs != [] {
      var init := docs[..|docs| - 1];
      FetchedSpec(init);
      assert forall k :: 0 <= k < |init| ==> docs[k] == init[k];
    }
  }

  /** The fetch loop: one registration per document, pushed in the order the
      documents arrive. */
  method FetchRegistrations(docs: seq<Document>) returns (registrations: seq<Registration>)
    ensures registrations == Fetched(docs)
  {
    registrations := [];
    for k := 0 to |docs|
      invariant registrations == Fetched(docs[..k])
    {
      assert docs[..k + 1][..k] == docs[..k];
      registrations := registrations + [FromDocument(docs[k])];
    }
    assert docs[..|docs|] == docs;
  }

  // ---------------------------------------------------------------------------
  // Cells

  /** `s.replace(/"/g, '""')`: every double quote doubled. */
  function Escape(s: string): string {
    if s == [] then []
    else if s[0] == '"' then ['"', '"'] + Escape(s[1..])
    else [s[0]] + Escape(s[1..])
  }

  /** A text cell: the escaped text between double quotes. */
  function Quote(s: string): string {
    ['"'] + Escape(s) + ['"']
  }

  /** Reading an escaped text back: `""` stands for one `"`, and a lone `"`
      is malformed. */
  function Unescape(t: string): Option<string> {
    if t == [] then Some([])
    else if t[0] != '"' then
      match Unescape(t[1..])
      case Some(rest) => Some([t[0]] + rest)
      case None => None
    else if |t| >= 2 && t[1] == '"' then
      match Unescape(t[2..])
      case Some(rest) => Some(['"'] + rest)
      case None => None
    else None
  }

  /** Reading a quoted cell back: strip the outer quotes, then unescape. */
  function Unquote(cell: string): Option<string> {
    if |cell| >= 2 && cell[0] == '"' && cell[|cell| - 1] == '"' then Unescape(cell[1..|cell| - 1])
    else None
  }

  lemma {:induction false} UnescapeEscape(s: string)
    ensures Unescape(Escape(s)) == Some(s)
  {
    if s != [] {
      UnescapeEscape(s[1..]);
      var e := Escape(s);
      if s[0] == '"' {
        assert e[2..] == Escape(s[1..]);
      } else {
        assert e[1..] == Escape(s[1..]);
      }
      assert [s[0]] + s[1..] == s;
    }
  }

  /** Quoting is undone by stripping the outer quotes and collapsing `""`:
      every text cell reads back as the text it was made from. */
  lemma {:induction false} QuoteRoundTrip(s: string)
    ensures Unquote(Quote(s)) == Some(s)
  {
    var q := Quote(s);
    assert q[1..|q| - 1] == Escape(s);
    UnescapeEscape(s);
  }

  /** Escaping adds one character per double quote and no line break. */
  lemma {:induction false} EscapeShape(s: string)
    ensures |Escape(s)| == |s| + Count(s, '"')
    ensures '\n' !in s ==> '\n' !in Escape(s)
  {
    if s != [] {
      EscapeShape(s[1..]);
    }
  }

  /** The cell of the timestamp column. */
  function TimeCell(at: Option<string>): string {
    if at.Some? then at.value else "N/A"
  }

  /** The seven cells of one data line, in header order: the six text
      fields quoted, then the timestamp (`N/A` when absent). */
  function Cells(r: Registration): (cells: seq<string>)
    ensures |cells| == 7
  {
    [Quote(r.name), Quote(r.email), Quote(r.phone), Quote(r.district), Quote(r.districtEnglish),
     Quote(r.memberId), TimeCell(r.registeredAt)]
  }

  /** Each text cell reads back as the field it was made from, and the last
      cell is the timestamp or `N/A`. */
  lemma {:induction false} CellsSpec(r: Registration)
    ensures var cells := Cells(r);
      && Unquote(cells[0]) == Some(r.name) && Unquote(cells[1]) == Some(r.email)
      && Unquote(cells[2]) == Some(r.phone) && Unquote(cells[3]) == Some(r.district)
      && Unquote(cells[4]) == Some(r.districtEnglish) && Unquote(cells[5]) == Some(r.memberId)
      && (r.registeredAt.None? ==> cells[6] == "N/A")
      && (r.registeredAt.Some? ==> cells[6] == r.registeredAt.value)
  {
    var cells := Cells(r);
    assert cells[0] == Quote(r.name) && cells[1] == Quote(r.email) && cells[2] == Quote(r.phone);
    assert cells[3] == Quote(r.district) && cells[4] == Quote(r.districtEnglish) && cells[5] == Quote(r.memberId);
    QuoteRoundTrip(r.name);
    QuoteRoundTrip(r.email);
    QuoteRoundTrip(r.phone);
    QuoteRoundTrip(r.district);
    QuoteRoundTrip(r.districtEnglish);
    QuoteRoundTrip(r.memberId);
  }

  function DataLine(r: Registration): string {
    Join(Cells(r), ",")
  }

  const Headers: seq<string> :=
    ["Name", "Email", "Phone", "District (Tamil)", "District (English)", "Member ID", "Registered At"]

  function HeaderLine(): string {
    Join(Headers, ",")
  }

  /** The header line has the seven column names as its comma-separated
      fields, and no line break. */
  lemma {:induction false} HeaderColumns()
    ensures Split(HeaderLine(), ',') == Headers
    ensures '\n' !in HeaderLine()
  {
    var h := Headers;
    forall k | 0 <= k < |h| ensures ',' !in h[k] && '\n' !in h[k] {
      assert h[k] in {"Name", "Email", "Phone", "District (Tamil)", "District (English)", "Member ID", "Registered At"};
    }
    SplitJoin(h, ',');
    JoinFree(h, ",", '\n');
  }

  /** One line per registration, in order. */
  function DataLines(registrations: seq<Registration>): (lines: seq<string>)
    ensures |lines| == |registrations|
  {
    if registrations == [] then []
    else DataLines(registrations[..|registrations| - 1]) + [DataLine(registrations[|registrations| - 1])]
  }

  lemma {:induction false} DataLinesAt(registrations: seq<Registration>)
    ensures forall k :: 0 <= k < |registrations| ==> DataLines(registrations)[k] == DataLine(registrations[k])
  {
    if registrations != [] {
      var init := registrations[..|registrations| - 1];
      DataLinesAt(init);
      assert forall k :: 0 <= k < |init| ==> registrations[k] == init[k];
    }
  }

  lemma {:induction false} DataLinesSnoc(registrations: seq<Registration>, k: nat)
    requires k < |registrations|
    ensures DataLines(registrations[..k + 1]) == DataLines(registrations[..k]) + [DataLine(registrations[k])]
  {
    assert registrations[..k + 1][..k] == registrations[..k];
  }

  /** The lines of the CSV text: the header, then one line per registration. */
  function CsvLines(registrations: seq<Registration>): seq<string> {
    [HeaderLine()] + DataLines(registrations)
  }

  /** No text field and no timestamp holds a line break. */
  predicate SingleLine(r: Registration) {
    '\n' !in r.name && '\n' !in r.email && '\n' !in r.phone && '\n' !in r.district
    && '\n' !in r.districtEnglish && '\n' !in r.memberId
    && (r.registeredAt.Some? ==> '\n' !in r.registeredAt.value)
  }

  /** When no field holds a line break, splitting the CSV text at line breaks
      gives back exactly the header line and the data lines, so the text has
      1 + n lines. */
  lemma {:induction false} CsvLinesSplit(registrations: seq<Registration>)
    requires forall k :: 0 <= k < |registrations| ==> SingleLine(registrations[k])
    ensures Split(Join(CsvLines(registrations), "\n"), '\n') == CsvLines(registrations)
    ensures |Split(Join(CsvLines(registrations), "\n"), '\n')| == 1 + |registrations|
  {
    HeaderColumns();
    DataLinesSingle(registrations);
    SplitHeaded(HeaderLine(), DataLines(registrations));
  }

  /** A header followed by lines, none with a line break, joined by line
      breaks, splits back into the header and the lines. */
  lemma {:induction false} SplitHeaded(header: string, lines: seq<string>)
    requires '\n' !in header
    requires forall k :: 0 <= k < |lines| ==> '\n' !in lines[k]
    ensures Split(Join([header] + lines, "\n"), '\n') == [header] + lines
  {
    var all := [header] + lines;
    assert forall k :: 1 <= k < |all| ==> all[k] == lines[k - 1];
    SplitJoin(all, '\n');
  }

  /** Registrations without line breaks give data lines without one. */
  lemma {:induction false} DataLinesSingle(registrations: seq<Registration>)
    requires forall k :: 0 <= k < |registrations| ==> SingleLine(registrations[k])
    ensures forall k :: 0 <= k < |DataLines(registrations)| ==> '\n' !in DataLines(registrations)[k]
  {
    if registrations != [] {
      var n := |registrations| - 1;
      DataLinesSingle(registrations[..n]);
      DataLineSingle(registrations[n]);
    }
  }

  /** A registration without line breaks gives a data line without one. */
  lemma {:induction false} DataLineSingle(r: Registration)
    requires SingleLine(r)
    ensures '\n' !in DataLine(r)
  {
    var cells := Cells(r);
    EscapeShape(r.name);
    EscapeShape(r.email);
    EscapeShape(r.phone);
    EscapeShape(r.district);
    EscapeShape(r.districtEnglish);
    EscapeShape(r.memberId);
    assert forall m :: 0 <= m < 7 ==> '\n' !in cells[m];
    JoinFree(cells, ",", '\n');
  }

  /** The row assembly of `exportToCSV`: the header line, then each
      registration's line pushed in order, joined with line breaks. */
  method BuildCsv(registrations: seq<Registration>) returns (csv: string)
    ensures csv == Join(CsvLines(registrations), "\n")
  {
    var csvRows := [HeaderLine()];
    assert registrations[..0] == [];
    for k := 0 to |registrations|
      invariant csvRows == CsvLines(registrations[..k])
    {
      CsvLinesSnoc(registrations, k);
      csvRows := csvRows + [DataLine(registrations[k])];
    }
    assert registrations[..|registrations|] == registrations;
    csv := Join(csvRows, "\n");
  }

  /** One more registration adds its line at the end of the CSV lines. */
  lemma {:induction false} CsvLinesSnoc(registrations: seq<Registration>, k: nat)
    requires k < |registrations|
    ensures CsvLines(registrations[..k + 1]) == CsvLines(registrations[..k]) + [DataLine(registrations[k])]
  {
    DataLinesSnoc(registrations, k);
  }

  /** What the user is told at the end of an export. */
  datatype ExportOutcome =
    | NoRegistrations               // nothing stored: no file
    | ExportFailed                  // the fetch failed: no file
    | Downloaded(file: string, count: nat)

  const ByteOrderMark: char := '\U{FEFF}'

  /** `exportToCSV` given what the fetch returned (`None` when it failed). */
  method ExportToCsv(fetched: Option<seq<Document>>) returns (outcome: ExportOutcome)
    ensures fetched.None? ==> outcome == ExportFailed
    ensures fetched.Some? && fetched.value == [] ==> outcome == NoRegistrations
    ensures fetched.Some? && fetched.value != [] ==>
      && outcome.Downloaded?
      && outcome.count == |fetched.value|
      && |outcome.file| >= 1 && outcome.file[0] == ByteOrderMark
      && outcome.file[1..] == Join(CsvLines(Fetched(fetched.value)), "\n")
  {
    if fetched.None? {
      return ExportFailed;
    }
    var registrations := FetchRegistrations(fetched.value);
    if |registrations| == 0 {
      return NoRegistrations;
    }
    var csv := BuildCsv(registrations);
    outcome := Downloaded([ByteOrderMark] + csv, |registrations|);
    assert outcome.file[1..] == csv;
  }
}
