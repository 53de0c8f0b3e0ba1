/** The candidate CSV reader of the upload dialog: one candidate per data row of
    a comma-separated file whose fields may be wrapped in double quotes. */
module CandidateCsv {
  import opened Text
  import opened Options

  /** A candidate of the directory, as the reader and the generator build it. */
  datatype Candidate = Candidate(
    id: int,
    name: string,
    constituency: string,
    district: string,
    age: string,
    education: string,
    joinedYear: string,
    phone: string,
    email: string,
    bio: string)

  const DefaultJoinedYear: string := "2010"
  const DefaultPhone: string := "+91 98765 43210"
  const DefaultEmail: string := "candidate@naamtamilar.org"
  const DefaultBio: string := "தமிழ் மக்களின் உரிமைகளுக்காக குரல் கொடுத்து வரும் தீவிர சமூக ஆர்வலர்."

  /** Message shown when a file yields no candidate. */
  const NoValidRowsMessage: string := "CSV கோப்பில் செல்லுபடியாகும் தரவு இல்லை"

  // ---------------------------------------------------------------------------
  // Field splitting

  /** Reference definition of the quote-aware split, read from the front:
      a `"` flips the in-quotes flag and is dropped, a `,` outside quotes
      starts a new field, every other character belongs to the current field.
      The fields are not yet trimmed. */
  function RawFields(line: string, inQuotes: bool): (fields: seq<string>)
    ensures |fields| >= 1
  {
    if line == [] then [[]]
    else
      var rest := RawFields(line[1..], if line[0] == '"' then !inQuotes else inQuotes);
      if line[0] == '"' then rest
      else if line[0] == ',' && !inQuotes then [[]] + rest
      else [[line[0]] + rest[0]] + rest[1..]
  }

  /** The commas of `line` met while outside quotes. */
  function OutsideCommas(line: string, inQuotes: bool): nat {
    if line == [] then 0
    else if line[0] == '"' then OutsideCommas(line[1..], !inQuotes)
    else (if line[0] == ',' && !inQuotes then 1 else 0) + OutsideCommas(line[1..], inQuotes)
  }

  /** `line` with every double quote removed. */
  function DropQuotes(line: string): (r: string)
    ensures '"' !in r
  {
    if line == [] then []
    else if line[0] == '"' then DropQuotes(line[1..])
    else [line[0]] + DropQuotes(line[1..])
  }

  /** Every string of `xs`, trimmed. */
  function TrimAll(xs: seq<string>): (ys: seq<string>)
    ensures |ys| == |xs|
  {
    if xs == [] then [] else [Trim(xs[0])] + TrimAll(xs[1..])
  }

  lemma {:induction false} TrimAllAt(xs: seq<string>, k: nat)
    requires k < |xs|
    ensures TrimAll(xs)[k] == Trim(xs[k])
  {
    if k > 0 {
      TrimAllAt(xs[1..], k - 1);
    }
  }

  lemma {:induction false} TrimAllAppend(xs: seq<string>, x: string)
    ensures TrimAll(xs + [x]) == TrimAll(xs) + [Trim(x)]
  {
    if xs != [] {
      assert (xs + [x])[1..] == xs[1..] + [x];
      TrimAllAppend(xs[1..], x);
    }
  }

  /** The fields of one trimmed line, each trimmed. */
  function Fields(line: string): seq<string> {
    TrimAll(RawFields(line, false))
  }

  /** There is one field more than there are commas outside quotes. */
  lemma {:induction false} FieldCount(line: string, inQuotes: bool)
    ensures |RawFields(line, inQuotes)| == OutsideCommas(line, inQuotes) + 1
  {
    if line != [] {
      FieldCount(line[1..], if line[0] == '"' then !inQuotes else inQuotes);
    }
  }

  /** Joining the fields with commas gives back the line without its quotes:
      every character other than `"` is kept, and every comma is either kept in
      a field or is the separator between two fields. */
  lemma {:induction false} FieldsJoin(line: string, inQuotes: bool)
    ensures Join(RawFields(line, inQuotes), ",") == DropQuotes(line)
  {
    if line != [] {
      var q := if line[0] == '"' then !inQuotes else inQuotes;
      var rest := RawFields(line[1..], q);
      FieldsJoin(line[1..], q);
      if line[0] == '"' {
      } else if line[0] == ',' && !inQuotes {
        JoinPrependEmpty(rest, ",");
      } else {
        JoinPrependHead(line[0], rest, ",");
      }
    }
  }

  /** A double quote is never copied into a field. */
  lemma {:induction false} FieldsQuoteFree(line: string, inQuotes: bool)
    ensures forall k :: 0 <= k < |RawFields(line, inQuotes)| ==> '"' !in RawFields(line, inQuotes)[k]
  {
    if line != [] {
      FieldsQuoteFree(line[1..], if line[0] == '"' then !inQuotes else inQuotes);
    }
  }

  /** What the reader sees of a line: the number of fields, each field
      trimmed and free of double quotes. */
  lemma {:induction false} FieldsShape(line: string)
    ensures |Fields(line)| == OutsideCommas(line, false) + 1
    ensures forall k :: 0 <= k < |Fields(line)| ==>
      Trim(Fields(line)[k]) == Fields(line)[k] && '"' !in Fields(line)[k]
  {
    FieldCount(line, false);
    FieldsQuoteFree(line, false);
    var raw := RawFields(line, false);
    forall k | 0 <= k < |raw|
      ensures Trim(Fields(line)[k]) == Fields(line)[k] && '"' !in Fields(line)[k]
    {
      TrimAllAt(raw, k);
      TrimIdempotent(raw[k]);
      TrimSpec(raw[k]);
    }
  }

  /** The fields read so far, the field being read and the fields of the rest
      of the line, put together. */
  ghost function Stitch(done: seq<string>, current: string, rest: seq<string>): seq<string>
    requires |rest| >= 1
  {
    done + [current + rest[0]] + rest[1..]
  }

  /** One step of the reference split, read at position `j` of `line`. */
  lemma {:induction false} RawFieldsStep(line: string, j: nat, inQuotes: bool)
    requires j < |line|
    ensures var c := line[j];
      var rest := RawFields(line[j + 1..], if c == '"' then !inQuotes else inQuotes);
      RawFields(line[j..], inQuotes) ==
        if c == '"' then rest
        else if c == ',' && !inQuotes then [[]] + rest
        else [[c] + rest[0]] + rest[1..]
  {
    assert line[j..][1..] == line[j + 1..];
  }

  /** Closing the current field at a separator does not change the stitched
      whole. */
  lemma {:induction false} StitchSeparator(done: seq<string>, current: string, rest: seq<string>)
    requires |rest| >= 1
    ensures Stitch(done + [current], [], rest) == Stitch(done, current, [[]] + rest)
  {
    assert [] + rest[0] == rest[0];
    assert [rest[0]] + rest[1..] == rest;
    assert current + [] == current;
    assert ([[]] + rest)[1..] == rest;
  }

  /** Appending a character to the current field does not change the stitched
      whole. */
  lemma {:induction false} StitchChar(done: seq<string>, current: string, c: char, rest: seq<string>)
    requires |rest| >= 1
    ensures Stitch(done, current + [c], rest) == Stitch(done, current, [[c] + rest[0]] + rest[1..])
  {
    assert current + [c] + rest[0] == current + ([c] + rest[0]);
  }

  /** The inner loop of the reader: splits one line character by character. */
  method SplitFields(line: string) returns (fields: seq<string>)
    ensures fields == Fields(line)
  {
    fields := [];
    ghost var raw: seq<string> := [];
    var currentField := "";
    var insideQuotes := false;
    ghost var whole := RawFields(line, false);
    assert line[0..] == line;
    assert [] + whole[0] == whole[0];
    assert [whole[0]] + whole[1..] == whole;
    for j := 0 to |line|
      invariant fields == TrimAll(raw)
      invariant Stitch(raw, currentField, RawFields(line[j..], insideQuotes)) == whole
    {
      var c := line[j];
      RawFieldsStep(line, j, insideQuotes);
      ghost var rest := RawFields(line[j + 1..], if c == '"' then !insideQuotes else insideQuotes);
      if c == '"' {
        insideQuotes := !insideQuotes;
      } else if c == ',' && !insideQuotes {
        StitchSeparator(raw, currentField, rest);
        TrimAllAppend(raw, currentField);
        fields := fields + [Trim(currentField)];
        raw := raw + [currentField];
        currentField := "";
      } else {
        StitchChar(raw, currentField, c, rest);
        currentField := currentField + [c];
      }
    }
    assert line[|line|..] == [];
    assert currentField + [] == currentField;
    assert Stitch(raw, currentField, [[]]) == raw + [currentField];
    TrimAllAppend(raw, currentField);
    fields := fields + [Trim(currentField)];
    raw := raw + [currentField];
  }

  // ---------------------------------------------------------------------------
  // Rows to candidates

  /** `fields[k] || d`: the field when it is present and non-empty, the default
      otherwise. */
  function FieldOr(fields: seq<string>, k: nat, d: string): string {
    if k < |fields| && fields[k] != [] then fields[k] else d
  }

  /** The candidate built from the fields of the data row numbered `id`. */
  function FromFields(id: int, fields: seq<string>): (c: Candidate)
    requires |fields| >= 3
    ensures c.id == id
    ensures c.district == fields[0] && c.constituency == fields[1] && c.name == fields[2]
  {
    Candidate(
      id := id,
      district := FieldOr(fields, 0, ""),
      constituency := FieldOr(fields, 1, ""),
      name := FieldOr(fields, 2, ""),
      age := FieldOr(fields, 3, ""),
      education := FieldOr(fields, 4, ""),
      joinedYear := FieldOr(fields, 5, DefaultJoinedYear),
      phone := FieldOr(fields, 6, DefaultPhone),
      email := FieldOr(fields, 7, DefaultEmail),
      bio := FieldOr(fields, 8, DefaultBio))
  }

  /** Missing or empty optional fields take their defaults and present ones
      are kept, so joinedYear, phone, email and bio are never empty. */
  lemma {:induction false} FromFieldsDefaults(id: int, fields: seq<string>)
    requires |fields| >= 3
    ensures var c := FromFields(id, fields);
      && c.joinedYear != [] && c.phone != [] && c.email != [] && c.bio != []
      && c.age == (if |fields| > 3 then fields[3] else [])
      && c.education == (if |fields| > 4 then fields[4] else [])
      && (c.joinedYear == DefaultJoinedYear <== |fields| <= 5 || fields[5] == [])
      && (c.phone == DefaultPhone <== |fields| <= 6 || fields[6] == [])
      && (c.email == DefaultEmail <== |fields| <= 7 || fields[7] == [])
      && (c.bio == DefaultBio <== |fields| <= 8 || fields[8] == [])
      && (|fields| > 5 && fields[5] != [] ==> c.joinedYear == fields[5])
      && (|fields| > 6 && fields[6] != [] ==> c.phone == fields[6])
      && (|fields| > 7 && fields[7] != [] ==> c.email == fields[7])
      && (|fields| > 8 && fields[8] != [] ==> c.bio == fields[8])
  {
  }

  /** The non-blank lines of the file, in file order. */
  function NonBlankLines(text: string): seq<string> {
    KeepNonBlank(Split(text, '\n'))
  }

  function KeepNonBlank(lines: seq<string>): (kept: seq<string>)
    ensures |kept| <= |lines|
  {
    if lines == [] then []
    else if Trim(lines[0]) != [] then [lines[0]] + KeepNonBlank(lines[1..])
    else KeepNonBlank(lines[1..])
  }

  /** Exactly the lines that are not blank after trimming survive the filter,
      each as many times as it occurs in the input. */
  lemma {:induction false} KeepNonBlankExact(lines: seq<string>)
    ensures forall l :: l in KeepNonBlank(lines) ==> Trim(l) != []
    ensures forall l :: l in lines && Trim(l) != [] ==> l in KeepNonBlank(lines)
    ensures forall l ::
      multiset(KeepNonBlank(lines))[l] == if Trim(l) != [] then multiset(lines)[l] else 0
  {
    if lines != [] {
      KeepNonBlankExact(lines[1..]);
      assert lines == [lines[0]] + lines[1..];
    }
  }

  /** The filter keeps the input's order: filtering two pieces of a text one
      after the other gives the filtered text. With a one-line input, which
      the filter keeps or drops whole, this pins the result down line by
      line. */
  lemma {:induction false} KeepNonBlankAppend(a: seq<string>, b: seq<string>)
    ensures KeepNonBlank(a + b) == KeepNonBlank(a) + KeepNonBlank(b)
    ensures forall l :: KeepNonBlank([l]) == if Trim(l) != [] then [l] else []
  {
    forall l: string
      ensures KeepNonBlank([l]) == if Trim(l) != [] then [l] else []
    {
      assert [l][1..] == [];
    }
    if a == [] {
      assert a + b == b;
    } else {
      assert (a + b)[1..] == a[1..] + b;
      KeepNonBlankAppend(a[1..], b);
    }
  }

  /** The fields of each non-blank line, the line trimmed first. */
  function LineFields(lines: seq<string>): (lf: seq<seq<string>>)
    ensures |lf| == |lines|
  {
    if lines == [] then [] else [Fields(Trim(lines[0]))] + LineFields(lines[1..])
  }

  lemma {:induction false} LineFieldsAt(lines: seq<string>, i: nat)
    requires i < |lines|
    ensures LineFields(lines)[i] == Fields(Trim(lines[i]))
  {
    if i > 0 {
      LineFieldsAt(lines[1..], i - 1);
    }
  }

  /** Line `i` (after the header) has enough fields to yield a candidate. */
  predicate IsRow(lf: seq<seq<string>>, i: int) {
    1 <= i < |lf| && |lf[i]| >= 3
  }

  /** The candidates of the data rows among the first `n` lines. */
  function Rows(lf: seq<seq<string>>, n: nat): seq<Candidate>
    requires n <= |lf|
  {
    if n <= 1 then []
    else
      Rows(lf, n - 1) + (if IsRow(lf, n - 1) then [FromFields(n - 1, lf[n - 1])] else [])
  }

  /** The rows before `n` give at most `n - 1` candidates, in line order, one
      for each data row, and each built from its own line. */
  lemma {:induction false} RowsSpec(lf: seq<seq<string>>, n: nat)
    requires n <= |lf|
    ensures |Rows(lf, n)| <= if n == 0 then 0 else n - 1
    ensures forall k :: 0 <= k < |Rows(lf, n)| ==>
      IsRow(lf, Rows(lf, n)[k].id) && Rows(lf, n)[k].id < n
      && Rows(lf, n)[k] == FromFields(Rows(lf, n)[k].id, lf[Rows(lf, n)[k].id])
    ensures forall k, m :: 0 <= k < m < |Rows(lf, n)| ==> Rows(lf, n)[k].id < Rows(lf, n)[m].id
    ensures forall i :: IsRow(lf, i) && i < n ==>
      exists k :: 0 <= k < |Rows(lf, n)| && Rows(lf, n)[k].id == i
  {
    if n > 1 {
      RowsSpec(lf, n - 1);
      var prev := Rows(lf, n - 1);
      var cur := Rows(lf, n);
      assert cur[..|prev|] == prev;
      forall i | IsRow(lf, i) && i < n
        ensures exists k :: 0 <= k < |cur| && cur[k].id == i
      {
        if i < n - 1 {
          var k :| 0 <= k < |prev| && prev[k].id == i;
          assert cur[k] == prev[k];
        } else {
          assert cur[|prev|].id == i;
        }
      }
    }
  }

  lemma {:induction false} RowsStep(lf: seq<seq<string>>, i: nat)
    requires 1 <= i < |lf|
    ensures Rows(lf, i + 1) == Rows(lf, i) + if |lf[i]| >= 3 then [FromFields(i, lf[i])] else []
  {
  }

  /** No candidate comes out exactly when no line is a data row. */
  lemma {:induction false} RowsEmpty(lf: seq<seq<string>>)
    ensures Rows(lf, |lf|) == [] <==> forall i :: !IsRow(lf, i)
  {
    RowsSpec(lf, |lf|);
    var rows := Rows(lf, |lf|);
    if rows != [] {
      assert IsRow(lf, rows[0].id);
    }
  }

  /** `parseCSV`: the header (the first non-blank line) is skipped; every later
      non-blank line with at least three fields becomes a candidate whose id is
      the line's index among the non-blank lines, built from that line's
      fields. */
  method ParseCsv(text: string) returns (candidates: seq<Candidate>)
    ensures var lf := LineFields(NonBlankLines(text));
      candidates == Rows(lf, |lf|)
  {
    var lines := NonBlankLines(text);
    ghost var lf := LineFields(lines);
    candidates := [];
    var i := 1;
    while i < |lines|
      invariant 1 <= i && (|lines| >= 1 ==> i <= |lines|)
      invariant candidates == Rows(lf, if |lines| == 0 then 0 else i)
    {
      var line := Trim(lines[i]);
      LineFieldsAt(lines, i);
      RowsStep(lf, i);
      if line == [] {
        assert |lf[i]| == 1;
        i := i + 1;
        continue;
      }
      var fields := SplitFields(line);
      if |fields| >= 3 {
        candidates := candidates + [FromFields(i, fields)];
      }
      i := i + 1;
    }
  }

  /** The status line of the upload dialog. */
  datatype UploadStatus = Success(count: nat) | Failure(message: string)

  /** The message shown when reading the file fails with a value that is not
      an `Error`. */
  const UploadErrorMessage: string := "கோப்பை பதிவேற்றுவதில் பிழை"

  /** What choosing a file gives the handler: no file at all, a read that
      rejected (with the `Error`'s message, or `None` when the rejection is
      some other value), or the file's text. */
  datatype FileChoice = NoFile | ReadFailed(error: Option<string>) | ReadText(text: string)

  /** `handleFileUpload`: when no file was chosen nothing happens. A read
      that fails, or a file without any candidate, is refused with an error
      status and nothing is imported; otherwise the candidates are handed to
      the import callback and their number is reported. */
  method HandleFileUpload(file: FileChoice) returns (status: Option<UploadStatus>, imported: Option<seq<Candidate>>)
    ensures file.NoFile? <==> status.None?
    ensures imported.Some? <==> status.Some? && status.value.Success?
    ensures file.ReadFailed? ==>
      status == Some(Failure(if file.error.Some? then file.error.value else UploadErrorMessage))
    ensures file.ReadText? ==>
      (status.value.Failure? <==> forall i :: !IsRow(LineFields(NonBlankLines(file.text)), i))
    ensures file.ReadText? && status.value.Failure? ==> status.value.message == NoValidRowsMessage
    ensures status.Some? && status.value.Success? ==>
      file.ReadText? && |imported.value| == status.value.count > 0
      && imported.value == Rows(LineFields(NonBlankLines(file.text)), |NonBlankLines(file.text)|)
  {
    match file {
      case NoFile =>
        return None, None;
      case ReadFailed(error) =>
        var message := if error.Some? then error.value else UploadErrorMessage;
        return Some(Failure(message)), None;
      case ReadText(text) =>
        var candidates := ParseCsv(text);
        ghost var lf := LineFields(NonBlankLines(text));
        RowsEmpty(lf);
        if |candidates| == 0 {
          status, imported := Some(Failure(NoValidRowsMessage)), None;
        } else {
          status, imported := Some(Success(|candidates|)), Some(candidates);
        }
    }
  }
}
