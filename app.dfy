/** The dashboard's data handling: live ingestion of the recon engine's JSON
    lines into the session, the technology choice and target selection of the
    triage tab, and the parse of the vulnerability scanner's output into
    findings. Widgets, threads and the output queue are not modelled: the
    engine's stdout arrives as a sequence of lines in queue order. */
module App {
  import opened Wrappers
  import opened Json
  import opened Text
  import opened TriageLogic

  // =====================================================================
  // Live recon ingestion
  // =====================================================================

  /** What the polling loop does with one line taken from the queue. */
  datatype LineKind =
    | Skip                  // empty, or not decodable
    | Append(record: Object)  // a data record
    | Halt(record: Object)    // a record carrying "error": a control signal

  function ClassifyLine(line: string, decode: string -> Option<Object>): (k: LineKind)
    ensures k.Append? ==> "error" !in k.record && decode(line) == Some(k.record)
    ensures k.Halt? ==> "error" in k.record && decode(line) == Some(k.record)
    ensures k.Skip? <==> line == "" || decode(line).None?
  {
    if line == "" then Skip
    else
      match decode(line)
      case None => Skip
      case Some(data) => if "error" in data then Halt(data) else Append(data)
  }

  /** The outcome of ingesting a stream: the appended records, and the error
      record that stopped ingestion, if any. */
  datatype Ingestion = Ingestion(records: seq<Object>, halt: Option<Object>)

  /** Ingestion as a fold over the lines in arrival order. */
  function Ingest(lines: seq<string>, decode: string -> Option<Object>): (r: Ingestion)
    ensures |r.records| <= |lines|
    ensures forall k :: 0 <= k < |r.records| ==> "error" !in r.records[k]
    ensures r.halt.Some? ==> "error" in r.halt.value
  {
    if lines == [] then Ingestion([], None)
    else
      match ClassifyLine(lines[0], decode)
      case Skip => Ingest(lines[1..], decode)
      case Halt(o) => Ingestion([], Some(o))
      case Append(o) =>
        var rest := Ingest(lines[1..], decode);
        Ingestion([o] + rest.records, rest.halt)
  }

  /** Ingesting a stream in two parts: the second part only counts when the
      first did not stop. */
  lemma {:induction false} IngestAppend(a: seq<string>, b: seq<string>, decode: string -> Option<Object>)
    ensures Ingest(a + b, decode) ==
      if Ingest(a, decode).halt.Some? then Ingest(a, decode)
      else Ingestion(Ingest(a, decode).records + Ingest(b, decode).records, Ingest(b, decode).halt)
  {
    if a == [] {
      assert a + b == b;
    } else {
      assert (a + b)[0] == a[0];
      assert (a + b)[1..] == a[1..] + b;
      IngestAppend(a[1..], b, decode);
    }
  }

  /** One more line after a stream that has not stopped: an error record
      stops it with the records so far, any other line adds its record, if
      it has one. */
  lemma {:induction false} IngestSnoc(a: seq<string>, line: string, decode: string -> Option<Object>)
    requires Ingest(a, decode).halt.None?
    ensures Ingest(a + [line], decode) ==
              match ClassifyLine(line, decode)
              case Skip => Ingest(a, decode)
              case Halt(o) => Ingestion(Ingest(a, decode).records, Some(o))
              case Append(o) => Ingestion(Ingest(a, decode).records + [o], None)
  {
    IngestAppend(a, [line], decode);
    assert [line][1..] == [];
    assert Ingest([line][1..], decode) == Ingestion([], None);
  }

  /** The step of the session's loop: line i after a prefix that has not
      stopped, and, when that line is an error record, the whole stream. */
  lemma {:induction false} IngestStep(lines: seq<string>, i: nat, decode: string -> Option<Object>)
    requires i < |lines| && Ingest(lines[..i], decode).halt.None?
    ensures var k := ClassifyLine(lines[i], decode);
            var pre := Ingest(lines[..i], decode).records;
            (k.Halt? ==> Ingest(lines, decode) == Ingestion(pre, Some(k.record))) &&
            (k.Append? ==> Ingest(lines[..i + 1], decode) == Ingestion(pre + [k.record], None)) &&
            (k.Skip? ==> Ingest(lines[..i + 1], decode) == Ingestion(pre, None))
  {
    assert lines[..i + 1] == lines[..i] + [lines[i]];
    IngestSnoc(lines[..i], lines[i], decode);
    if ClassifyLine(lines[i], decode).Halt? {
      IngestIgnoresLaterLines(lines[..i + 1], lines[i + 1..], decode);
      assert lines[..i + 1] + lines[i + 1..] == lines;
    }
  }

  /** While a prefix of the stream has not stopped, its first record is the
      whole stream's first record. */
  lemma {:induction false} IngestKeepsFirst(lines: seq<string>, i: nat, decode: string -> Option<Object>)
    requires i <= |lines| && Ingest(lines[..i], decode).halt.None? && Ingest(lines[..i], decode).records != []
    ensures Ingest(lines, decode).records != []
    ensures Ingest(lines, decode).records[0] == Ingest(lines[..i], decode).records[0]
  {
    IngestAppend(lines[..i], lines[i..], decode);
    assert lines[..i] + lines[i..] == lines;
  }

  /** Once a stream has stopped, later lines change nothing. */
  lemma IngestIgnoresLaterLines(a: seq<string>, more: seq<string>, decode: string -> Option<Object>)
    requires Ingest(a, decode).halt.Some?
    ensures Ingest(a + more, decode) == Ingest(a, decode)
  {
    IngestAppend(a, more, decode);
  }

  /** The position of the first line whose record carries "error", or the
      length of the stream when there is none. */
  function HaltIndex(lines: seq<string>, decode: string -> Option<Object>): (k: nat)
    ensures k <= |lines|
    ensures forall j :: 0 <= j < k ==> !ClassifyLine(lines[j], decode).Halt?
    ensures k < |lines| ==> ClassifyLine(lines[k], decode).Halt?
  {
    if lines == [] then 0
    else if ClassifyLine(lines[0], decode).Halt? then 0
    else
      var k := HaltIndex(lines[1..], decode);
      assert forall j :: 1 <= j < k + 1 ==> lines[j] == lines[1..][j - 1];
      k + 1
  }

  /** Every decodable record without "error", in order, ignoring stops. */
  function Accepted(lines: seq<string>, decode: string -> Option<Object>): seq<Object>
  {
    if lines == [] then []
    else
      match ClassifyLine(lines[0], decode)
      case Append(o) => [o] + Accepted(lines[1..], decode)
      case _ => Accepted(lines[1..], decode)
  }

  /** Ingestion keeps exactly the accepted records before the first error
      record, each once and in arrival order, and reports that error record;
      without an error record it keeps them all and reports nothing. */
  lemma {:induction false} IngestStopsAtFirstError(lines: seq<string>, decode: string -> Option<Object>)
    ensures var k := HaltIndex(lines, decode);
            Ingest(lines, decode).records == Accepted(lines[..k], decode) &&
            (Ingest(lines, decode).halt.Some? <==> k < |lines|) &&
            (k < |lines| ==> Ingest(lines, decode).halt == Some(ClassifyLine(lines[k], decode).record))
  {
    if lines != [] {
      IngestStopsAtFirstError(lines[1..], decode);
      var k := HaltIndex(lines, decode);
      if !ClassifyLine(lines[0], decode).Halt? {
        assert k == HaltIndex(lines[1..], decode) + 1;
        assert lines[..k][1..] == lines[1..][..k - 1];
        assert lines[..k][0] == lines[0];
        if k < |lines| {
          assert lines[k] == lines[1..][k - 1];
        }
      }
    }
  }

  /** A run of the engine: a stream of lines with two data records and a
      malformed line in between yields exactly the two records and no error. */
  lemma ScenarioMalformedLineSkipped(a: string, bad: string, b: string, decode: string -> Option<Object>,
                                     ra: Object, rb: Object)
    requires a != "" && b != ""
    requires decode(a) == Some(ra) && "error" !in ra
    requires decode(b) == Some(rb) && "error" !in rb
    requires decode(bad) == None
    ensures Ingest([a, bad, b], decode) == Ingestion([ra, rb], None)
  {
    assert ClassifyLine(b, decode) == Append(rb);
    assert Ingest([b], decode) == Ingestion([rb], None) by {
      assert [b][1..] == [];
    }
    assert Ingest([bad, b], decode) == Ingestion([rb], None) by {
      assert ClassifyLine(bad, decode) == Skip;
      assert [bad, b][1..] == [b];
    }
    assert ClassifyLine(a, decode) == Append(ra);
    assert [a, bad, b][1..] == [bad, b];
  }

  /** An error record as the first line stops ingestion with no records,
      whatever follows. */
  lemma ScenarioErrorFirst(first: string, rest: seq<string>, decode: string -> Option<Object>, err: Object)
    requires first != "" && decode(first) == Some(err) && "error" in err
    ensures Ingest([first] + rest, decode) == Ingestion([], Some(err))
  {
    assert ([first] + rest)[0] == first;
  }

  /** The status line of the live-recon tab. */
  datatype ReconStatus =
    | Awaiting                                // before any run
    | Launching                               // the launch notice, still shown
    | DomainError(error: Value, message: Value)
    | Crashed(detail: string)                 // an exception ended the run
    | Completed

  /** The status an error record shows: its "error" and its "message",
      which defaults to the empty string. */
  function HaltStatus(halt: Option<Object>): (s: ReconStatus)
    ensures halt.None? <==> s == Launching
    ensures halt.Some? ==> s.DomainError? && s.error == Get(halt.value, "error", Null)
    ensures halt.Some? && "message" in halt.value ==> s.message == halt.value["message"]
    ensures halt.Some? && "message" !in halt.value ==> s == DomainError(Get(halt.value, "error", Null), Str(""))
  {
    match halt
    case None => Launching
    case Some(o) => DomainError(Get(o, "error", Null), Get(o, "message", Str("")))
  }

  /** The final status: a zero exit code shows success (overwriting an error
      status); otherwise the stop, if any, stays on screen. */
  function FinalStatus(halt: Option<Object>, exitCode: Option<int>): (s: ReconStatus)
    ensures exitCode == Some(0) <==> s == Completed
    ensures exitCode != Some(0) ==> s == HaltStatus(halt)
  {
    if exitCode == Some(0) then Completed else HaltStatus(halt)
  }

  /** The live table is refreshed after every line that does not stop the
      loop, and reading its status_code column raises KeyError while no
      record carries that key. Records only accumulate, so this happens
      exactly when the first record appended has no "status_code". */
  predicate FirstRecordLacksStatus(r: Ingestion)
  {
    r.records != [] && "status_code" !in r.records[0]
  }

  /** The text of that KeyError, as the error status shows it. */
  const StatusCodeKeyError: string := "'status_code'"

  /** What a run leaves in recon_data: the ingested records, or only the
      first one when refreshing the table after it raised. */
  function SessionRecords(lines: seq<string>, decode: string -> Option<Object>): (records: seq<Object>)
    ensures |records| <= |Ingest(lines, decode).records|
    ensures records == Ingest(lines, decode).records[..|records|]
    ensures records == Ingest(lines, decode).records <==> !FirstRecordLacksStatus(Ingest(lines, decode)) || |Ingest(lines, decode).records| == 1
    ensures FirstRecordLacksStatus(Ingest(lines, decode)) ==> |records| == 1
  {
    var full := Ingest(lines, decode);
    if FirstRecordLacksStatus(full) then [full.records[0]] else full.records
  }

  /** What the status line shows after a run: the KeyError when the table
      refresh raised (the exit code is then never looked at); otherwise the
      final status of the stop and the exit code. */
  function RunStatus(lines: seq<string>, decode: string -> Option<Object>, exitCode: Option<int>): (s: ReconStatus)
    ensures s.Crashed? <==> FirstRecordLacksStatus(Ingest(lines, decode))
    ensures s.Crashed? ==> s.detail == StatusCodeKeyError
    ensures !s.Crashed? ==> s == FinalStatus(Ingest(lines, decode).halt, exitCode)
  {
    var full := Ingest(lines, decode);
    if FirstRecordLacksStatus(full) then Crashed(StatusCodeKeyError) else FinalStatus(full.halt, exitCode)
  }

  // =====================================================================
  // Vulnerability scanner output
  // =====================================================================

  /** One normalised finding; every field is a JSON value because missing
      keys become None in Python. */
  datatype Finding = Finding(
    template: Value,
    templateId: Value,
    severity: Value,
    host: Value,
    matchedAt: Value,
    timestamp: Value)

  /** The finding for one decoded scanner record. None where Python raises:
      an "info" value that is not an object has no get method. */
  function NormalizeFinding(v: Object): (f: Option<Finding>)
    ensures f.None? <==> "info" in v && !v["info"].Obj?
  {
    match Get(v, "info", Obj(map[]))
    case Obj(info) =>
      Some(Finding(
        Get(info, "name", Str("Unknown")),
        Get(v, "template-id", Null),
        Get(info, "severity", Str("info")),
        Get(v, "host", Null),
        Get(v, "matched-at", Str("")),
        Get(v, "timestamp", Null)))
    case _ => None
  }

  /** The defaults: name "Unknown", severity "info", matched-at "", and None
      for the template id, host and timestamp; present values are copied. */
  lemma FindingDefaults(v: Object)
    requires "info" !in v || v["info"].Obj?
    ensures var f := NormalizeFinding(v).value;
            var info := if "info" in v then v["info"].fields else map[];
            && (f.template == if "name" in info then info["name"] else Str("Unknown"))
            && (f.severity == if "severity" in info then info["severity"] else Str("info"))
            && (f.matchedAt == if "matched-at" in v then v["matched-at"] else Str(""))
            && (f.templateId == if "template-id" in v then v["template-id"] else Null)
            && (f.host == if "host" in v then v["host"] else Null)
            && (f.timestamp == if "timestamp" in v then v["timestamp"] else Null)
  {
  }

  /** A record with none of the keys gives the all-default finding. */
  lemma EmptyRecordFinding()
    ensures NormalizeFinding(map[]) == Some(Finding(Str("Unknown"), Null, Str("info"), Null, Str(""), Null))
  {
  }

  /** One non-blank output line: None when it does not decode or does not
      normalise, both of which raise in the source. */
  function ParseLine(line: string, decode: string -> Option<Object>): (r: Option<Finding>)
    ensures r.None? <==> decode(line).None? || ("info" in decode(line).value && !decode(line).value["info"].Obj?)
    ensures r.Some? ==> r == NormalizeFinding(decode(line).value)
  {
    match decode(line)
    case None => None
    case Some(v) => NormalizeFinding(v)
  }

  /** The findings appended and whether parsing was cut short. */
  datatype NucleiParse = NucleiParse(findings: seq<Finding>, aborted: bool)

  /** The parse loop as a fold: blank lines are skipped, the first line that
      fails aborts the rest. */
  function ParseFindings(lines: seq<string>, decode: string -> Option<Object>): (p: NucleiParse)
    ensures |p.findings| <= |lines|
  {
    if lines == [] then NucleiParse([], false)
    else if lines[0] == "" then ParseFindings(lines[1..], decode)
    else
      match ParseLine(lines[0], decode)
      case None => NucleiParse([], true)
      case Some(f) =>
        var rest := ParseFindings(lines[1..], decode);
        NucleiParse([f] + rest.findings, rest.aborted)
  }

  /** Parsing in two parts: the second part only counts when the first did
      not abort. */
  lemma {:induction false} ParseAppend(a: seq<string>, b: seq<string>, decode: string -> Option<Object>)
    ensures ParseFindings(a + b, decode) ==
      if ParseFindings(a, decode).aborted then ParseFindings(a, decode)
      else NucleiParse(ParseFindings(a, decode).findings + ParseFindings(b, decode).findings,
                       ParseFindings(b, decode).aborted)
  {
    if a == [] {
      assert a + b == b;
    } else {
      assert (a + b)[0] == a[0];
      assert (a + b)[1..] == a[1..] + b;
      ParseAppend(a[1..], b, decode);
    }
  }

  /** The non-blank lines, in order. */
  function NonBlank(lines: seq<string>): seq<string>
  {
    if lines == [] then []
    else if lines[0] == "" then NonBlank(lines[1..])
    else [lines[0]] + NonBlank(lines[1..])
  }

  /** When every non-blank line parses, there is one finding per non-blank
      line, in order, and nothing is aborted. */
  lemma {:induction false} ParseAllFindings(lines: seq<string>, decode: string -> Option<Object>)
    requires forall l :: l in NonBlank(lines) ==> ParseLine(l, decode).Some?
    ensures var p := ParseFindings(lines, decode);
            var nb := NonBlank(lines);
            !p.aborted && |p.findings| == |nb| &&
            forall k :: 0 <= k < |nb| ==> Some(p.findings[k]) == ParseLine(nb[k], decode)
  {
    if lines != [] {
      var nb := NonBlank(lines);
      var nbRest := NonBlank(lines[1..]);
      if lines[0] == "" {
        ParseAllFindings(lines[1..], decode);
      } else {
        assert nb == [lines[0]] + nbRest;
        assert lines[0] in nb;
        forall l | l in nbRest ensures ParseLine(l, decode).Some? {
          assert l in nb;
        }
        ParseAllFindings(lines[1..], decode);
      }
    }
  }

  /** A line that fails aborts: the findings are those of the lines before it. */
  lemma FailingLineKeepsEarlierFindings(before: seq<string>, bad: string, after: seq<string>,
                                        decode: string -> Option<Object>)
    requires !ParseFindings(before, decode).aborted
    requires bad != "" && ParseLine(bad, decode).None?
    ensures ParseFindings(before + [bad] + after, decode) ==
              NucleiParse(ParseFindings(before, decode).findings, true)
  {
    ParseAppend(before, [bad] + after, decode);
    assert before + [bad] + after == before + ([bad] + after);
    assert ([bad] + after)[0] == bad;
  }

  /** The scanner output as lines: stripped, then split on newlines. */
  function NucleiLines(output: string): (lines: seq<string>)
    ensures |lines| >= 1
    ensures forall i :: 0 <= i < |lines| ==> '\n' !in lines[i]
    ensures Join(lines, "\n") == Strip(output)
  {
    JoinSplit(Strip(output), '\n');
    Split(Strip(output), '\n')
  }

  // =====================================================================
  // The triage tab: technology options, technology choice, targets
  // =====================================================================

  /** Some list-valued tech_stack cell holds tag t. */
  ghost predicate HasTech(rows: seq<Object>, t: string)
  {
    exists i | 0 <= i < |rows| :: TechStack(rows[i]).Some? && t in TechStack(rows[i]).value
  }

  /** The technology options of the select box: "All" first, then every tag
      of every list-valued tech_stack cell once, in the set's arbitrary order.
      Reading df['tech_stack'] raises when no row has the column. */
  method TechOptions(rows: seq<Object>) returns (options: seq<string>)
    requires HasColumn(rows, "tech_stack")
    ensures |options| >= 1 && options[0] == "All"
    ensures forall t :: t in options[1..] <==> HasTech(rows, t)
    ensures forall a, b :: 1 <= a < b < |options| ==> options[a] != options[b]
  {
    var all: set<string> := {};
    for i := 0 to |rows|
      invariant forall t :: t in all <==> HasTech(rows[..i], t)
    {
      assert forall j :: 0 <= j < i ==> rows[..i + 1][j] == rows[..i][j];
      match TechStack(rows[i]) {
        case Some(stack) =>
          for j := 0 to |stack|
            invariant forall t :: t in all <==> HasTech(rows[..i], t) || t in stack[..j]
          {
            assert stack[..j + 1] == stack[..j] + [stack[j]];
            all := all + {stack[j]};
          }
          assert stack[..|stack|] == stack;
          assert rows[..i + 1][i] == rows[i];
        case None =>
          assert rows[..i + 1][i] == rows[i];
      }
    }
    assert rows[..|rows|] == rows;
    options := ["All"];
    var rest := all;
    while rest != {}
      invariant |options| >= 1 && options[0] == "All"
      invariant rest <= all
      invariant forall t :: t in options[1..] <==> t in all && t !in rest
      invariant forall a, b :: 1 <= a < b < |options| ==> options[a] != options[b]
      decreases |rest|
    {
      var t :| t in rest;
      assert (options + [t])[1..] == options[1..] + [t];
      options := options + [t];
      rest := rest - {t};
    }
  }

  /** The frame shown for a choice: every row for "All", otherwise the rows
      filter_by_tech keeps. */
  function ChooseTech(rows: seq<Object>, choice: string): (r: seq<Object>)
    ensures choice == "All" ==> r == rows
    ensures IsSubsequence(r, rows)
    ensures choice != "All" ==> r == FilterByTech(rows, choice)
    ensures choice != "All" && HasColumn(rows, "tech_stack") ==>
              forall x :: multiset(r)[x] == if TechMatches(x, choice) then multiset(rows)[x] else 0
  {
    if choice == "All" then
      SubsequenceOfItself(rows);
      rows
    else FilterByTech(rows, choice)
  }

  /** A row's subdomain cell; NaN (here Null) when the key is missing. */
  function Subdomain(row: Object): (v: Value)
    ensures "subdomain" in row ==> v == row["subdomain"]
    ensures "subdomain" !in row ==> v == Null
  {
    Get(row, "subdomain", Null)
  }

  /** The number of ticked boxes. */
  function CountTrue(selected: seq<bool>): nat
  {
    if selected == [] then 0 else (if selected[0] then 1 else 0) + CountTrue(selected[1..])
  }

  /** The scan targets: the subdomain of every ticked row, in table order. */
  function SelectTargets(rows: seq<Object>, selected: seq<bool>): (targets: seq<Value>)
    requires |selected| == |rows|
    ensures |targets| == CountTrue(selected)
    ensures targets == [] <==> forall i :: 0 <= i < |selected| ==> !selected[i]
    ensures forall i :: 0 <= i < |rows| && selected[i] ==> Subdomain(rows[i]) in targets
    ensures forall t :: t in targets ==> exists i :: 0 <= i < |rows| && selected[i] && Subdomain(rows[i]) == t
  {
    if rows == [] then []
    else
      var rest := SelectTargets(rows[1..], selected[1..]);
      assert forall i :: 1 <= i < |rows| ==> rows[i] == rows[1..][i - 1] && selected[i] == selected[1..][i - 1];
      if selected[0] then [Subdomain(rows[0])] + rest else rest
  }

  /** Table order: selecting from two stacked tables is selecting from each. */
  lemma {:induction false} SelectTargetsAppend(r1: seq<Object>, s1: seq<bool>, r2: seq<Object>, s2: seq<bool>)
    requires |s1| == |r1| && |s2| == |r2|
    ensures SelectTargets(r1 + r2, s1 + s2) == SelectTargets(r1, s1) + SelectTargets(r2, s2)
  {
    if r1 != [] {
      assert (r1 + r2)[1..] == r1[1..] + r2;
      assert (s1 + s2)[1..] == s1[1..] + s2;
      assert (r1 + r2)[0] == r1[0] && (s1 + s2)[0] == s1[0];
      SelectTargetsAppend(r1[1..], s1[1..], r2, s2);
    } else {
      assert r1 + r2 == r2 && s1 + s2 == s2;
    }
  }

  /** The status line of the triage tab. */
  datatype TriageStatus =
    | Idle
    | NoSelection              // "please select at least one target"
    | ScanFailed(report: string)
    | ScanComplete(parseAborted: bool)
    | ScanCrashed(detail: string)  // an exception ended the script run

  /** str() of the KeyError raised by selecting the subdomain column. */
  const SubdomainKeyError: string := "'subdomain'"

  // =====================================================================
  // The session
  // =====================================================================

  /** The per-user session state: the ingested recon records, the findings,
      and what each tab's status line shows. */
  class Session {
    var reconData: seq<Object>
    var vulnerabilities: seq<Finding>
    var reconStatus: ReconStatus
    var triageStatus: TriageStatus

    /** A fresh session starts with no records and no findings. */
    constructor ()
      ensures reconData == [] && vulnerabilities == []
      ensures reconStatus == Awaiting && triageStatus == Idle
    {
      reconData := [];
      vulnerabilities := [];
      reconStatus := Awaiting;
      triageStatus := Idle;
    }

    /** Start Recon: reset both lists, then take the engine's lines in queue
        order until the stream ends, an error record arrives, or refreshing
        the live table raises. `exitCode` is the engine's return code when
        the loop ends (None while it runs). */
    method RunRecon(lines: seq<string>, decode: string -> Option<Object>, exitCode: Option<int>)
      modifies this
      ensures reconData == SessionRecords(lines, decode)
      ensures vulnerabilities == []
      ensures reconStatus == RunStatus(lines, decode, exitCode)
      ensures triageStatus == old(triageStatus)
    {
      reconData := [];
      vulnerabilities := [];
      reconStatus := Launching;
      var i := 0;
      var halted := false;
      var crashed := false;
      while i < |lines| && !halted && !crashed
        invariant 0 <= i <= |lines|
        invariant vulnerabilities == [] && triageStatus == old(triageStatus)
        invariant !halted && !crashed ==>
                    Ingest(lines[..i], decode) == Ingestion(reconData, None) && reconStatus == Launching &&
                    (reconData == [] || "status_code" in reconData[0])
        invariant halted ==>
                    !crashed && reconData == Ingest(lines, decode).records &&
                    !FirstRecordLacksStatus(Ingest(lines, decode)) &&
                    reconStatus == HaltStatus(Ingest(lines, decode).halt)
        invariant crashed ==>
                    FirstRecordLacksStatus(Ingest(lines, decode)) &&
                    reconData == [Ingest(lines, decode).records[0]] && reconStatus == Crashed(StatusCodeKeyError)
      {
        var line := lines[i];
        IngestStep(lines, i, decode);
        if line != "" {
          match decode(line) {
            case None =>
            case Some(data) =>
              if "error" in data {
                reconStatus := DomainError(Get(data, "error", Null), Get(data, "message", Str("")));
                halted := true;
              } else {
                reconData := reconData + [data];
              }
          }
        }
        if !halted && reconData != [] {
          if "status_code" in reconData[0] {
            assert HasColumn(reconData, "status_code");
          }
          assert Ingest(lines[..i + 1], decode) == Ingestion(reconData, None);
          IngestKeepsFirst(lines, i + 1, decode);
          if !HasColumn(reconData, "status_code") {
            reconStatus := Crashed(StatusCodeKeyError);
            crashed := true;
          } else {
            assert "status_code" in reconData[0] by {
              var k :| 0 <= k < |reconData| && "status_code" in reconData[k];
            }
          }
        }
        i := i + 1;
      }
      if !halted && !crashed {
        assert lines[..i] == lines;
      }
      if !crashed && exitCode == Some(0) {
        reconStatus := Completed;
      }
    }

    /** The parse loop: one finding per non-blank line appended, in order,
        until the first line that fails to parse. */
    method AppendFindings(lines: seq<string>, decode: string -> Option<Object>) returns (aborted: bool)
      modifies this
      ensures vulnerabilities == old(vulnerabilities) + ParseFindings(lines, decode).findings
      ensures aborted == ParseFindings(lines, decode).aborted
      ensures reconData == old(reconData) && reconStatus == old(reconStatus)
      ensures triageStatus == old(triageStatus)
    {
      var i := 0;
      aborted := false;
      ghost var added: seq<Finding> := [];
      while i < |lines| && !aborted
        invariant 0 <= i <= |lines|
        invariant reconData == old(reconData) && reconStatus == old(reconStatus)
        invariant triageStatus == old(triageStatus)
        invariant vulnerabilities == old(vulnerabilities) + added
        invariant !aborted ==> ParseFindings(lines[..i], decode) == NucleiParse(added, false)
        invariant aborted ==> ParseFindings(lines, decode) == NucleiParse(added, true)
      {
        var l := lines[i];
        ParseAppend(lines[..i], [l], decode);
        assert lines[..i + 1] == lines[..i] + [l];
        if l != "" {
          match ParseLine(l, decode) {
            case None =>
              aborted := true;
              ParseAppend(lines[..i + 1], lines[i + 1..], decode);
              assert lines[..i + 1] + lines[i + 1..] == lines;
            case Some(f) =>
              vulnerabilities := vulnerabilities + [f];
              added := added + [f];
          }
        }
        i := i + 1;
      }
      if !aborted {
        assert lines[..i] == lines;
      }
    }

    /** Run Nuclei on Filtered Targets. The button exists only once the
        triage tab has rendered, which needs records with a "tech_stack"
        column: an empty frame shows a warning instead, and a frame without
        the column raises KeyError while listing the technologies. The table
        is the session's records under the technology choice, and it has the
        columns of the whole frame. No scan without a ticked row. Selecting the subdomain column
        raises KeyError, ending the script run, when no record has
        "subdomain". A scanner report starting with the error mark is shown
        as an error. Otherwise one finding per non-blank line is appended,
        in order, until the first line that fails to parse. */
    method RunNucleiScan(choice: string, selected: seq<bool>, outcome: ScanOutcome,
                         decode: string -> Option<Object>)
      requires HasColumn(reconData, "tech_stack")
      requires |selected| == |ChooseTech(reconData, choice)|
      modifies this
      ensures reconData == old(reconData) && reconStatus == old(reconStatus)
      ensures var targets := SelectTargets(ChooseTech(reconData, choice), selected);
              targets == [] ==>
                vulnerabilities == old(vulnerabilities) && triageStatus == NoSelection
      ensures var targets := SelectTargets(ChooseTech(reconData, choice), selected);
              targets != [] && !HasColumn(reconData, "subdomain") ==>
                vulnerabilities == old(vulnerabilities) && triageStatus == ScanCrashed(SubdomainKeyError)
      ensures var targets := SelectTargets(ChooseTech(reconData, choice), selected);
              var out := RunNuclei(targets, outcome);
              targets != [] && HasColumn(reconData, "subdomain") && StartsWith(out, ErrorMark) ==>
                vulnerabilities == old(vulnerabilities) && triageStatus == ScanFailed(out)
      ensures var targets := SelectTargets(ChooseTech(reconData, choice), selected);
              var out := RunNuclei(targets, outcome);
              var p := ParseFindings(NucleiLines(out), decode);
              targets != [] && HasColumn(reconData, "subdomain") && !StartsWith(out, ErrorMark) ==>
                vulnerabilities == old(vulnerabilities) + p.findings && triageStatus == ScanComplete(p.aborted)
    {
      var rows := ChooseTech(reconData, choice);
      var targets := SelectTargets(rows, selected);
      if targets == [] {
        triageStatus := NoSelection;
        return;
      }
      if !HasColumn(reconData, "subdomain") {
        triageStatus := ScanCrashed(SubdomainKeyError);
        return;
      }
      var output := RunNuclei(targets, outcome);
      if StartsWith(output, ErrorMark) {
        triageStatus := ScanFailed(output);
        return;
      }
      var aborted := AppendFindings(NucleiLines(output), decode);
      triageStatus := ScanComplete(aborted);
    }
  }
}
