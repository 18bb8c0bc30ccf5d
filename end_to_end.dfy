/** How the engine's output meets the dashboard: the objects the engine
    writes are what the dashboard ingests, filters and selects targets
    from. A line is related to the object it carries by the decoder. */
module EndToEnd {
  import opened Wrappers
  import opened Json
  import opened Text
  import opened TriageLogic
  import opened App
  import opened ReconEngine

  /** The encoded Results, in output order. */
  function EncodeAll(results: seq<Result>): (objs: seq<Object>)
    ensures |objs| == |results|
    ensures forall k :: 0 <= k < |results| ==> objs[k] == EncodeResult(results[k])
  {
    seq(|results|, k requires 0 <= k < |results| => EncodeResult(results[k]))
  }

  /** Encoding a non-empty run of Results, head first. */
  lemma EncodeAllCons(results: seq<Result>)
    requires results != []
    ensures EncodeAll(results) == [EncodeResult(results[0])] + EncodeAll(results[1..])
  {
    var tail := EncodeAll(results[1..]);
    forall k | 1 <= k < |results|
      ensures EncodeAll(results)[k] == tail[k - 1]
    {
      assert results[1..][k - 1] == results[k];
    }
  }

  /** A run that writes only Results is ingested in full: one record per
      Result, in order, and no stop. */
  lemma {:induction false} ResultsAreIngested(lines: seq<string>, results: seq<Result>,
                                              decode: string -> Option<Object>)
    requires |lines| == |results|
    requires forall k :: 0 <= k < |lines| ==> lines[k] != "" && decode(lines[k]) == Some(EncodeResult(results[k]))
    ensures Ingest(lines, decode) == Ingestion(EncodeAll(results), None)
  {
    if lines != [] {
      ResultsAreIngested(lines[1..], results[1..], decode);
      EncodeAllCons(results);
      assert ClassifyLine(lines[0], decode) == Append(EncodeResult(results[0]));
    }
  }

  /** Every encoded Result carries a status code, so a run of Results never
      trips the dashboard's status-code lookup: the session keeps all of them
      and its status depends on the exit code alone. */
  lemma ResultsRunToCompletion(lines: seq<string>, results: seq<Result>,
                               decode: string -> Option<Object>, exitCode: Option<int>)
    requires |lines| == |results|
    requires forall k :: 0 <= k < |lines| ==> lines[k] != "" && decode(lines[k]) == Some(EncodeResult(results[k]))
    ensures SessionRecords(lines, decode) == EncodeAll(results)
    ensures RunStatus(lines, decode, exitCode) == FinalStatus(None, exitCode)
    ensures RunStatus(lines, decode, exitCode) == Completed <==> exitCode == Some(0)
  {
    ResultsAreIngested(lines, results, decode);
    if results != [] {
      assert "status_code" in EncodeAll(results)[0];
    }
  }

  /** A missing tool ends the run before any Result: its error record,
      arriving first, stops ingestion with no records and shows the missing
      binary's name and the install hint. */
  lemma MissingBinaryStopsIngestion(line: string, rest: seq<string>, decode: string -> Option<Object>, bin: string)
    requires line != "" && decode(line) == Some(MissingBinaryError(bin))
    ensures Ingest([line] + rest, decode) == Ingestion([], Some(MissingBinaryError(bin)))
    ensures HaltStatus(Ingest([line] + rest, decode).halt) ==
              DomainError(Str("Missing binary: " + bin), Str("Please install required tools in PATH"))
    ensures forall exitCode :: exitCode != Some(0) ==>
              RunStatus([line] + rest, decode, exitCode) ==
                DomainError(Str("Missing binary: " + bin), Str("Please install required tools in PATH"))
  {
    ScenarioErrorFirst(line, rest, decode, MissingBinaryError(bin));
  }

  /** The tech_stack cell of an encoded Result, as the dashboard reads it:
      a list exactly when the Result has tags, holding those tags. */
  lemma EncodedTechStack(res: Result)
    ensures TechStack(EncodeResult(res)) == if res.techStack == [] then None else Some(res.techStack)
  {
    var o := EncodeResult(res);
    if res.techStack != [] {
      var v := o["tech_stack"];
      assert v == Arr(seq(|res.techStack|, i requires 0 <= i < |res.techStack| => Str(res.techStack[i])));
      var r := StringList(v);
      assert r.value == res.techStack;
    }
  }

  /** An encoded Result matches a technology exactly when one of its tags
      contains it, ignoring case. */
  lemma EncodedTechMatches(res: Result, techName: string)
    ensures TechMatches(EncodeResult(res), techName) <==>
              (exists i :: 0 <= i < |res.techStack| &&
                 IsSubstring(Lower(techName), Lower(res.techStack[i])))
  {
    EncodedTechStack(res);
  }

  /** Filtering the ingested Results by a technology keeps exactly those
      whose tags contain it, ignoring case; a Result without tags is never
      kept. */
  lemma FilterEncodedResults(results: seq<Result>, techName: string)
    requires |results| > 0
    ensures var rows := EncodeAll(results);
            forall k :: 0 <= k < |results| ==>
              (rows[k] in FilterByTech(rows, techName) <==>
                exists i :: 0 <= i < |results[k].techStack| &&
                  IsSubstring(Lower(techName), Lower(results[k].techStack[i])))
  {
    var rows := EncodeAll(results);
    assert "tech_stack" in rows[0];
    assert HasColumn(rows, "tech_stack");
    forall k | 0 <= k < |results|
      ensures rows[k] in FilterByTech(rows, techName) <==>
                exists i :: 0 <= i < |results[k].techStack| &&
                  IsSubstring(Lower(techName), Lower(results[k].techStack[i]))
    {
      EncodedTechMatches(results[k], techName);
      assert rows[k] in rows;
    }
  }

  /** Ticking rows of ingested Results targets their subdomains, and a frame
      of Results always has the subdomain column, so selecting it never
      raises. */
  lemma TargetsAreSubdomains(results: seq<Result>, selected: seq<bool>)
    requires |selected| == |results|
    ensures results != [] ==> HasColumn(EncodeAll(results), "subdomain")
    ensures var targets := SelectTargets(EncodeAll(results), selected);
            forall t :: t in targets ==>
              exists k :: 0 <= k < |results| && selected[k] && t == Str(results[k].subdomain)
  {
    var rows := EncodeAll(results);
    if results != [] {
      assert "subdomain" in rows[0];
    }
    forall k | 0 <= k < |rows| ensures Subdomain(rows[k]) == Str(results[k].subdomain) {
    }
  }
}
