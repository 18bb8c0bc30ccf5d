# Recon pipeline and triage dashboard: a verified model of the data handling

The system has two parts.

- **The recon engine** is a Go command. It discovers the subdomains of a target with subfinder and, optionally, amass. It de-duplicates them and probes each with httpx. It enriches the live hosts with the ASN and organisation that Amass reported and, optionally, with WhatWeb fingerprints. It writes one JSON `Result` per live host on stdout. Before anything else it checks that the tools it needs are on `PATH`, and it writes a JSON error record when one is missing.
- **The dashboard** is a Streamlit app. It runs the engine and ingests its JSON lines into the session's `recon_data`. It offers a technology filter over the ingested rows. It runs the Nuclei scanner on the rows the user ticks and normalises Nuclei's JSON lines into findings. A classifier maps Nuclei tags to OWASP-style categories.

This project models that data handling in Dafny:

- `text.dfy` (`Text`) holds the string operations the code relies on: `str.lower`, `in` on strings, `strip`, `split`, `join`, and the decimal rendering of `fmt`'s `%d`.
- `json.dfy` (`Json`) holds decoded JSON values and `dict.get`.
- `triage_logic.dfy` (`TriageLogic`) models `filter_by_tech`, the empty-input guard and error reports of `run_nuclei`, and `map_tags_to_category`. These are pure functions with lemmas about priority, totality, subsequence and idempotence.
- `app.dfy` (`App`) holds the dashboard's session.
  - A `Session` class has the `recon_data` and `vulnerabilities` lists as fields.
  - Its methods run the ingestion loop and the Nuclei parse loop. Each method is proved against a fold function, and the lemmas characterise those folds.
  - The ingestion loop refreshes the live table after each record. Reading its status_code column raises a KeyError when no record has that key. The model shows that error and keeps only the first record.
  - The scan selects the subdomain column of the ticked rows. It raises a KeyError when no record has "subdomain". The model ends the scan with that error.
  - The module also holds the technology options, the "All" choice and target selection.
- `recon_engine.dfy` (`ReconEngine`) holds the engine's loops as plain methods:
  - the de-duplicating feeder;
  - the Amass capture;
  - building and enriching a `Result`;
  - the WhatWeb versions map and the tech-stack merge;
  - the required binaries and the binary check;
  - the JSON object a `Result` is written as.
- `end_to_end.dfy` (`EndToEnd`) connects the two programs. The engine's lines that the dashboard loop takes from the queue are what it ingests, filters and selects.

Decoding is a parameter throughout. A dashboard decoder is a function `string -> Option<Object>`, where `None` is a `JSONDecodeError`. The engine's decoders map a line to an httpx, Amass or WhatWeb record. Running a tool becomes a parameter too:
- `ScanOutcome` stands for the Nuclei run;
- `whatweb` maps a URL to its decoded output;
- `onPath` stands for `exec.LookPath`.

The clock is a `stamp` parameter.

## Model

| member | source | states |
|---|---|---|
| Text.Lower | app/triage_logic.py:18 | lower-casing keeps the length, maps every character by the ASCII case map, and leaves no character in 'A'..'Z' |
| Text.LowerIdempotent | app/triage_logic.py:18 | lower-casing an already lower-cased string changes nothing |
| Text.LowerIgnoresCase | app/triage_logic.py:18 | two strings that agree up to ASCII case lower-case to the same string, which is what makes the filter case-insensitive |
| Text.TrimStart | app/triage_logic.py:79 | the result is a suffix of the input, starts with a non-space, and everything removed is whitespace (Python's `isspace` set) |
| Text.TrimEnd | app/triage_logic.py:79 | the result is a prefix of the input, ends with a non-space, and everything removed is whitespace |
| Text.StripKeepsChars | app/triage_logic.py:79 | stripping only removes characters: every character of the result occurs in the input |
| Text.Split | app/triage_logic.py:79 | splitting on a character gives at least one piece and no piece contains the separator |
| Text.JoinSplit | app/triage_logic.py:79 | joining the pieces of a split with the separator gives the original string back |
| Text.SplitJoin | app/triage_logic.py:79 | splitting a join of separator-free parts gives the parts back |
| Text.IntDecimalRoundTrip | cmd/recon-engine/main.go:228 | reading back the decimal rendering of an integer gives the integer |
| TriageLogic.StringList | app/triage_logic.py:18 | a cell is read as a list of tags exactly when it is a JSON array of strings, holding those strings in order |
| TriageLogic.TechStack | app/triage_logic.py:18 | a row without a tech_stack cell has no tag list; a tag list read from a row is exactly the strings of its tech_stack array, in order |
| TriageLogic.TechMatches | app/triage_logic.py:17-19 | a row matches only when its tech_stack cell is a non-empty list |
| TriageLogic.TechMatchesIgnoresCase | app/triage_logic.py:19 | tokens equal up to ASCII case match the same rows |
| TriageLogic.KeepMatching | app/triage_logic.py:17-20 | the mask keeps a subsequence of the rows; a row is in it iff its tech_stack is a list with a tag containing the token, case-insensitively; and each matching row keeps its multiplicity while each other row has none |
| TriageLogic.FilterByTech | app/triage_logic.py:8-20 | an empty frame or one without a tech_stack column is returned unchanged; otherwise the result is an order-preserving subsequence holding exactly the matching rows, each as many times as in the frame |
| TriageLogic.KeepAllMatching | app/triage_logic.py:17-20 | a frame whose rows all match is kept whole |
| TriageLogic.FilterIdempotent | app/triage_logic.py:8-20 | filtering twice with the same token equals filtering once |
| TriageLogic.RunNuclei | app/triage_logic.py:29-63 | no targets gives "No targets selected."; a finished run gives its stdout; a missing binary, a non-zero exit or an exception gives a report starting with the error mark |
| TriageLogic.NormalizeTags | app/triage_logic.py:75-83 | no tag list exactly for "", [] and a value that is neither text nor a list; otherwise one tag per comma-separated piece or per list entry, none holding an ASCII capital |
| TriageLogic.KeywordIn | app/triage_logic.py:103-105 | true iff some keyword of the category occurs in the tag |
| TriageLogic.CategoryMatch | app/triage_logic.py:99-105 | true iff some keyword occurs in some tag; the exact-membership test is subsumed |
| TriageLogic.FirstPass | app/triage_logic.py:98-105 | None iff no category from the given position on has a hit; otherwise the name of the first category that has one |
| TriageLogic.VersionFallback | app/triage_logic.py:108-110 | true iff some tag contains "outdated", "deprecated" or "cve" |
| TriageLogic.Classify | app/triage_logic.py:87-112 | the category of normalised tags is one of the eight categories or "Other", never "Uncategorized" |
| TriageLogic.MapTagsToCategory | app/triage_logic.py:69-112 | the result is one of the ten outcomes, and it is "Uncategorized" exactly when the input is falsy or neither a string nor a list |
| TriageLogic.FalsyIsUncategorized | app/triage_logic.py:75-83 | an empty string, an empty list and a non-string non-list all give "Uncategorized" |
| TriageLogic.FirstHitExists | app/triage_logic.py:98-105 | when some category has a hit, there is a first category that has one |
| TriageLogic.CategoryNamesDistinct | app/triage_logic.py:87-96 | the eight category names are distinct |
| TriageLogic.CategoryPriority | app/triage_logic.py:98-105 | the first category with a hit is the result; a category other than the outdated-components one is the result only when it is the first with a hit |
| TriageLogic.FallbackOnlyForDeprecated | app/triage_logic.py:107-112 | with no first-pass hit, the result is "Vulnerable and Outdated Components" iff some tag contains "deprecated", and "Other" otherwise |
| TriageLogic.ExposureIsMisconfiguration | app/triage_logic.py:91-95 | a tag containing "exposure" yields one of the first four categories and never "Information Disclosure" |
| TriageLogic.ExampleTagsNormalized | app/triage_logic.py:80-81 | the already lower-case list ["cve-2021-1234", "auth-bypass"] normalises to itself |
| TriageLogic.ExampleTagsNotInjection | app/triage_logic.py:88-89 | no injection keyword occurs in "cve-2021-1234" or "auth-bypass" |
| TriageLogic.ExampleAuthBypassBeatsCve | app/triage_logic.py:88-92 | ["cve-2021-1234", "auth-bypass"] is classified "Broken Access Control" |
| TriageLogic.LowerKeepsLayout | app/triage_logic.py:79 | lower-casing keeps the length, the whitespace positions and the comma positions |
| TriageLogic.TextTagsAreStripped | app/triage_logic.py:78-79 | a non-empty string gives one tag per comma-separated piece, tag i being piece i stripped and lower-cased; no tag holds a comma or an ASCII capital, or starts or ends with whitespace |
| TriageLogic.StrippedPiece | app/triage_logic.py:79 | a comma-free piece, stripped and lower-cased, holds no comma and has no whitespace at either end |
| TriageLogic.ListTagsKeepWhitespace | app/triage_logic.py:80-81 | tag i is entry i lower-cased, with no ASCII capital, the same length and its whitespace in the same places |
| App.ClassifyLine | app/app.py:121-131 | an empty or undecodable line is skipped; a decoded record with "error" stops the loop; any other record is appended |
| App.Ingest | app/app.py:118-131 | ingestion never yields more records than lines, no record it keeps carries "error", and a stop always carries "error" |
| App.IngestAppend | app/app.py:118-131 | ingesting a stream in two parts: the second part counts only when the first did not stop |
| App.IngestSnoc | app/app.py:121-131 | one more line after a stream that has not stopped: an error record stops it with the records so far, a record is appended, anything else changes nothing |
| App.IngestStep | app/app.py:118-131 | the loop's step: line i after an unstopped prefix extends the prefix by its record, or, as an error record, decides the whole stream |
| App.IngestKeepsFirst | app/app.py:118-131 | while a prefix has not stopped, its first record is the whole stream's first record |
| App.IngestIgnoresLaterLines | app/app.py:125-127 | after an error record, later lines change nothing |
| App.HaltIndex | app/app.py:125-127 | the position of the first line carrying an error record, or the stream's length |
| App.IngestStopsAtFirstError | app/app.py:118-131 | the records kept are exactly the accepted records before the first error record, in arrival order; the stop is that error record, and there is none without one |
| App.ScenarioMalformedLineSkipped | app/app.py:121-130 | two valid records around a malformed line give exactly those two records and no error |
| App.ScenarioErrorFirst | app/app.py:125-127 | an error record as the first line gives no records, whatever follows |
| App.HaltStatus | app/app.py:126 | no stop leaves the launch message; a stop shows its "error" and, when present, its "message", and "" when absent |
| App.FinalStatus | app/app.py:126-152 | the status is success exactly when the exit code is zero; with any other exit code the stop's error, if any, stays on screen |
| App.SessionRecords | app/app.py:118-138 | the records the session keeps are a prefix of the ingested ones: all of them, unless the first lacks "status_code", in which case only that one |
| App.RunStatus | app/app.py:118-155 | the run ends in the KeyError report "'status_code'" exactly when the first ingested record lacks "status_code"; otherwise in the final status of the stop and the exit code |
| App.ParseLine | app/app.py:243-252 | a line yields no finding exactly when it does not decode or its "info" is present and not an object; otherwise the normalised finding of its record |
| App.NormalizeFinding | app/app.py:245-252 | a record gives a finding unless its "info" is present and not an object |
| App.FindingDefaults | app/app.py:245-252 | template is info.name or "Unknown", severity is info.severity or "info", matched_at is matched-at or "", and template_id, host and timestamp are copied or None |
| App.EmptyRecordFinding | app/app.py:245-252 | an empty record gives the all-default finding |
| App.NucleiLines | app/app.py:240 | the output's lines: at least one, none holding a newline, and joined with newlines they give the stripped output back |
| App.ParseFindings | app/app.py:240-253 | the parse yields at most one finding per line |
| App.ParseAppend | app/app.py:240-253 | parsing in two parts: the second part counts only when the first did not abort |
| App.ParseAllFindings | app/app.py:240-253 | when every non-blank line parses, there is one finding per non-blank line, in order, and no abort |
| App.FailingLineKeepsEarlierFindings | app/app.py:239-261 | a line that fails aborts the parse and keeps the findings of earlier lines |
| App.TechOptions | app/app.py:174-180 | "All" comes first, then every tag of every list-valued tech_stack cell exactly once |
| App.ChooseTech | app/app.py:182-185 | "All" shows every row unchanged; any other choice shows exactly what filter_by_tech returns, so with a tech_stack column each matching row keeps its multiplicity and no other row appears |
| App.Subdomain | app/app.py:229 | a row's subdomain cell, or null (pandas' NaN) when the row has no "subdomain" key |
| App.SelectTargets | app/app.py:223-229 | one target per ticked row, each the subdomain of a ticked row, and none exactly when no row is ticked |
| App.SelectTargetsAppend | app/app.py:223-229 | targets come in table order: selecting from two stacked tables is selecting from each in turn |
| App.Session.constructor | app/app.py:75-78 | a new session has no records and no findings |
| App.Session.RunRecon | app/app.py:92-155 | a run resets both lists, then leaves recon_data equal to the records the session keeps and the status the run ends in, including the KeyError when the first record lacks "status_code" |
| App.Session.AppendFindings | app/app.py:240-261 | the parse loop appends exactly the fold's findings to the session's findings and reports whether it aborted |
| App.Session.RunNucleiScan | app/app.py:167-261 | callable only on a non-empty frame with a tech_stack column, the only case in which the button is drawn; the table is the records under the technology choice; no ticked row gives a warning and no scan; with a ticked row and no record having "subdomain", the KeyError "'subdomain'" ends the run with no findings added; a report starting with the error mark adds no findings; otherwise the parsed findings are appended to those already there |
| ReconEngine.FirstIndex | cmd/recon-engine/main.go:190-198 | the position of the first occurrence of a subdomain |
| ReconEngine.FirstIndexBefore | cmd/recon-engine/main.go:190-198 | a subdomain received before position i first occurs before i |
| ReconEngine.FeedUnique | cmd/recon-engine/main.go:190-198 | every received subdomain is written, none twice, in first-occurrence order |
| ReconEngine.AmassEntry | cmd/recon-engine/main.go:142-143 | a line counts exactly when it decodes and has a non-empty name, and then it is the decoded record |
| ReconEngine.AmassNames | cmd/recon-engine/main.go:139-143 | the names forwarded are exactly those of lines that decode with a non-empty name |
| ReconEngine.AmassInfra | cmd/recon-engine/main.go:142-151 | every name in the infrastructure map is non-empty |
| ReconEngine.InfraNamesForwarded | cmd/recon-engine/main.go:142-151 | every name with infrastructure was also forwarded to de-duplication |
| ReconEngine.AmassInfraLastWins | cmd/recon-engine/main.go:142-151 | a name has infrastructure iff some line with addresses records it; the entry is the first address of the last such line |
| ReconEngine.CaptureInfra | cmd/recon-engine/main.go:139-154 | the reader's loop forwards the names and leaves the infrastructure map the specification functions define |
| ReconEngine.ExtractTech | cmd/recon-engine/main.go:301-305 | the copy holds the httpx tags, one for one, in order |
| ReconEngine.RenderAsn | cmd/recon-engine/main.go:228 | "AS" followed by digits, from which the ASN reads back |
| ReconEngine.BuildResult | cmd/recon-engine/main.go:215-231 | Input, StatusCode and Title are copied, the tech stack is the httpx tags in order, vulnerabilities and versions are empty and the source is "recon_pipeline"; Asn is set iff the subdomain has infrastructure, and then it is "AS" and the ASN's digits and Org is the recorded organisation; Org is empty otherwise |
| ReconEngine.FingerprintApplies | cmd/recon-engine/main.go:234 | WhatWeb never runs with fingerprinting off or for a host whose status code is not positive |
| ReconEngine.WhatWebPlugins | cmd/recon-engine/main.go:239-244 | plugins exist exactly when WhatWeb succeeded with a non-empty result list, and they are the first result's plugins |
| ReconEngine.Versions | cmd/recon-engine/main.go:243-249 | a key for a plugin iff it reports versions, holding them joined with ", " |
| ReconEngine.SingleVersionKept | cmd/recon-engine/main.go:246 | a single reported version is stored as it is |
| ReconEngine.MergePlugins | cmd/recon-engine/main.go:253-264 | the original tech stack is a prefix; afterwards every plugin is present; only plugins not already present are appended, each once |
| ReconEngine.ProcessHttpxLine | cmd/recon-engine/main.go:207-267 | an undecodable line gives no Result; otherwise the Result carries the httpx fields, the recorded ASN and organisation, and the httpx tags as a prefix of its tech stack. Fingerprinting changes it only for a live host with fingerprinting on and a WhatWeb result. Then the versions hold, for each plugin that reports versions, those versions joined with ", ", and the tech stack gains every plugin not already in it, each once |
| ReconEngine.BaseObject | cmd/recon-engine/main.go:17-25 | the seven always-written keys hold timestamp, subdomain, status_code, title and source; tech_stack is null exactly when there are no tags, and otherwise an array of the tags in order; vulnerabilities is the list of findings in order |
| ReconEngine.EncodeResult | cmd/recon-engine/main.go:17-29 | the keys are the seven always-written ones plus asn, org and versions exactly when each is non-empty, never "error"; the seven hold the Result's fields; asn and org hold their strings; versions holds one string per plugin |
| ReconEngine.RequiredBinaries | cmd/recon-engine/main.go:281-287 | subfinder, httpx and nmap, then amass iff deep discovery, then whatweb iff fingerprinting, with no repeats |
| ReconEngine.MissingBinaryError | cmd/recon-engine/main.go:291-294 | the error record names the binary and carries the install hint |
| ReconEngine.MissingBinaryNamed | cmd/recon-engine/main.go:292 | the binary's name can be read back from the error text |
| ReconEngine.CheckBinaries | cmd/recon-engine/main.go:289-298 | no error iff every binary is found; otherwise the error record of the first missing binary |
| EndToEnd.EncodeAll | cmd/recon-engine/main.go:269 | the written objects, one per Result, in order |
| EndToEnd.ResultsAreIngested | app/app.py:118-131 | a stream of encoded Results is ingested in full, in order, with no stop |
| EndToEnd.ResultsRunToCompletion | app/app.py:118-152 | every encoded Result has "status_code", so a run of Results keeps them all, never raises the KeyError, and shows success exactly when the exit code is zero |
| EndToEnd.MissingBinaryStopsIngestion | cmd/recon-engine/main.go:289-297 | a missing binary's record stops ingestion at once and shows the binary's name and the install hint, which stay on screen when the exit code is not zero |
| EndToEnd.EncodedTechStack | app/triage_logic.py:18 | a written Result's tech_stack reads back as its tags, and as a non-list when it has none |
| EndToEnd.EncodedTechMatches | app/triage_logic.py:17-20 | a written Result matches a technology exactly when one of its tags contains it, ignoring case |
| EndToEnd.FilterEncodedResults | app/triage_logic.py:8-20 | filtering ingested Results keeps exactly those with a tag containing the token, case-insensitively |
| EndToEnd.TargetsAreSubdomains | app/app.py:229 | every scan target is the subdomain of a ticked Result, and a frame of Results always has the subdomain column, so selecting it never raises |

## Left out

- The Streamlit presentation is left out: layout, metrics, tables, the data editor, the download button and the schema debug panel. The model keeps what the status lines show.
- Threads, the output queue, `time.sleep` and polling are left out. The model takes the lines the loop takes from the queue as a sequence, in queue order.
- App.Session.RunRecon: the loop at app/app.py:118 can end once the engine has exited and the queue is momentarily empty, while the reader thread still holds lines it has read but not queued. Those trailing lines are never ingested. The model does not capture this; its lines are only the ones the loop took.
- App.Session.RunRecon: a line that is not valid UTF-8 raises in the reader thread at app/app.py:83 and ends that thread, so every later line is lost too. The model's lines are already text, so this loss is not modelled.
- EndToEnd.ResultsAreIngested: holds for the lines the loop takes from the queue, not for every line the engine writes, because of the two losses above.
- The engine's goroutines, channels, wait groups, mutex and signal handling are left out, and so is the race between the Amass reader and the httpx loop over `infraMap`. The feeder, the Amass reader and the httpx loop are separate methods over given inputs. `ProcessHttpxLine` receives the infrastructure map as it stands when the line is processed.
- The launches of subfinder, amass, httpx, nmap, WhatWeb and Nuclei are left out: they are foreign processes. So are the temporary targets file, the `which` probe, `os.Exit` and `fatalError`. Their outcomes are parameters.
- The usage message for a missing target argument is left out. It is process I/O before any data handling.
- JSON encoding and decoding are left out. Decoders are parameters. A dashboard line that decodes to something other than an object is left out. Numbers are integers only, so floating point is not modelled.
- TriageLogic.MapTagsToCategory: a list holding a non-string makes `t.lower()` raise AttributeError in the source. `TagsArg` cannot represent such a list, so this error is not modelled.
- ReconEngine.CaptureInfra: `bufio.Scanner` stops the Amass loop at the first line over 64 KiB, and the httpx loop at the first line over 1 MiB. Lines here have no length limit, so this early stop is not modelled. The same holds for ReconEngine.ProcessHttpxLine.
- `TriageLogic.TechStack` reads a list that holds a non-string as a non-list. Python would raise on lowering such a tag in `filter_by_tech`, and would add the item to the option set in the technology options.
- `Text.Lower` folds ASCII letters only. Python's `str.lower` also folds non-ASCII letters.
- Go's `int` is 64-bit, but status codes and ASNs are unbounded integers here.
- Timestamps from `time.Now` are a parameter.
- Jinja report rendering and the empty `generate_report` placeholder are left out.
- Go map iteration order is arbitrary. The WhatWeb plugins are a set, and the order in which `MergePlugins` appends them is left open.
- App.TechOptions requires the frame to have a tech_stack column. The source raises a KeyError without one, and the model does not represent that exception.
- App.Session.RunNucleiScan requires a non-empty frame with a tech_stack column. With an empty frame the source shows a warning and draws no button (app/app.py:168-169). Without the column it raises a KeyError at app/app.py:175 before the button is drawn. In both cases no scan can be asked for.
- App.Session.RunNucleiScan does not model an exception raised during the parse other than a failed decode or a non-object "info". Those two are the only ones the normalisation can raise.
- The code has no asset history, new-asset tagging, sensitive-keyword flag, false-positive suppression or severity validation, so none is modelled.
- The classifier tries an exact test and then a substring test for each category. The substring test subsumes the exact one. The version fallback tests "outdated", "deprecated" and "cve", but the first pass already catches "outdated" and "cve", so only "deprecated" can reach it.
