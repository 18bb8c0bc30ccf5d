/** The recon engine's data shaping, lifted out of its goroutines: the
    de-duplicating feeder, the Amass infrastructure capture, building one
    Result per httpx record with its ASN/Org enrichment and WhatWeb
    fingerprint, the JSON object each Result is written as, and the
    required-binaries check. External commands and JSON decoding are
    parameters. */
module ReconEngine {
  import opened Wrappers
  import opened Json
  import opened Text

  // =====================================================================
  // Records read from the tools
  // =====================================================================

  /** One httpx JSON line. */
  datatype HttpxRecord = HttpxRecord(
    input: string, url: string, statusCode: int, title: string, tech: seq<string>, webServer: string)

  /** One address of an Amass record. */
  datatype Address = Address(asn: int, desc: string)

  /** One Amass JSON line. */
  datatype AmassRecord = AmassRecord(name: string, domain: string, addresses: seq<Address>)

  /** The ASN and organisation remembered for a subdomain. */
  datatype Infrastructure = Infrastructure(asn: int, org: string)

  /** One WhatWeb plugin entry. */
  datatype PluginInfo = PluginInfo(strings: seq<string>, version: seq<string>)

  /** One WhatWeb result; only the first of the decoded array is used. */
  datatype WhatWebRecord = WhatWebRecord(target: string, plugins: map<string, PluginInfo>)

  /** The unified record the engine writes, one per live host. An empty
      `asn`, `org` or `versions` is the Go zero value, omitted on output. */
  datatype Result = Result(
    timestamp: string,
    subdomain: string,
    statusCode: int,
    title: string,
    techStack: seq<string>,
    vulnerabilities: seq<Object>,
    source: string,
    asn: string,
    org: string,
    versions: map<string, string>)

  // =====================================================================
  // De-duplication of discovered subdomains
  // =====================================================================

  /** The position of the first occurrence of x in s. */
  function FirstIndex(s: seq<string>, x: string): (r: nat)
    requires x in s
    ensures r < |s| && s[r] == x && x !in s[..r]
  {
    if s[0] == x then 0
    else
      var k := FirstIndex(s[1..], x);
      assert s[..k + 1] == [s[0]] + s[1..][..k];
      k + 1
  }

  /** An element seen before position i first occurs before i. */
  lemma FirstIndexBefore(s: seq<string>, x: string, i: nat)
    requires i <= |s| && x in s[..i]
    ensures FirstIndex(s, x) < i
  {
    var r := FirstIndex(s, x);
    var j :| 0 <= j < i && s[..i][j] == x;
    assert forall k :: 0 <= k < r ==> s[..r][k] == s[k];
    assert s[j] == x;
  }

  /** The feeder: every received subdomain is written to httpx once, the
      first time it arrives. */
  method FeedUnique(received: seq<string>) returns (written: seq<string>)
    ensures forall a, b :: 0 <= a < b < |written| ==> written[a] != written[b]
    ensures forall x :: x in written <==> x in received
    ensures forall a, b :: 0 <= a < b < |written| ==>
              FirstIndex(received, written[a]) < FirstIndex(received, written[b])
  {
    var seen: map<string, bool> := map[];
    written := [];
    for i := 0 to |received|
      invariant forall x :: x in seen <==> x in received[..i]
      invariant forall x :: x in seen ==> seen[x]
      invariant forall x :: x in written <==> x in received[..i]
      invariant forall a :: 0 <= a < |written| ==> written[a] in received
      invariant forall a, b :: 0 <= a < b < |written| ==> written[a] != written[b]
      invariant forall a :: 0 <= a < |written| ==> FirstIndex(received, written[a]) < i
      invariant forall a, b :: 0 <= a < b < |written| ==>
                  FirstIndex(received, written[a]) < FirstIndex(received, written[b])
    {
      var sub := received[i];
      assert received[..i + 1] == received[..i] + [sub];
      if !(sub in seen && seen[sub]) {
        seen := seen[sub := true];
        assert FirstIndex(received, sub) == i by {
          var r := FirstIndex(received, sub);
          assert received[..i + 1][i] == sub;
          FirstIndexBefore(received, sub, i + 1);
          assert forall k :: 0 <= k < i ==> received[..i][k] == received[k];
        }
        written := written + [sub];
      }
    }
    assert received[..|received|] == received;
  }

  // =====================================================================
  // Amass infrastructure capture
  // =====================================================================

  /** A decodable Amass line with a non-empty name. */
  function AmassEntry(line: string, decode: string -> Option<AmassRecord>): (e: Option<AmassRecord>)
    ensures e.Some? ==> e.value.name != "" && decode(line) == e
    ensures decode(line).Some? && decode(line).value.name != "" ==> e == decode(line)
  {
    match decode(line)
    case Some(ar) => if ar.name != "" then Some(ar) else None
    case None => None
  }

  /** The infrastructure an entry records: its first address, when it has one. */
  function InfraOf(ar: AmassRecord): Option<Infrastructure>
  {
    if |ar.addresses| > 0 then Some(Infrastructure(ar.addresses[0].asn, ar.addresses[0].desc)) else None
  }

  /** Line i records infrastructure inf for name n. */
  predicate Records(lines: seq<string>, decode: string -> Option<AmassRecord>, i: int, n: string, inf: Infrastructure)
  {
    0 <= i < |lines| && AmassEntry(lines[i], decode).Some? &&
    AmassEntry(lines[i], decode).value.name == n && InfraOf(AmassEntry(lines[i], decode).value) == Some(inf)
  }

  /** The names sent on to de-duplication, in arrival order. */
  function AmassNames(lines: seq<string>, decode: string -> Option<AmassRecord>): (names: seq<string>)
    ensures |names| <= |lines|
    ensures forall n :: n in names <==>
              exists i :: 0 <= i < |lines| && AmassEntry(lines[i], decode).Some? && AmassEntry(lines[i], decode).value.name == n
  {
    if lines == [] then []
    else
      var prev := AmassNames(lines[..|lines| - 1], decode);
      assert forall i :: 0 <= i < |lines| - 1 ==> lines[..|lines| - 1][i] == lines[i];
      match AmassEntry(lines[|lines| - 1], decode)
      case Some(ar) => prev + [ar.name]
      case None => prev
  }

  /** The infrastructure map after a run of lines: each recording line
      overwrites the entry for its name. */
  function AmassInfra(lines: seq<string>, decode: string -> Option<AmassRecord>): (m: map<string, Infrastructure>)
    ensures forall n :: n in m ==> n != ""
  {
    if lines == [] then map[]
    else
      var prev := AmassInfra(lines[..|lines| - 1], decode);
      match AmassEntry(lines[|lines| - 1], decode)
      case Some(ar) =>
        (match InfraOf(ar)
         case Some(inf) => prev[ar.name := inf]
         case None => prev)
      case None => prev
  }

  /** A name has an entry iff some line records infrastructure for it, and
      the entry is the one the last such line records. */
  lemma {:induction false} AmassInfraLastWins(lines: seq<string>, decode: string -> Option<AmassRecord>, n: string)
    ensures n in AmassInfra(lines, decode) <==> exists i, inf :: Records(lines, decode, i, n, inf)
    ensures n in AmassInfra(lines, decode) ==>
              exists i :: Records(lines, decode, i, n, AmassInfra(lines, decode)[n]) &&
                forall j, inf :: i < j ==> !Records(lines, decode, j, n, inf)
  {
    if lines != [] {
      var init := lines[..|lines| - 1];
      var last := |lines| - 1;
      AmassInfraLastWins(init, decode, n);
      assert forall i, inf :: Records(init, decode, i, n, inf) <==> i < last && Records(lines, decode, i, n, inf) by {
        assert forall i :: 0 <= i < last ==> init[i] == lines[i];
      }
      var e := AmassEntry(lines[last], decode);
      if e.Some? && e.value.name == n && InfraOf(e.value).Some? {
        assert Records(lines, decode, last, n, InfraOf(e.value).value);
      }
    }
  }

  /** Every name with infrastructure was also forwarded to de-duplication. */
  lemma InfraNamesForwarded(lines: seq<string>, decode: string -> Option<AmassRecord>)
    ensures forall n :: n in AmassInfra(lines, decode) ==> n in AmassNames(lines, decode)
  {
    forall n | n in AmassInfra(lines, decode)
      ensures n in AmassNames(lines, decode)
    {
      AmassInfraLastWins(lines, decode, n);
    }
  }

  /** The Amass reader: the names it forwards and the infrastructure map it
      leaves behind. */
  method CaptureInfra(lines: seq<string>, decode: string -> Option<AmassRecord>)
    returns (names: seq<string>, infra: map<string, Infrastructure>)
    ensures names == AmassNames(lines, decode)
    ensures infra == AmassInfra(lines, decode)
  {
    names := [];
    infra := map[];
    for i := 0 to |lines|
      invariant names == AmassNames(lines[..i], decode)
      invariant infra == AmassInfra(lines[..i], decode)
    {
      assert lines[..i + 1][..i] == lines[..i];
      assert lines[..i + 1][i] == lines[i];
      match AmassEntry(lines[i], decode) {
        case Some(ar) =>
          names := names + [ar.name];
          if |ar.addresses| > 0 {
            infra := infra[ar.name := Infrastructure(ar.addresses[0].asn, ar.addresses[0].desc)];
          }
        case None =>
      }
    }
    assert lines[..|lines|] == lines;
  }

  // =====================================================================
  // Building a Result
  // =====================================================================

  /** extractTech: the httpx tech tags, copied into a fresh slice. */
  function ExtractTech(h: HttpxRecord): (techs: seq<string>)
    ensures |techs| == |h.tech|
    ensures forall i :: 0 <= i < |techs| ==> techs[i] == h.tech[i]
  {
    [] + h.tech
  }

  /** The ASN a rendered "AS<n>" string names. */
  function AsnNumber(asn: string): int
    requires |asn| >= 3 && asn[..2] == "AS"
    requires asn[2] == '-' ==> IsDigits(asn[3..])
    requires asn[2] != '-' ==> IsDigits(asn[2..])
  {
    SignedDecimalValue(asn[2..])
  }

  /** asn is "AS" followed by a numeral that reads back as n. */
  predicate RendersAsn(asn: string, n: int)
  {
    && |asn| >= 3 && asn[..2] == "AS"
    && (asn[2] == '-' ==> IsDigits(asn[3..]))
    && (asn[2] != '-' ==> IsDigits(asn[2..]))
    && AsnNumber(asn) == n
  }

  /** "AS" followed by the decimal ASN, as fmt's "AS%d" renders it. */
  function RenderAsn(asn: int): (s: string)
    ensures |s| >= 3 && s[..2] == "AS"
    ensures s[2] == '-' ==> IsDigits(s[3..])
    ensures s[2] != '-' ==> IsDigits(s[2..])
    ensures AsnNumber(s) == asn
  {
    var s := "AS" + IntToDecimal(asn);
    assert s[2..] == IntToDecimal(asn);
    IntDecimalRoundTrip(asn);
    s
  }

  /** A Result for one decoded httpx record, enriched with the Amass
      infrastructure of its subdomain when there is some. */
  method BuildResult(h: HttpxRecord, stamp: string, infra: map<string, Infrastructure>) returns (res: Result)
    ensures res.timestamp == stamp && res.subdomain == h.input
    ensures res.statusCode == h.statusCode && res.title == h.title
    ensures res.techStack == h.tech
    ensures res.vulnerabilities == [] && res.source == "recon_pipeline"
    ensures res.versions == map[]
    ensures res.asn != "" <==> h.input in infra
    ensures h.input in infra ==> RendersAsn(res.asn, infra[h.input].asn) && res.org == infra[h.input].org
    ensures h.input !in infra ==> res.org == ""
  {
    res := Result(stamp, h.input, h.statusCode, h.title, ExtractTech(h), [], "recon_pipeline", "", "", map[]);
    if h.input in infra {
      var inf := infra[h.input];
      res := res.(asn := RenderAsn(inf.asn), org := inf.org);
    }
  }

  // =====================================================================
  // WhatWeb fingerprinting
  // =====================================================================

  /** Only live hosts are fingerprinted, and only when asked to. */
  predicate FingerprintApplies(useFingerprint: bool, h: HttpxRecord)
    ensures !useFingerprint ==> !FingerprintApplies(useFingerprint, h)
    ensures h.statusCode <= 0 ==> !FingerprintApplies(useFingerprint, h)
  {
    useFingerprint && h.statusCode > 0
  }

  /** The plugins of the first WhatWeb result, when the run succeeded and
      decoded to a non-empty array. */
  function WhatWebPlugins(output: Option<seq<WhatWebRecord>>): (r: Option<map<string, PluginInfo>>)
    ensures r.Some? <==> output.Some? && |output.value| > 0
    ensures r.Some? ==> r.value == output.value[0].plugins
  {
    match output
    case Some(rs) => if |rs| > 0 then Some(rs[0].plugins) else None
    case None => None
  }

  /** The versions map: a key per plugin that reports versions, holding them
      joined with ", ". */
  method Versions(plugins: map<string, PluginInfo>) returns (versions: map<string, string>)
    ensures forall p :: p in versions <==> p in plugins && |plugins[p].version| > 0
    ensures forall p :: p in versions ==> versions[p] == Join(plugins[p].version, ", ")
  {
    versions := map[];
    var todo := plugins.Keys;
    while todo != {}
      invariant todo <= plugins.Keys
      invariant forall p :: p in versions <==> p in plugins && p !in todo && |plugins[p].version| > 0
      invariant forall p :: p in versions ==> versions[p] == Join(plugins[p].version, ", ")
      decreases |todo|
    {
      var p :| p in todo;
      if |plugins[p].version| > 0 {
        versions := versions[p := Join(plugins[p].version, ", ")];
      }
      todo := todo - {p};
    }
  }

  /** A single reported version is stored as it is. */
  lemma SingleVersionKept(plugins: map<string, PluginInfo>, p: string, versions: map<string, string>)
    requires forall q :: q in versions <==> q in plugins && |plugins[q].version| > 0
    requires forall q :: q in versions ==> versions[q] == Join(plugins[q].version, ", ")
    requires p in plugins && |plugins[p].version| == 1
    ensures p in versions && versions[p] == plugins[p].version[0]
  {
    assert plugins[p].version == [plugins[p].version[0]];
    JoinOne(plugins[p].version[0], ", ");
  }

  /** The merge of plugin names into the tech stack: each plugin not already
      present is appended once. */
  method MergePlugins(techStack: seq<string>, plugins: set<string>) returns (merged: seq<string>)
    ensures |techStack| <= |merged| && merged[..|techStack|] == techStack
    ensures forall x :: x in merged <==> x in techStack || x in plugins
    ensures forall k :: |techStack| <= k < |merged| ==> merged[k] in plugins && merged[k] !in techStack
    ensures forall a, b :: |techStack| <= a < b < |merged| ==> merged[a] != merged[b]
  {
    merged := techStack;
    var todo := plugins;
    while todo != {}
      invariant todo <= plugins
      invariant |techStack| <= |merged| && merged[..|techStack|] == techStack
      invariant forall x :: x in merged <==> x in techStack || x in plugins - todo
      invariant forall k :: |techStack| <= k < |merged| ==> merged[k] in plugins - todo && merged[k] !in techStack
      invariant forall a, b :: |techStack| <= a < b < |merged| ==> merged[a] != merged[b]
      decreases |todo|
    {
      var plugin :| plugin in todo;
      var found := false;
      var j := 0;
      while j < |merged| && !found
        invariant 0 <= j <= |merged|
        invariant found <==> plugin in merged[..j]
      {
        assert merged[..j + 1] == merged[..j] + [merged[j]];
        if merged[j] == plugin {
          found := true;
        }
        j := j + 1;
      }
      if !found {
        assert merged[..j] == merged;
        merged := merged + [plugin];
      }
      todo := todo - {plugin};
    }
  }

  // =====================================================================
  // One httpx line
  // =====================================================================

  /** One line of httpx output: no Result when it does not decode; otherwise
      the built Result, with versions and merged tech stack when
      fingerprinting applies and WhatWeb produced a result. */
  method ProcessHttpxLine(line: string, decode: string -> Option<HttpxRecord>, stamp: string,
                          infra: map<string, Infrastructure>, useFingerprint: bool,
                          whatweb: string -> Option<seq<WhatWebRecord>>)
    returns (out: Option<Result>)
    ensures out.None? <==> decode(line).None?
    ensures out.Some? ==>
              var h := decode(line).value;
              var r := out.value;
              && r.timestamp == stamp && r.subdomain == h.input
              && r.statusCode == h.statusCode && r.title == h.title
              && r.vulnerabilities == [] && r.source == "recon_pipeline"
              && (r.asn != "" <==> h.input in infra)
              && (h.input in infra ==> RendersAsn(r.asn, infra[h.input].asn) && r.org == infra[h.input].org)
              && (h.input !in infra ==> r.org == "")
              && |h.tech| <= |r.techStack| && r.techStack[..|h.tech|] == h.tech
    ensures out.Some? ==>
              var h := decode(line).value;
              var r := out.value;
              !(FingerprintApplies(useFingerprint, h) && WhatWebPlugins(whatweb(h.url)).Some?) ==>
                r.techStack == h.tech && r.versions == map[]
    ensures out.Some? ==>
              var h := decode(line).value;
              var r := out.value;
              FingerprintApplies(useFingerprint, h) && WhatWebPlugins(whatweb(h.url)).Some? ==>
                var plugins := WhatWebPlugins(whatweb(h.url)).value;
                && (forall p :: p in r.versions <==> p in plugins && |plugins[p].version| > 0)
                && (forall p :: p in r.versions ==> r.versions[p] == Join(plugins[p].version, ", "))
                && (forall x :: x in r.techStack <==> x in h.tech || x in plugins)
                && (forall k :: |h.tech| <= k < |r.techStack| ==> r.techStack[k] in plugins && r.techStack[k] !in h.tech)
                && (forall a, b :: |h.tech| <= a < b < |r.techStack| ==> r.techStack[a] != r.techStack[b])
  {
    match decode(line) {
      case None =>
        return None;
      case Some(h) =>
        var res := BuildResult(h, stamp, infra);
        if FingerprintApplies(useFingerprint, h) {
          match WhatWebPlugins(whatweb(h.url)) {
            case Some(plugins) =>
              var versions := Versions(plugins);
              var merged := MergePlugins(res.techStack, plugins.Keys);
              res := res.(versions := versions, techStack := merged);
            case None =>
          }
        }
        return Some(res);
    }
  }

  // =====================================================================
  // Output encoding
  // =====================================================================

  /** The keys every encoded Result carries, from the struct's json tags. */
  const AlwaysWritten: set<string> :=
    {"timestamp", "subdomain", "status_code", "title", "tech_stack", "vulnerabilities", "source"}

  /** The fields written for every Result, under their json tags. */
  function BaseObject(res: Result): (o: Object)
    ensures o.Keys == AlwaysWritten
    ensures o["timestamp"] == Str(res.timestamp) && o["subdomain"] == Str(res.subdomain)
    ensures o["status_code"] == Num(res.statusCode) && o["title"] == Str(res.title)
    ensures o["source"] == Str(res.source)
    ensures o["tech_stack"] == Null <==> res.techStack == []
    ensures o["tech_stack"].Arr? <==> res.techStack != []
    ensures o["tech_stack"].Arr? ==>
              |o["tech_stack"].items| == |res.techStack| &&
              forall k :: 0 <= k < |res.techStack| ==> o["tech_stack"].items[k] == Str(res.techStack[k])
    ensures o["vulnerabilities"].Arr? && |o["vulnerabilities"].items| == |res.vulnerabilities|
    ensures forall k :: 0 <= k < |res.vulnerabilities| ==> o["vulnerabilities"].items[k] == Obj(res.vulnerabilities[k])
  {
    map[
      "timestamp" := Str(res.timestamp),
      "subdomain" := Str(res.subdomain),
      "status_code" := Num(res.statusCode),
      "title" := Str(res.title),
      "tech_stack" := (if res.techStack == [] then Null
                       else Arr(seq(|res.techStack|, i requires 0 <= i < |res.techStack| => Str(res.techStack[i])))),
      "vulnerabilities" := Arr(seq(|res.vulnerabilities|, i requires 0 <= i < |res.vulnerabilities| => Obj(res.vulnerabilities[i]))),
      "source" := Str(res.source)]
  }

  /** The omitted-when-empty keys, and the error key, are none of the
      always-written ones. */
  lemma OptionalKeysAreNew()
    ensures "asn" !in AlwaysWritten && "org" !in AlwaysWritten && "versions" !in AlwaysWritten
    ensures "error" !in AlwaysWritten
  {
  }

  /** base with asn, org and versions added, each only when non-empty (the
      omitempty tags). */
  function WithOptionalFields(base: Object, asn: string, org: string, versions: map<string, string>): (o: Object)
    requires "asn" !in base && "org" !in base && "versions" !in base
    ensures o.Keys == base.Keys + (if asn != "" then {"asn"} else {})
                     + (if org != "" then {"org"} else {})
                     + (if versions != map[] then {"versions"} else {})
    ensures forall key :: key in base ==> o[key] == base[key]
    ensures "asn" in o ==> o["asn"] == Str(asn)
    ensures "org" in o ==> o["org"] == Str(org)
    ensures "versions" in o ==>
              o["versions"].Obj? &&
              (forall p :: p in o["versions"].fields <==> p in versions) &&
              forall p :: p in versions ==> o["versions"].fields[p] == Str(versions[p])
  {
    var withAsn := if asn != "" then base["asn" := Str(asn)] else base;
    var withOrg := if org != "" then withAsn["org" := Str(org)] else withAsn;
    if versions != map[] then
      withOrg["versions" := Obj(map p | p in versions :: Str(versions[p]))]
    else withOrg
  }

  /** The JSON object a Result is encoded as. A nil tech stack (the only
      empty one: it starts from a nil slice and only grows) is null; asn,
      org and versions are omitted when empty. */
  function EncodeResult(res: Result): (o: Object)
    ensures o.Keys == AlwaysWritten + (if res.asn != "" then {"asn"} else {})
                     + (if res.org != "" then {"org"} else {})
                     + (if res.versions != map[] then {"versions"} else {})
    ensures "error" !in o
    ensures forall key :: key in AlwaysWritten ==> o[key] == BaseObject(res)[key]
    ensures "asn" in o ==> o["asn"] == Str(res.asn)
    ensures "org" in o ==> o["org"] == Str(res.org)
    ensures "versions" in o ==>
              o["versions"].Obj? &&
              (forall p :: p in o["versions"].fields <==> p in res.versions) &&
              forall p :: p in res.versions ==> o["versions"].fields[p] == Str(res.versions[p])
  {
    OptionalKeysAreNew();
    WithOptionalFields(BaseObject(res), res.asn, res.org, res.versions)
  }

  // =====================================================================
  // Required binaries
  // =====================================================================

  /** The tools checked before a run, in checking order. */
  method RequiredBinaries(useDeep: bool, useFingerprint: bool) returns (bins: seq<string>)
    ensures |bins| >= 3 && bins[..3] == ["subfinder", "httpx", "nmap"]
    ensures "amass" in bins <==> useDeep
    ensures "whatweb" in bins <==> useFingerprint
    ensures useDeep && useFingerprint ==> bins[3] == "amass" && bins[4] == "whatweb"
    ensures |bins| == 3 + (if useDeep then 1 else 0) + (if useFingerprint then 1 else 0)
    ensures forall a, b :: 0 <= a < b < |bins| ==> bins[a] != bins[b]
  {
    bins := ["subfinder", "httpx", "nmap"];
    if useDeep {
      bins := bins + ["amass"];
    }
    if useFingerprint {
      bins := bins + ["whatweb"];
    }
  }

  /** The error record written for a missing tool. */
  function MissingBinaryError(bin: string): (o: Object)
    ensures "error" in o && o["error"] == Str("Missing binary: " + bin)
    ensures "message" in o && o["message"] == Str("Please install required tools in PATH")
  {
    map["error" := Str("Missing binary: " + bin), "message" := Str("Please install required tools in PATH")]
  }

  /** The tool a missing-binary error names can be read back from it. */
  lemma MissingBinaryNamed(bin: string)
    ensures var e := MissingBinaryError(bin)["error"].s;
            StartsWith(e, "Missing binary: ") && e[|"Missing binary: "|..] == bin
  {
    var e := "Missing binary: " + bin;
    assert e[..|"Missing binary: "|] == "Missing binary: ";
    assert e[|"Missing binary: "|..] == bin;
  }

  /** The check: the first tool not found on PATH stops the run with its
      error record; None when every tool is found. */
  method CheckBinaries(bins: seq<string>, onPath: string -> bool) returns (err: Option<Object>)
    ensures err.None? <==> forall i :: 0 <= i < |bins| ==> onPath(bins[i])
    ensures err.Some? ==>
              exists i :: 0 <= i < |bins| && !onPath(bins[i]) &&
                (forall j :: 0 <= j < i ==> onPath(bins[j])) &&
                err.value == MissingBinaryError(bins[i])
  {
    for i := 0 to |bins|
      invariant forall j :: 0 <= j < i ==> onPath(bins[j])
    {
      if !onPath(bins[i]) {
        return Some(MissingBinaryError(bins[i]));
      }
    }
    return None;
  }
}
