/** The pure triage helpers: the technology filter over recon rows, the
    scanner's empty-input guard and its error-string protocol, and the
    mapping of scanner tags to an OWASP-style category. */
module TriageLogic {
  import opened Wrappers
  import opened Json
  import opened Text

  // =====================================================================
  // filter_by_tech
  // =====================================================================

  /** The strings of a JSON list whose items are all strings; None for any
      other value. */
  function StringList(v: Value): (r: Option<seq<string>>)
    ensures r.Some? ==> v.Arr? && |r.value| == |v.items|
    ensures r.Some? ==> forall i :: 0 <= i < |r.value| ==> v.items[i] == Str(r.value[i])
    ensures v.Arr? && (forall i :: 0 <= i < |v.items| ==> v.items[i].Str?) ==> r.Some?
  {
    match v
    case Arr(items) =>
      if forall i | 0 <= i < |items| :: items[i].Str?
      then Some(seq(|items|, i requires 0 <= i < |items| => items[i].s))
      else None
    case _ => None
  }

  /** A row's tech_stack cell read as a list of tags. None when the row has
      no such key (pandas fills the cell with NaN) or the cell is not a list. */
  function TechStack(row: Object): (r: Option<seq<string>>)
    ensures "tech_stack" !in row ==> r.None?
    ensures r.Some? ==> "tech_stack" in row && row["tech_stack"].Arr? &&
                        |row["tech_stack"].items| == |r.value| &&
                        (forall i :: 0 <= i < |r.value| ==> row["tech_stack"].items[i] == Str(r.value[i]))
  {
    if "tech_stack" in row then StringList(row["tech_stack"]) else None
  }

  /** A frame built from rows has a column when some row carries that key. */
  predicate HasColumn(rows: seq<Object>, name: string)
  {
    exists i | 0 <= i < |rows| :: name in rows[i]
  }

  /** The mask of filter_by_tech for one row: the cell is a list and some tag
      contains the token, both lower-cased. */
  predicate TechMatches(row: Object, techName: string)
    ensures TechMatches(row, techName) ==> TechStack(row).Some? && |TechStack(row).value| > 0
    ensures TechMatches(row, techName) ==> "tech_stack" in row && row["tech_stack"].Arr?
  {
    match TechStack(row)
    case None => false
    case Some(tags) => exists i | 0 <= i < |tags| :: IsSubstring(Lower(techName), Lower(tags[i]))
  }

  /** `a` is obtained from `b` by deleting elements: same order, nothing added
      or altered. */
  ghost predicate IsSubsequence<T>(a: seq<T>, b: seq<T>)
    decreases |b|
  {
    if |b| == 0 then |a| == 0
    else (|a| > 0 && a[0] == b[0] && IsSubsequence(a[1..], b[1..])) || IsSubsequence(a, b[1..])
  }

  /** df[mask]: the rows whose mask entry is true, in order. */
  function KeepMatching(rows: seq<Object>, techName: string): (r: seq<Object>)
    ensures IsSubsequence(r, rows)
    ensures forall x :: x in r <==> x in rows && TechMatches(x, techName)
    ensures forall x :: multiset(r)[x] == if TechMatches(x, techName) then multiset(rows)[x] else 0
  {
    if |rows| == 0 then []
    else
      var rest := KeepMatching(rows[1..], techName);
      assert rows == [rows[0]] + rows[1..];
      if TechMatches(rows[0], techName) then
        assert ([rows[0]] + rest)[1..] == rest;
        [rows[0]] + rest
      else rest
  }

  /** The token's case does not matter: tokens equal up to ASCII case match
      the same rows. */
  lemma TechMatchesIgnoresCase(row: Object, a: string, b: string)
    requires Lower(a) == Lower(b)
    ensures TechMatches(row, a) <==> TechMatches(row, b)
  {
  }

  /** filter_by_tech(df, tech_name). */
  function FilterByTech(rows: seq<Object>, techName: string): (r: seq<Object>)
    ensures |rows| == 0 || !HasColumn(rows, "tech_stack") ==> r == rows
    ensures IsSubsequence(r, rows)
    ensures HasColumn(rows, "tech_stack") ==>
              forall x :: x in r <==> x in rows && TechMatches(x, techName)
    ensures HasColumn(rows, "tech_stack") ==>
              forall x :: multiset(r)[x] == if TechMatches(x, techName) then multiset(rows)[x] else 0
  {
    if |rows| == 0 || !HasColumn(rows, "tech_stack") then
      SubsequenceOfItself(rows);
      rows
    else KeepMatching(rows, techName)
  }

  lemma {:induction false} SubsequenceOfItself<T>(s: seq<T>)
    ensures IsSubsequence(s, s)
    decreases |s|
  {
    if |s| > 0 {
      SubsequenceOfItself(s[1..]);
    }
  }

  /** Rows that all match are kept as they are. */
  lemma {:induction false} KeepAllMatching(rows: seq<Object>, techName: string)
    requires forall i :: 0 <= i < |rows| ==> TechMatches(rows[i], techName)
    ensures KeepMatching(rows, techName) == rows
  {
    if |rows| > 0 {
      KeepAllMatching(rows[1..], techName);
      assert rows == [rows[0]] + rows[1..];
    }
  }

  /** Filtering twice with the same token is filtering once. */
  lemma FilterIdempotent(rows: seq<Object>, techName: string)
    ensures FilterByTech(FilterByTech(rows, techName), techName) == FilterByTech(rows, techName)
  {
    var once := FilterByTech(rows, techName);
    if |rows| > 0 && HasColumn(rows, "tech_stack") && |once| > 0 {
      assert once[0] in once;
      assert "tech_stack" in once[0];
      assert HasColumn(once, "tech_stack");
      forall i | 0 <= i < |once| ensures TechMatches(once[i], techName) {
        assert once[i] in once;
      }
      KeepAllMatching(once, techName);
    }
  }

  // =====================================================================
  // run_nuclei: the empty-input guard and the error-string protocol
  // =====================================================================

  /** The first character of every error string the scanner helper returns. */
  const ErrorMark: string := "\U{274C}"

  /** How the external scanner run ended; the process itself is not modelled. */
  datatype ScanOutcome =
    | BinaryMissing
    | ExitFailure(stderr: string)
    | Raised(message: string)
    | Finished(stdout: string)

  /** run_nuclei(selected_subdomains): with no targets it returns a notice
      without running anything; otherwise it reports the scanner's outcome,
      every failure as a string that starts with the error mark. */
  function RunNuclei(targets: seq<Value>, outcome: ScanOutcome): (out: string)
    ensures targets == [] ==> out == "No targets selected."
    ensures targets != [] && outcome.Finished? ==> out == outcome.stdout
    ensures targets != [] && !outcome.Finished? ==> StartsWith(out, ErrorMark)
  {
    if targets == [] then "No targets selected."
    else
      match outcome
      case BinaryMissing => ErrorMark + " Nuclei binary not found in PATH."
      case ExitFailure(stderr) => ErrorMark + " Nuclei Error:\n" + stderr
      case Raised(message) => ErrorMark + " Execution Error: " + message
      case Finished(stdout) => stdout
  }

  // =====================================================================
  // map_tags_to_category
  // =====================================================================

  /** The category table, in the dictionary's insertion order. */
  const Categories: seq<(string, seq<string>)> := [
    ("Injection", ["sqli", "xss", "lfi", "rce", "injection", "ssti", "crlf"]),
    ("Broken Access Control", ["auth", "bypass", "idor", "privesc", "access-control"]),
    ("Cryptographic Failures", ["ssl", "tls", "crypto", "weak-cipher"]),
    ("Security Misconfiguration", ["config", "misconfig", "default-login", "exposure"]),
    ("Vulnerable and Outdated Components", ["cve", "outdated", "version"]),
    ("Identification and Authentication Failures", ["login", "brute-force", "weak-password"]),
    ("SSRF", ["ssrf"]),
    ("Information Disclosure", ["exposure", "disclosure", "sensitive", "token", "key"])
  ]

  const Uncategorized: string := "Uncategorized"
  const Other: string := "Other"
  const Outdated: string := "Vulnerable and Outdated Components"

  /** Every value map_tags_to_category can return. */
  const Outcomes: seq<string> := [
    Categories[0].0, Categories[1].0, Categories[2].0, Categories[3].0,
    Categories[4].0, Categories[5].0, Categories[6].0, Categories[7].0,
    Uncategorized, Other
  ]

  /** The argument of map_tags_to_category: a string, a list of strings, or
      a value that is neither a string nor a list. A list holding a
      non-string is not represented. */
  datatype TagsArg = TagText(text: string) | TagList(tags: seq<string>) | NotTags

  /** The normalised tag list; None where the function returns
      "Uncategorized" before matching (falsy input, or neither str nor list).
      Text is split on ',' and each piece stripped and lower-cased; list
      entries are lower-cased only. */
  function NormalizeTags(arg: TagsArg): (r: Option<seq<string>>)
    ensures r.None? <==> arg == TagText("") || arg == TagList([]) || arg.NotTags?
    ensures r.Some? && arg.TagText? ==> |r.value| == |Split(arg.text, ',')|
    ensures r.Some? && arg.TagList? ==> |r.value| == |arg.tags|
    ensures r.Some? ==> forall i, k :: 0 <= i < |r.value| && 0 <= k < |r.value[i]| ==> !('A' <= r.value[i][k] <= 'Z')
  {
    match arg
    case TagText(s) =>
      if s == "" then None
      else
        var pieces := Split(s, ',');
        Some(seq(|pieces|, i requires 0 <= i < |pieces| => Lower(Strip(pieces[i]))))
    case TagList(ts) =>
      if ts == [] then None
      else Some(seq(|ts|, i requires 0 <= i < |ts| => Lower(ts[i])))
    case NotTags => None
  }

  /** The inner keyword loop: some keyword occurs in the tag. */
  function KeywordIn(keywords: seq<string>, tag: string): (b: bool)
    ensures b <==> exists m | 0 <= m < |keywords| :: IsSubstring(keywords[m], tag)
  {
    if |keywords| == 0 then false
    else
      IsSubstring(keywords[0], tag) || (
        var b := KeywordIn(keywords[1..], tag);
        assert forall m | 1 <= m < |keywords| :: keywords[m] == keywords[1..][m - 1];
        b)
  }

  /** The loop over tags for one category: an exact keyword, or a keyword
      occurring inside the tag. The exact test adds nothing to the substring
      test, so a category matches iff some keyword occurs in some tag. */
  function CategoryMatch(keywords: seq<string>, tags: seq<string>): (b: bool)
    ensures b <==> exists j, m | 0 <= j < |tags| && 0 <= m < |keywords| :: IsSubstring(keywords[m], tags[j])
  {
    if |tags| == 0 then false
    else if tags[0] in keywords then
      SubstringOfItself(tags[0]);
      true
    else
      KeywordIn(keywords, tags[0]) || (
        var b := CategoryMatch(keywords, tags[1..]);
        assert forall j | 1 <= j < |tags| :: tags[j] == tags[1..][j - 1];
        b)
  }

  /** Category i matches the tags: one of its keywords occurs in one of them. */
  ghost predicate Hits(i: nat, tags: seq<string>)
    requires i < |Categories|
  {
    exists j, m | 0 <= j < |tags| && 0 <= m < |Categories[i].1| :: IsSubstring(Categories[i].1[m], tags[j])
  }

  /** Category i is the first category, in table order, that matches. */
  ghost predicate IsFirstHit(i: nat, tags: seq<string>)
  {
    i < |Categories| && Hits(i, tags) && forall i' | 0 <= i' < i :: !Hits(i', tags)
  }

  /** The first pass from category k on: the first matching category's name. */
  function FirstPass(k: nat, tags: seq<string>): (r: Option<string>)
    requires k <= |Categories|
    ensures r.None? <==> forall i | k <= i < |Categories| :: !Hits(i, tags)
    ensures r.Some? ==> exists i | k <= i < |Categories| ::
              r.value == Categories[i].0 && Hits(i, tags) && forall i' | k <= i' < i :: !Hits(i', tags)
    decreases |Categories| - k
  {
    if k == |Categories| then None
    else
      var entry := Categories[k];
      if CategoryMatch(entry.1, tags) then
        assert Hits(k, tags);
        Some(entry.0)
      else
        assert !Hits(k, tags);
        var r := FirstPass(k + 1, tags);
        assert r.Some? ==> exists i | k + 1 <= i < |Categories| ::
                 r.value == Categories[i].0 && Hits(i, tags) && forall i' | k <= i' < i :: !Hits(i', tags) by {
          if r.Some? {
            var i :| k + 1 <= i < |Categories| &&
                     r.value == Categories[i].0 && Hits(i, tags) && forall i' | k + 1 <= i' < i :: !Hits(i', tags);
            assert forall i' | k <= i' < i :: !Hits(i', tags);
          }
        }
        r
  }

  /** The version-based second pass. */
  function VersionFallback(tags: seq<string>): (b: bool)
    ensures b <==> exists j | 0 <= j < |tags| ::
              IsSubstring("outdated", tags[j]) || IsSubstring("deprecated", tags[j]) || IsSubstring("cve", tags[j])
  {
    if |tags| == 0 then false
    else
      IsSubstring("outdated", tags[0]) || IsSubstring("deprecated", tags[0]) || IsSubstring("cve", tags[0]) || (
        var b := VersionFallback(tags[1..]);
        assert forall j | 1 <= j < |tags| :: tags[j] == tags[1..][j - 1];
        b)
  }

  /** The category of normalised tags: the first pass, then the fallback. */
  function Classify(tags: seq<string>): (r: string)
    ensures r in Outcomes && r != Uncategorized
  {
    match FirstPass(0, tags)
    case Some(c) => c
    case None => if VersionFallback(tags) then Outdated else Other
  }

  /** map_tags_to_category(tags_list). */
  function MapTagsToCategory(arg: TagsArg): (r: string)
    ensures r in Outcomes
    ensures r == Uncategorized <==> NormalizeTags(arg).None?
  {
    match NormalizeTags(arg)
    case None => Uncategorized
    case Some(tags) => Classify(tags)
  }

  /** Falsy arguments and arguments that are neither text nor a list are
      "Uncategorized". */
  lemma FalsyIsUncategorized(arg: TagsArg)
    requires arg == TagText("") || arg == TagList([]) || arg == NotTags
    ensures MapTagsToCategory(arg) == Uncategorized
  {
  }

  /** Some earlier category hit comes first. */
  lemma {:induction false} FirstHitExists(i: nat, tags: seq<string>)
    requires i < |Categories| && Hits(i, tags)
    ensures exists i0 | 0 <= i0 <= i :: IsFirstHit(i0, tags)
    decreases i
  {
    if forall i' | 0 <= i' < i :: !Hits(i', tags) {
      assert IsFirstHit(i, tags);
    } else {
      var i' :| 0 <= i' < i && Hits(i', tags);
      FirstHitExists(i', tags);
    }
  }

  lemma CategoryNamesDistinct()
    ensures forall a, b | 0 <= a < b < |Categories| :: Categories[a].0 != Categories[b].0
  {
  }

  /** Priority: the first matching category is the answer, and apart from
      "Vulnerable and Outdated Components" (which the fallback can also give)
      a category is only returned when it is the first to match. */
  lemma CategoryPriority(tags: seq<string>, i: nat)
    requires i < |Categories|
    ensures IsFirstHit(i, tags) ==> Classify(tags) == Categories[i].0
    ensures Classify(tags) == Categories[i].0 && i != 4 ==> IsFirstHit(i, tags)
  {
    CategoryNamesDistinct();
    var r := FirstPass(0, tags);
    if IsFirstHit(i, tags) {
      assert r.Some?;
      var i0 :| 0 <= i0 < |Categories| && r.value == Categories[i0].0 && Hits(i0, tags)
                && forall i' | 0 <= i' < i0 :: !Hits(i', tags);
      assert i0 == i;
    }
    if Classify(tags) == Categories[i].0 && i != 4 {
      assert Categories[i].0 != Outdated && Categories[i].0 != Other;
      assert r.Some?;
      var i0 :| 0 <= i0 < |Categories| && r.value == Categories[i0].0 && Hits(i0, tags)
                && forall i' | 0 <= i' < i0 :: !Hits(i', tags);
      assert i0 == i;
    }
  }

  /** When no category matches, the fallback gives "Vulnerable and Outdated
      Components" exactly when a tag contains "deprecated" ("outdated" and
      "cve" are keywords of the first pass), and "Other" otherwise. */
  lemma FallbackOnlyForDeprecated(tags: seq<string>)
    requires forall i | 0 <= i < |Categories| :: !Hits(i, tags)
    ensures Classify(tags) == Outdated <==> exists j | 0 <= j < |tags| :: IsSubstring("deprecated", tags[j])
    ensures Classify(tags) != Outdated ==> Classify(tags) == Other
  {
    assert !Hits(4, tags);
    assert Categories[4].1[0] == "cve" && Categories[4].1[1] == "outdated";
    forall j | 0 <= j < |tags|
      ensures !IsSubstring("cve", tags[j]) && !IsSubstring("outdated", tags[j])
    {
      assert !IsSubstring(Categories[4].1[0], tags[j]);
      assert !IsSubstring(Categories[4].1[1], tags[j]);
    }
  }

  /** A tag containing "exposure" makes the third-or-earlier category
      "Security Misconfiguration" match, so "Information Disclosure" (which
      lists the same keyword) can never be returned for it. */
  lemma ExposureIsMisconfiguration(tags: seq<string>, j: nat)
    requires j < |tags| && IsSubstring("exposure", tags[j])
    ensures Classify(tags) in Outcomes[..4]
    ensures Classify(tags) != "Information Disclosure"
  {
    assert Categories[3].1[3] == "exposure";
    assert Hits(3, tags);
    FirstHitExists(3, tags);
    var i0 :| 0 <= i0 <= 3 && IsFirstHit(i0, tags);
    CategoryPriority(tags, i0);
  }

  /** The example tags are already lower-case, so normalising keeps them. */
  lemma ExampleTagsNormalized(tags: seq<string>)
    requires tags == ["cve-2021-1234", "auth-bypass"]
    ensures NormalizeTags(TagList(tags)) == Some(tags)
  {
    var lowered := seq(|tags|, i requires 0 <= i < |tags| => Lower(tags[i]));
    assert lowered[0] == Lower(tags[0]) == tags[0];
    assert lowered[1] == Lower(tags[1]) == tags[1];
    assert lowered == tags;
  }

  /** No injection keyword occurs in the example tags: each keyword holds a
      letter neither tag has. */
  lemma ExampleTagsNotInjection(tags: seq<string>)
    requires tags == ["cve-2021-1234", "auth-bypass"]
    ensures !Hits(0, tags)
  {
    var inj := Categories[0].1;
    var chars := ['q', 'x', 'l', 'r', 'j', 'i', 'l'];
    forall j, m | 0 <= j < |tags| && 0 <= m < |inj|
      ensures !IsSubstring(inj[m], tags[j])
    {
      assert chars[m] in inj[m];
      NotSubstringByChar(inj[m], tags[j], chars[m]);
    }
  }

  /** ["cve-2021-1234", "auth-bypass"] is "Broken Access Control": priority 2
      wins over priority 5. */
  lemma ExampleAuthBypassBeatsCve()
    ensures MapTagsToCategory(TagList(["cve-2021-1234", "auth-bypass"])) == "Broken Access Control"
  {
    var tags := ["cve-2021-1234", "auth-bypass"];
    ExampleTagsNormalized(tags);
    ExampleTagsNotInjection(tags);
    assert Categories[1].1[0] == "auth";
    SubstringAt("auth", tags[1], 0);
    assert Hits(1, tags);
    assert IsFirstHit(1, tags);
    CategoryPriority(tags, 1);
  }

  /** Lower-casing keeps whitespace and commas where they are. */
  lemma LowerKeepsLayout(t: string)
    ensures |Lower(t)| == |t|
    ensures forall k :: 0 <= k < |t| ==> (IsSpace(Lower(t)[k]) <==> IsSpace(t[k]))
    ensures forall k :: 0 <= k < |t| ==> (Lower(t)[k] == ',' <==> t[k] == ',')
  {
  }

  /** Text input: one tag per comma-separated piece, the piece stripped and
      lower-cased, so that it holds no comma, no capital and no whitespace at
      either end. */
  lemma {:induction false} TextTagsAreStripped(s: string)
    requires s != ""
    ensures NormalizeTags(TagText(s)).Some?
    ensures var tags := NormalizeTags(TagText(s)).value;
            |tags| == |Split(s, ',')| &&
            (forall i :: 0 <= i < |tags| ==> tags[i] == Lower(Strip(Split(s, ',')[i]))) &&
            (forall i, k :: 0 <= i < |tags| && 0 <= k < |tags[i]| ==> !('A' <= tags[i][k] <= 'Z')) &&
            forall i :: 0 <= i < |tags| ==>
              ',' !in tags[i] && (tags[i] == [] || (!IsSpace(tags[i][0]) && !IsSpace(tags[i][|tags[i]| - 1])))
  {
    var pieces := Split(s, ',');
    var tags := NormalizeTags(TagText(s)).value;
    assert |tags| == |pieces|;
    forall i | 0 <= i < |tags|
      ensures tags[i] == Lower(Strip(pieces[i]))
      ensures forall k :: 0 <= k < |tags[i]| ==> !('A' <= tags[i][k] <= 'Z')
      ensures ',' !in tags[i] && (tags[i] == [] || (!IsSpace(tags[i][0]) && !IsSpace(tags[i][|tags[i]| - 1])))
    {
      StrippedPiece(pieces[i]);
    }
  }

  /** One comma-free piece, stripped and lower-cased, is comma-free and has
      no whitespace at either end. */
  lemma StrippedPiece(p: string)
    requires ',' !in p
    ensures var t := Lower(Strip(p));
            ',' !in t && (t == [] || (!IsSpace(t[0]) && !IsSpace(t[|t| - 1])))
  {
    StripKeepsChars(p);
    var st := Strip(p);
    assert ',' !in st;
    LowerKeepsLayout(st);
  }

  /** List input: each tag is only lower-cased, so its whitespace stays. */
  lemma ListTagsKeepWhitespace(ts: seq<string>)
    requires ts != []
    ensures NormalizeTags(TagList(ts)).Some?
    ensures var tags := NormalizeTags(TagList(ts)).value;
            |tags| == |ts| &&
            (forall i :: 0 <= i < |ts| ==> tags[i] == Lower(ts[i])) &&
            (forall i, k :: 0 <= i < |tags| && 0 <= k < |tags[i]| ==> !('A' <= tags[i][k] <= 'Z')) &&
            forall i :: 0 <= i < |ts| ==>
              (|tags[i]| == |ts[i]| && forall k :: 0 <= k < |ts[i]| ==> (IsSpace(tags[i][k]) <==> IsSpace(ts[i][k])))
  {
    var tags := NormalizeTags(TagList(ts)).value;
    forall i | 0 <= i < |ts|
      ensures |tags[i]| == |ts[i]| && forall k :: 0 <= k < |ts[i]| ==> (IsSpace(tags[i][k]) <==> IsSpace(ts[i][k]))
    {
      LowerKeepsLayout(ts[i]);
    }
  }
}
