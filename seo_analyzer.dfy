/**
 * The `seo_analyze` tool: a local scorecard for a page or post. The score starts at 100,
 * each failed check deducts a fixed number of points and records an issue, each passed check
 * records a note, and the result is clamped at 0 and mapped to a letter grade.
 */
module SeoAnalyzer {
  import opened Common
  import opened Text
  import opened Numerals

  /** The tool's arguments. */
  datatype Args = Args(
    title: string,
    metaDescription: Option<string>,
    body: string,
    targetKeywords: Option<seq<string>>,
    url: Option<string>)

  /** The outcome of one check: the points it deducts and the issue or note it records. */
  datatype Check = Check(deduction: nat, issue: Option<string>, pass: Option<string>)

  /** The texts of the issues and notes. */
  const TitleShortHead := "Title too short ("
  const TitleShortTail := "). Aim for 50-60."
  const TitleLongHead := "Title too long ("
  const TitleLongTail := "). Trim to 50-60."
  const TitleOkHead := "Title length OK ("
  const MetaMissing := "Missing meta description. Add a 150-160 char excerpt."
  const MetaShortHead := "Meta description short ("
  const MetaShortTail := "). Aim for 150-160."
  const MetaLongHead := "Meta description long ("
  const MetaLongTail := "). Trim to 150-160."
  const MetaOkHead := "Meta description length OK ("
  const ThinHead := "Content too thin ("
  const ThinTail := "). Aim for 800+ for authority."
  const ShortHead := "Content adequate but short ("
  const ShortTail := "). 1,200+ recommended for thought leadership."
  const StrongHead := "Word count strong ("
  const NoHeadings := "No H2 headings detected. Add subheadings every 250-300 words."
  const HeadingsHead := "Heading structure: "
  const KeywordHead := "Keyword \""
  const NotFoundTail := "\" not found in content."
  const OverTail := "\" may be over-optimized ("
  const FoundTail := "\": "
  const OccurrencesTail := " occurrences ("
  const SlugLongHead := "URL slug too long ("
  const SlugLongTail := "). Keep under 60."
  const SlugUpper := "URL contains uppercase letters. Use lowercase only."
  const SlugUnderscore := "URL uses underscores. Use hyphens instead."
  const SlugOk := "URL slug format OK"

  function Issue(points: nat, message: string): Check { Check(points, Some(message), None) }
  function Pass(message: string): Check { Check(0, None, Some(message)) }

  /** A check records an issue exactly when it deducts points. */
  predicate Consistent(c: Check) {
    c.issue.Some? <==> c.deduction > 0
  }

  function Chars(n: nat): string { NatToString(n) + " chars" }

  /** Title: under 30 code units deducts 10, over 65 deducts 5, otherwise it passes. */
  function TitleCheck(title: string): (c: Check)
    ensures Consistent(c) && (c.issue.Some? != c.pass.Some?)
    ensures c.deduction in {0, 5, 10}
    ensures c.deduction == 0 <==> 30 <= JsLength(title) <= 65
    ensures c.deduction == 10 <==> JsLength(title) < 30
  {
    var n := JsLength(title);
    if n < 30 then Issue(10, TitleShortHead + Chars(n) + TitleShortTail)
    else if n > 65 then Issue(5, TitleLongHead + Chars(n) + TitleLongTail)
    else Pass(TitleOkHead + Chars(n) + ")")
  }

  /**
   * Twenty characters outside the Basic Multilingual Plane are forty code units: such a title
   * passes, although it has fewer than thirty characters.
   */
  lemma AstralTitlePasses(title: string)
    requires |title| == 20 && forall i :: 0 <= i < |title| ==> (title[i] as int) >= 0x10000
    ensures TitleCheck(title).deduction == 0
  {
    JsLengthOfAstral(title);
  }

  /** Meta description: missing or empty deducts 15, under 120 deducts 5, over 165 deducts 3. */
  function MetaCheck(meta: Option<string>): (c: Check)
    ensures Consistent(c) && (c.issue.Some? != c.pass.Some?)
    ensures c.deduction in {0, 3, 5, 15}
    ensures c.deduction == 15 <==> meta.None? || meta.value == ""
    ensures c.deduction == 0 <==> meta.Some? && 120 <= JsLength(meta.value) <= 165
  {
    if meta.None? || meta.value == "" then Issue(15, MetaMissing)
    else
      var n := JsLength(meta.value);
      if n < 120 then Issue(5, MetaShortHead + Chars(n) + MetaShortTail)
      else if n > 165 then Issue(3, MetaLongHead + Chars(n) + MetaLongTail)
      else Pass(MetaOkHead + Chars(n) + ")")
  }

  function Words(n: nat): string { NatToString(n) + " words" }

  /** Word count: under 300 deducts 20, under 800 deducts 5. */
  function WordCheck(wordCount: nat): (c: Check)
    ensures Consistent(c) && (c.issue.Some? != c.pass.Some?)
    ensures c.deduction == (if wordCount < 300 then 20 else if wordCount < 800 then 5 else 0)
  {
    if wordCount < 300 then Issue(20, ThinHead + Words(wordCount) + ThinTail)
    else if wordCount < 800 then
      Issue(5, ShortHead + Words(wordCount) + ShortTail)
    else Pass(StrongHead + Words(wordCount) + ")")
  }

  /** The line terminators after which `^` matches in a multiline regular expression. */
  predicate IsLineTerminator(c: char) {
    c == '\n' || c == '\r' || c == '\U{2028}' || c == '\U{2029}'
  }

  /** Position `i` starts a line of `s`. */
  predicate AtLineStart(s: string, i: nat)
    requires i <= |s|
  {
    i == 0 || IsLineTerminator(s[i - 1])
  }

  /**
   * `(s.match(/^marker/gm) || []).length` counted from position `i`: the line starts from `i`
   * on where `marker` begins. A marker without line terminators cannot overlap the next line
   * start, so every such position is one match.
   */
  function LineStartsFrom(s: string, marker: string, i: nat): (n: nat)
    requires i <= |s|
    ensures n <= |s| - i + 1
    decreases |s| - i
  {
    (if AtLineStart(s, i) && StartsWith(s[i..], marker) then 1 else 0)
    + (if i < |s| then LineStartsFrom(s, marker, i + 1) else 0)
  }

  function LineStarts(s: string, marker: string): nat {
    LineStartsFrom(s, marker, 0)
  }

  /** No line from `i` on starts with the marker exactly when the count from `i` is zero. */
  lemma {:induction false} LineStartsZero(s: string, marker: string, i: nat)
    requires i <= |s|
    ensures LineStartsFrom(s, marker, i) == 0 <==>
            forall j :: i <= j <= |s| ==> !(AtLineStart(s, j) && StartsWith(s[j..], marker))
    decreases |s| - i
  {
    if i < |s| {
      LineStartsZero(s, marker, i + 1);
    }
  }

  /** Headings: no "## " line in a text of more than 300 words deducts 10. */
  function HeadingCheck(h2: nat, h3: nat, wordCount: nat): (c: Check)
    ensures Consistent(c) && (c.issue.Some? != c.pass.Some?)
    ensures c.deduction == (if h2 == 0 && wordCount > 300 then 10 else 0)
  {
    if h2 == 0 && wordCount > 300 then Issue(10, NoHeadings)
    else Pass(HeadingsHead + NatToString(h2) + " H2, " + NatToString(h3) + " H3")
  }

  /**
   * `(s.match(new RegExp(escaped(p), "g")) || []).length`: the non-overlapping occurrences of
   * `p` in `s` from the left. The empty pattern matches at every UTF-16 position, since the
   * expression has no `u` flag: `JsLength(s) + 1` times, once more than the code units.
   */
  function Occurrences(s: string, p: string): (n: nat)
    ensures p != [] ==> n * |p| <= |s|
    ensures p == [] ==> |s| + 1 <= n <= 2 * |s| + 1
    decreases |s|
  {
    if p == [] then JsLength(s) + 1
    else if |s| < |p| then 0
    else if StartsWith(s, p) then 1 + Occurrences(s[|p|..], p)
    else Occurrences(s[1..], p)
  }

  /** A non-empty keyword has no match exactly when it does not occur in the text. */
  lemma {:induction false} OccurrencesZeroIffAbsent(s: string, p: string)
    requires p != []
    ensures Occurrences(s, p) == 0 <==> !Contains(s, p)
    decreases |s|
  {
    if |s| < |p| {
      NotContainsShorter(s, p);
    } else if !StartsWith(s, p) {
      OccurrencesZeroIffAbsent(s[1..], p);
    }
  }

  /** An empty keyword matches three times in a single emoji, which is two code units long. */
  lemma EmptyKeywordInEmoji()
    ensures Occurrences("\U{1F600}", "") == 3
  {
    assert "\U{1F600}"[1..] == [];
  }

  lemma {:induction false} NotContainsShorter(s: string, p: string)
    requires |s| < |p|
    ensures !Contains(s, p)
    decreases |s|
  {
    if |s| > 0 {
      NotContainsShorter(s[1..], p);
    }
  }

  /**
   * `((matches / wordCount) * 100).toFixed(2)` in hundredths of a percent: the nearest integer
   * to `10000 * matches / wordCount`, halves rounded up; `None` stands for "Infinity", the
   * value when there are matches but no words.
   */
  function DensityHundredths(matches: nat, wordCount: nat): (d: Option<nat>)
    requires matches > 0
    ensures d.None? <==> wordCount == 0
  {
    if wordCount == 0 then None
    else
      var q := (20000 * matches + wordCount) / (2 * wordCount);
      Some(q)
  }

  /** The density is `10000 * matches / wordCount` rounded to the nearest integer, halves up. */
  lemma DensityRounds(matches: nat, wordCount: nat)
    requires matches > 0 && wordCount > 0
    ensures var d := DensityHundredths(matches, wordCount).value;
            2 * wordCount * d <= 20000 * matches + wordCount < 2 * wordCount * (d + 1)
  {
    var n, k := 20000 * matches + wordCount, 2 * wordCount;
    var q := n / k;
    assert n == k * q + n % k && 0 <= n % k < k;
  }

  /** The density as `toFixed(2)` prints it, followed by "%". */
  function DensityText(d: Option<nat>): string {
    match d
    case None => "Infinity%"
    case Some(h) => NatToString(h / 100) + "." + [Digit(h % 100 / 10), Digit(h % 10)] + "%"
  }

  /** `parseFloat(density) > 3`: the printed density exceeds 3.00. */
  predicate OverOptimized(d: Option<nat>) {
    d.None? || d.value > 300
  }

  /** One keyword: no match deducts 5, a density above 3% deducts 3. */
  function KeywordCheck(kw: string, bodyLower: string, wordCount: nat): (c: Check)
    ensures Consistent(c) && (c.issue.Some? != c.pass.Some?)
    ensures c.deduction == 5 <==> Occurrences(bodyLower, ToLower(kw)) == 0
    ensures c.deduction in {0, 3, 5}
  {
    var m := Occurrences(bodyLower, ToLower(kw));
    if m == 0 then Issue(5, KeywordHead + kw + NotFoundTail)
    else
      var d := DensityHundredths(m, wordCount);
      if OverOptimized(d) then Issue(3, KeywordHead + kw + OverTail + DensityText(d) + ").")
      else Pass(KeywordHead + kw + FoundTail + NatToString(m) + OccurrencesTail + DensityText(d) + ")")
  }

  /** The keyword checks in list order. */
  function KeywordChecks(kws: seq<string>, bodyLower: string, wordCount: nat): (cs: seq<Check>)
    ensures |cs| == |kws|
    ensures forall i :: 0 <= i < |kws| ==> cs[i] == KeywordCheck(kws[i], bodyLower, wordCount)
    decreases |kws|
  {
    if kws == [] then []
    else
      var n := |kws| - 1;
      KeywordChecks(kws[..n], bodyLower, wordCount) + [KeywordCheck(kws[n], bodyLower, wordCount)]
  }

  /** `args.url.split("/").pop() || ""`. */
  function Slug(url: string): (slug: string)
    ensures '/' !in slug
  {
    var pieces := Split(url, '/');
    pieces[|pieces| - 1]
  }

  /** Slug checks: over 75 code units deducts 3, an upper-case letter 2, an underscore 2. */
  function SlugChecks(slug: string): (cs: seq<Check>)
    ensures forall i :: 0 <= i < |cs| ==> Consistent(cs[i])
    ensures (exists i :: 0 <= i < |cs| && cs[i].pass.Some?) <==> (JsLength(slug) <= 75 && !HasUpperAscii(slug) && '_' !in slug)
  {
    var n := JsLength(slug);
    var long := if n > 75 then [Issue(3, SlugLongHead + Chars(n) + SlugLongTail)] else [];
    var upper := if HasUpperAscii(slug) then [Issue(2, SlugUpper)] else [];
    var underscore := if '_' in slug then [Issue(2, SlugUnderscore)] else [];
    var ok := if !HasUpperAscii(slug) && '_' !in slug && n <= 75 then [Pass(SlugOk)] else [];
    var cs := long + upper + underscore + ok;
    assert forall i :: 0 <= i < |long + upper + underscore| ==> (long + upper + underscore)[i].pass.None?;
    assert ok != [] ==> cs[|cs| - 1].pass.Some?;
    cs
  }

  /** The four checks every run performs: title, meta description, word count and headings. */
  function FixedChecks(args: Args): seq<Check> {
    FixedChecksOf(args.title, args.metaDescription, |Tokens(args.body)|,
                  LineStarts(args.body, "## "), LineStarts(args.body, "### "))
  }

  /** The four fixed checks, given the counts taken from the body. */
  function FixedChecksOf(title: string, meta: Option<string>, wordCount: nat, h2: nat, h3: nat): (cs: seq<Check>)
    ensures |cs| == 4 && AllConsistent(cs)
    ensures cs[0].deduction <= 10 && cs[1].deduction <= 15 && cs[2].deduction <= 20 && cs[3].deduction <= 10
  {
    var cs := [TitleCheck(title), MetaCheck(meta), WordCheck(wordCount), HeadingCheck(h2, h3, wordCount)];
    assert Consistent(cs[0]) && Consistent(cs[1]) && Consistent(cs[2]) && Consistent(cs[3]);
    cs
  }

  /** The keyword checks, run only for a non-empty keyword list. */
  function KeywordPart(args: Args): seq<Check> {
    if args.targetKeywords.Some? && args.targetKeywords.value != [] then
      KeywordChecks(args.targetKeywords.value, ToLower(args.body), |Tokens(args.body)|)
    else []
  }

  /** The slug checks, run only for a non-empty URL. */
  function SlugPart(args: Args): seq<Check> {
    if args.url.Some? && args.url.value != "" then SlugChecks(Slug(args.url.value)) else []
  }

  /** Every check of a run, in the order the tool performs them. */
  function Checks(args: Args): seq<Check> {
    FixedChecks(args) + KeywordPart(args) + SlugPart(args)
  }

  function TotalDeduction(cs: seq<Check>): nat
    decreases |cs|
  {
    if cs == [] then 0 else TotalDeduction(cs[..|cs| - 1]) + cs[|cs| - 1].deduction
  }

  function IssuesOf(cs: seq<Check>): seq<string>
    decreases |cs|
  {
    if cs == [] then []
    else
      var c := cs[|cs| - 1];
      IssuesOf(cs[..|cs| - 1]) + (if c.issue.Some? then [c.issue.value] else [])
  }

  function PassedOf(cs: seq<Check>): seq<string>
    decreases |cs|
  {
    if cs == [] then []
    else
      var c := cs[|cs| - 1];
      PassedOf(cs[..|cs| - 1]) + (if c.pass.Some? then [c.pass.value] else [])
  }

  /** `Math.max(0, score)`. */
  function Clamp(score: int): (r: nat)
    ensures r >= score && (score >= 0 ==> r == score)
  {
    if score < 0 then 0 else score
  }

  datatype Grade = A | B | C | D | F

  /** The letter grade: A from 90, B from 75, C from 60, D from 40, F below. */
  function GradeOf(score: int): Grade {
    if score >= 90 then A else if score >= 75 then B else if score >= 60 then C else if score >= 40 then D else F
  }

  /** The rank of a grade, A highest. */
  function Rank(g: Grade): nat {
    match g case A => 4 case B => 3 case C => 2 case D => 1 case F => 0
  }

  /** A higher score never earns a lower grade. */
  lemma GradeMonotone(s: int, t: int)
    requires s <= t
    ensures Rank(GradeOf(s)) <= Rank(GradeOf(t))
  {
  }

  /** The scorecard the tool returns; `keywords` maps each keyword to its match count. */
  datatype Scorecard = Scorecard(
    score: nat,
    grade: Grade,
    wordCount: nat,
    issues: seq<string>,
    passed: seq<string>,
    keywords: Option<map<string, KeywordStat>>)

  /** The keyword report: the last check of each keyword wins, as in a property assignment. */
  /** An entry of `keywordReport`: the match count and the density text. */
  datatype KeywordStat = KeywordStat(count: nat, density: string)

  /**
   * `${((matches / wordCount) * 100).toFixed(2)}%`: "0.00%" without a match, "NaN%" for 0/0,
   * otherwise the rounded hundredths (or "Infinity%").
   */
  function Density(matches: nat, wordCount: nat): (t: string)
    ensures matches == 0 && wordCount > 0 ==> t == "0.00%"
    ensures matches == 0 && wordCount == 0 ==> t == "NaN%"
    ensures matches > 0 ==> t == DensityText(DensityHundredths(matches, wordCount))
  {
    if matches == 0 then (if wordCount == 0 then "NaN%" else "0.00%")
    else DensityText(DensityHundredths(matches, wordCount))
  }

  /** `{ count: matches.length, density }` for one keyword. */
  function Stat(kw: string, bodyLower: string, wordCount: nat): KeywordStat {
    var m := Occurrences(bodyLower, ToLower(kw));
    KeywordStat(m, Density(m, wordCount))
  }

  /** `keywordReport` after the loop: a later copy of a keyword overwrites an earlier one with the same entry. */
  function KeywordReport(kws: seq<string>, bodyLower: string, wordCount: nat): (m: map<string, KeywordStat>)
    ensures m.Keys == set i | 0 <= i < |kws| :: kws[i]
    ensures forall k :: k in m ==> m[k] == Stat(k, bodyLower, wordCount)
    decreases |kws|
  {
    if kws == [] then map[]
    else
      var n := |kws| - 1;
      var m := KeywordReport(kws[..n], bodyLower, wordCount);
      ElementsSnoc(kws, kws[..n]);
      m[kws[n] := Stat(kws[n], bodyLower, wordCount)]
  }

  /** The keywords of a list are those before its last one, and the last one. */
  lemma ElementsSnoc(kws: seq<string>, front: seq<string>)
    requires kws != [] && front == kws[..|kws| - 1]
    ensures (set i | 0 <= i < |kws| :: kws[i])
         == (set i | 0 <= i < |front| :: front[i]) + {kws[|kws| - 1]}
  {
    assert forall i :: 0 <= i < |front| ==> front[i] == kws[i];
  }

  /**
   * The scorecard of a run: 100 less every deduction, clamped at 0, its grade, the word count,
   * the issues and notes in check order, and the keyword report when keywords were given.
   */
  function Report(args: Args): Scorecard {
    var score := Clamp(100 - TotalDeduction(Checks(args)));
    var kws := args.targetKeywords;
    Scorecard(score, GradeOf(score), |Tokens(args.body)|, IssuesOf(Checks(args)), PassedOf(Checks(args)),
              if kws.Some? && kws.value != [] then Some(KeywordReport(kws.value, ToLower(args.body), |Tokens(args.body)|)) else None)
  }

  /**
   * `seoAnalyzerTool.execute`. The score is decreased check by check, the issues and notes
   * are pushed in check order, and the keyword loop fills the report.
   */
  method Analyze(args: Args) returns (card: Scorecard)
    ensures card == Report(args)
  {
    var wordCount := |Tokens(args.body)|;
    var fixed := FixedChecks(args);
    var score, issues, passed := ApplyAll(100, [], [], [], fixed);
    assert [] + fixed == fixed;
    var report;
    score, issues, passed, report := KeywordStage(args, score, issues, passed, fixed);
    var keywordPart := KeywordPart(args);
    var slugPart := SlugPart(args);
    score, issues, passed := ApplyAll(score, issues, passed, fixed + keywordPart, slugPart);
    assert Checks(args) == fixed + keywordPart + slugPart;
    var finalScore := Clamp(score);
    card := Scorecard(finalScore, GradeOf(finalScore), wordCount, issues, passed,
                      if report != map[] then Some(report) else None);
    ReportFrom(args, score, issues, passed, report);
  }

  /** The scorecard assembled from the totals of every check is the report. */
  lemma ReportFrom(args: Args, score: int, issues: seq<string>, passed: seq<string>, report: map<string, KeywordStat>)
    requires score == 100 - TotalDeduction(Checks(args))
    requires issues == IssuesOf(Checks(args)) && passed == PassedOf(Checks(args))
    requires report != map[] <==> args.targetKeywords.Some? && args.targetKeywords.value != []
    requires report != map[] ==> report == KeywordReport(args.targetKeywords.value, ToLower(args.body), |Tokens(args.body)|)
    ensures Scorecard(Clamp(score), GradeOf(Clamp(score)), |Tokens(args.body)|, issues, passed,
                      if report != map[] then Some(report) else None) == Report(args)
  {
  }

  /** The keyword stage: the loop runs only for a non-empty keyword list. */
  method KeywordStage(args: Args, score: int, issues: seq<string>, passed: seq<string>, done: seq<Check>)
    returns (score': int, issues': seq<string>, passed': seq<string>, report: map<string, KeywordStat>)
    requires score == 100 - TotalDeduction(done)
    requires issues == IssuesOf(done) && passed == PassedOf(done)
    ensures var all := done + KeywordPart(args);
            score' == 100 - TotalDeduction(all) && issues' == IssuesOf(all) && passed' == PassedOf(all)
    ensures report != map[] <==> args.targetKeywords.Some? && args.targetKeywords.value != []
    ensures report != map[] ==> report == KeywordReport(args.targetKeywords.value, ToLower(args.body), |Tokens(args.body)|)
  {
    if args.targetKeywords.Some? && args.targetKeywords.value != [] {
      score', issues', passed', report :=
        CheckKeywords(score, issues, passed, done, args.targetKeywords.value, ToLower(args.body), |Tokens(args.body)|);
    } else {
      score', issues', passed', report := score, issues, passed, map[];
      assert done + KeywordPart(args) == done;
    }
  }

  /** The keyword loop: each keyword is checked in order and its match count recorded. */
  method CheckKeywords(score: int, issues: seq<string>, passed: seq<string>, done: seq<Check>,
                       kws: seq<string>, bodyLower: string, wordCount: nat)
    returns (score': int, issues': seq<string>, passed': seq<string>, report: map<string, KeywordStat>)
    requires kws != []
    requires score == 100 - TotalDeduction(done)
    requires issues == IssuesOf(done) && passed == PassedOf(done)
    ensures var all := done + KeywordChecks(kws, bodyLower, wordCount);
            score' == 100 - TotalDeduction(all) && issues' == IssuesOf(all) && passed' == PassedOf(all)
    ensures report == KeywordReport(kws, bodyLower, wordCount) && report != map[]
  {
    score', issues', passed' := score, issues, passed;
    report := map[];
    var j := 0;
    assert done + KeywordChecks(kws[..0], bodyLower, wordCount) == done;
    while j < |kws|
      invariant 0 <= j <= |kws|
      invariant var all := done + KeywordChecks(kws[..j], bodyLower, wordCount);
                score' == 100 - TotalDeduction(all) && issues' == IssuesOf(all) && passed' == PassedOf(all)
      invariant report == KeywordReport(kws[..j], bodyLower, wordCount)
    {
      var kw := kws[j];
      var c := KeywordCheck(kw, bodyLower, wordCount);
      report := report[kw := Stat(kw, bodyLower, wordCount)];
      var all := done + KeywordChecks(kws[..j], bodyLower, wordCount);
      Record(all, c);
      score', issues', passed' := Apply(score', issues', passed', c);
      KeywordStep(kws, j, bodyLower, wordCount, done);
      j := j + 1;
    }
    assert kws[..|kws|] == kws;
    assert kws[0] in report;
  }

  /** One more keyword appends its check and records its count. */
  lemma KeywordStep(kws: seq<string>, j: nat, bodyLower: string, wordCount: nat, done: seq<Check>)
    requires j < |kws|
    ensures done + KeywordChecks(kws[..j + 1], bodyLower, wordCount)
            == done + KeywordChecks(kws[..j], bodyLower, wordCount) + [KeywordCheck(kws[j], bodyLower, wordCount)]
    ensures KeywordReport(kws[..j + 1], bodyLower, wordCount)
            == KeywordReport(kws[..j], bodyLower, wordCount)[kws[j] := Stat(kws[j], bodyLower, wordCount)]
  {
    assert kws[..j + 1][..j] == kws[..j];
  }

  /** Applies a list of checks in order to the running score and lists. */
  method ApplyAll(score: int, issues: seq<string>, passed: seq<string>, done: seq<Check>, cs: seq<Check>)
    returns (score': int, issues': seq<string>, passed': seq<string>)
    requires score == 100 - TotalDeduction(done)
    requires issues == IssuesOf(done) && passed == PassedOf(done)
    ensures score' == 100 - TotalDeduction(done + cs)
    ensures issues' == IssuesOf(done + cs) && passed' == PassedOf(done + cs)
  {
    score', issues', passed' := score, issues, passed;
    var k := 0;
    assert done + cs[..0] == done;
    while k < |cs|
      invariant 0 <= k <= |cs|
      invariant score' == 100 - TotalDeduction(done + cs[..k])
      invariant issues' == IssuesOf(done + cs[..k]) && passed' == PassedOf(done + cs[..k])
    {
      Record(done + cs[..k], cs[k]);
      score', issues', passed' := Apply(score', issues', passed', cs[k]);
      assert done + cs[..k + 1] == done + cs[..k] + [cs[k]];
      k := k + 1;
    }
    assert cs[..|cs|] == cs;
  }

  /** One check's effect on the running score and lists. */
  method Apply(score: int, issues: seq<string>, passed: seq<string>, c: Check)
    returns (score': int, issues': seq<string>, passed': seq<string>)
    ensures score' == score - c.deduction
    ensures issues' == issues + (if c.issue.Some? then [c.issue.value] else [])
    ensures passed' == passed + (if c.pass.Some? then [c.pass.value] else [])
  {
    score', issues', passed' := score, issues, passed;
    if c.issue.Some? {
      issues' := issues' + [c.issue.value];
    }
    if c.pass.Some? {
      passed' := passed' + [c.pass.value];
    }
    score' := score' - c.deduction;
  }

  /** Appending a check extends the totals and lists by that check alone. */
  lemma Record(done: seq<Check>, c: Check)
    ensures TotalDeduction(done + [c]) == TotalDeduction(done) + c.deduction
    ensures IssuesOf(done + [c]) == IssuesOf(done) + (if c.issue.Some? then [c.issue.value] else [])
    ensures PassedOf(done + [c]) == PassedOf(done) + (if c.pass.Some? then [c.pass.value] else [])
  {
    assert (done + [c])[..|done|] == done;
  }

  /** The score always lies in 0..100, whatever checks ran. */
  lemma ScoreInRange(cs: seq<Check>)
    ensures 0 <= Clamp(100 - TotalDeduction(cs)) <= 100
  {
  }

  /** Without target keywords a run is the four fixed checks, then the slug checks. */
  lemma ChecksWithoutKeywords(args: Args)
    requires args.targetKeywords.None? || args.targetKeywords.value == []
    ensures Checks(args) == FixedChecks(args) + SlugPart(args)
  {
    var f := FixedChecks(args);
    assert KeywordPart(args) == [];
    assert f + [] == f;
  }

  /** The checks apart from the keywords deduct at most 10 + 15 + 20 + 10 + 7 = 62 points. */
  lemma FixedDeductionsBound(args: Args)
    requires args.targetKeywords.None? || args.targetKeywords.value == []
    ensures TotalDeduction(Checks(args)) <= 62
  {
    FixedBound(args);
    SlugPartBound(args);
    ChecksWithoutKeywords(args);
    TotalOfConcat(FixedChecks(args), SlugPart(args));
  }

  lemma FixedBound(args: Args)
    ensures TotalDeduction(FixedChecks(args)) <= 55
  {
    FourChecksBound(FixedChecks(args));
  }

  lemma SlugPartBound(args: Args)
    ensures TotalDeduction(SlugPart(args)) <= 7
  {
    if args.url.Some? && args.url.value != "" {
      SlugDeductionsBound(Slug(args.url.value));
    }
  }

  lemma FourChecksBound(fixed: seq<Check>)
    requires |fixed| == 4 && fixed[0].deduction <= 10 && fixed[1].deduction <= 15
    requires fixed[2].deduction <= 20 && fixed[3].deduction <= 10
    ensures TotalDeduction(fixed) <= 55
  {
    var f3, f2, f1 := fixed[..3], fixed[..2], fixed[..1];
    assert f3[..2] == f2 && f3[2] == fixed[2];
    assert f2[..1] == f1 && f2[1] == fixed[1];
    assert f1[..0] == [] && f1[0] == fixed[0];
    assert TotalDeduction(f1) == fixed[0].deduction;
    assert TotalDeduction(f2) == TotalDeduction(f1) + fixed[1].deduction;
    assert TotalDeduction(f3) == TotalDeduction(f2) + fixed[2].deduction;
    assert TotalDeduction(fixed) == TotalDeduction(f3) + fixed[3].deduction;
  }

  /** Without target keywords the score never drops below 38: the clamp only matters with keywords. */
  lemma NoKeywordsFloor(args: Args)
    requires args.targetKeywords.None? || args.targetKeywords.value == []
    ensures Clamp(100 - TotalDeduction(Checks(args))) == 100 - TotalDeduction(Checks(args)) >= 38
  {
    FixedDeductionsBound(args);
    ClampOfNatural(100 - TotalDeduction(Checks(args)));
  }

  lemma ClampOfNatural(x: int)
    requires x >= 0
    ensures Clamp(x) == x
  {
  }

  lemma SlugDeductionsBound(slug: string)
    ensures TotalDeduction(SlugChecks(slug)) <= 7
  {
    var cs := SlugChecks(slug);
    var n := JsLength(slug);
    var long := if n > 75 then [Issue(3, SlugLongHead + Chars(n) + SlugLongTail)] else [];
    var upper := if HasUpperAscii(slug) then [Issue(2, SlugUpper)] else [];
    var underscore := if '_' in slug then [Issue(2, SlugUnderscore)] else [];
    var ok := if !HasUpperAscii(slug) && '_' !in slug && n <= 75 then [Pass(SlugOk)] else [];
    assert cs == long + upper + underscore + ok;
    TotalOfConcat(long, upper);
    TotalOfConcat(long + upper, underscore);
    TotalOfConcat(long + upper + underscore, ok);
  }

  lemma {:induction false} TotalOfConcat(xs: seq<Check>, ys: seq<Check>)
    ensures TotalDeduction(xs + ys) == TotalDeduction(xs) + TotalDeduction(ys)
    decreases |ys|
  {
    if ys == [] {
      assert xs + ys == xs;
    } else {
      var n := |ys| - 1;
      TotalOfConcat(xs, ys[..n]);
      assert (xs + ys)[..|xs + ys| - 1] == xs + ys[..n];
    }
  }

  /** Every check records an issue exactly when it deducts points. */
  lemma ChecksConsistent(args: Args)
    ensures forall i :: 0 <= i < |Checks(args)| ==> Consistent(Checks(args)[i])
  {
    PartsConsistent(args);
    AllConsistentConcat(FixedChecks(args), KeywordPart(args));
    AllConsistentConcat(FixedChecks(args) + KeywordPart(args), SlugPart(args));
  }

  predicate AllConsistent(cs: seq<Check>) {
    forall i :: 0 <= i < |cs| ==> Consistent(cs[i])
  }

  lemma PartsConsistent(args: Args)
    ensures AllConsistent(FixedChecks(args)) && AllConsistent(KeywordPart(args)) && AllConsistent(SlugPart(args))
  {
    KeywordPartConsistent(args);
  }

  lemma KeywordPartConsistent(args: Args)
    ensures AllConsistent(KeywordPart(args))
  {
    if args.targetKeywords.Some? && args.targetKeywords.value != [] {
      var kws, bodyLower, n := args.targetKeywords.value, ToLower(args.body), |Tokens(args.body)|;
      var cs := KeywordChecks(kws, bodyLower, n);
      forall i | 0 <= i < |cs| ensures Consistent(cs[i]) {
        assert cs[i] == KeywordCheck(kws[i], bodyLower, n);
      }
    }
  }

  lemma AllConsistentConcat(xs: seq<Check>, ys: seq<Check>)
    requires AllConsistent(xs) && AllConsistent(ys)
    ensures AllConsistent(xs + ys)
  {
    forall i | 0 <= i < |xs + ys| ensures Consistent((xs + ys)[i]) {
      if i < |xs| { assert (xs + ys)[i] == xs[i]; } else { assert (xs + ys)[i] == ys[i - |xs|]; }
    }
  }

  /** A keyword that is absent from the body costs exactly 5 points and records an issue. */
  lemma AbsentKeywordDeducts(kw: string, body: string, wordCount: nat)
    requires ToLower(kw) != [] && !Contains(ToLower(body), ToLower(kw))
    ensures KeywordCheck(kw, ToLower(body), wordCount) == Issue(5, KeywordHead + kw + NotFoundTail)
  {
    OccurrencesZeroIffAbsent(ToLower(body), ToLower(kw));
  }
}
