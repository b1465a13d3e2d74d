/**
 * The SEO lint script: it checks that fixed files of the site exist and hold fixed tokens, and
 * that `public/` holds IndexNow key files whose text matches their names. Failures and notes are
 * collected as the checks run; the exit code says whether any failure was recorded. The file
 * system is a parameter (the files by path relative to the project root, and the listing of
 * `public/` with each entry's text); the console output is left out.
 */
module SeoLint {
  import opened Common
  import opened Text

  /** The project's files, by path relative to the root. */
  type Files = map<string, string>

  /** An entry of `public/`: its name and its text. */
  datatype Entry = Entry(name: string, body: string)

  function MissingFile(rel: string): string {
    "Missing required file: " + rel
  }

  // The two failure messages are written as a short literal plus the rest, so that their
  // first differing character (LocalhostNotToken) is read off a short literal.
  const TokenInfix := " is" + " missing required SEO token: "

  function MissingToken(rel: string, needle: string): (m: string)
    ensures StartsWith(m, rel + TokenInfix) && m[|rel + TokenInfix|..] == needle
  {
    var m := rel + TokenInfix + needle;
    assert m[..|rel + TokenInfix|] == rel + TokenInfix;
    m
  }

  function LocalhostUrls(rel: string): string {
    rel + " contains" + " localhost URLs that should not be indexed."
  }

  const NoKeyFile := "No IndexNow key file found in /public (expected <key>.txt)."
  const NoPublic := "Missing /public directory."
  const NotesPrefix := "IndexNow key file(s): "

  function KeyMismatch(name: string): string {
    "IndexNow key file mismatch: public/" + name + " content does not match filename key."
  }

  /** The two markers of a URL that points at the local machine. */
  predicate HasLocalhost(content: string) {
    Contains(content, "http://localhost") || Contains(content, "127.0.0.1")
  }

  /** The needles that `content` lacks, in the order given. */
  function Absent(content: string, needles: seq<string>): (a: seq<string>)
    ensures |a| <= |needles|
    ensures forall i :: 0 <= i < |a| ==> a[i] in needles && !Contains(content, a[i])
    decreases |needles|
  {
    if needles == [] then []
    else
      var n := needles[|needles| - 1];
      Absent(content, needles[..|needles| - 1]) + (if Contains(content, n) then [] else [n])
  }

  /** The failures of the loop over the needles. */
  function MissingTokens(content: string, rel: string, needles: seq<string>): (ms: seq<string>)
    ensures |ms| == |Absent(content, needles)|
    ensures forall i :: 0 <= i < |ms| ==> ms[i] == MissingToken(rel, Absent(content, needles)[i])
    decreases |needles|
  {
    if needles == [] then []
    else
      var n := needles[|needles| - 1];
      MissingTokens(content, rel, needles[..|needles| - 1]) + (if Contains(content, n) then [] else [MissingToken(rel, n)])
  }

  /** Every needle the content lacks is among the absent ones. */
  lemma {:induction false} AbsentComplete(content: string, needles: seq<string>, n: string)
    requires n in needles && !Contains(content, n)
    ensures n in Absent(content, needles)
    decreases |needles|
  {
    var init := needles[..|needles| - 1];
    if n != needles[|needles| - 1] {
      assert needles == init + [needles[|needles| - 1]];
      AbsentComplete(content, init, n);
    }
  }

  /** Nothing is absent when every needle is present. */
  lemma {:induction false} AbsentNone(content: string, needles: seq<string>)
    requires forall n :: n in needles ==> Contains(content, n)
    ensures Absent(content, needles) == []
    decreases |needles|
  {
    if needles != [] {
      var init := needles[..|needles| - 1];
      assert forall n :: n in init ==> n in needles;
      AbsentNone(content, init);
    }
  }

  /** Different needles get different messages. */
  lemma MissingTokenInjective(rel: string, a: string, b: string)
    requires MissingToken(rel, a) == MissingToken(rel, b)
    ensures a == b
  {
  }

  /** A needle is reported exactly when the content lacks it. */
  lemma MissingTokenReported(content: string, rel: string, needles: seq<string>, n: string)
    requires n in needles
    ensures MissingToken(rel, n) in MissingTokens(content, rel, needles) <==> !Contains(content, n)
  {
    var ms := MissingTokens(content, rel, needles);
    var a := Absent(content, needles);
    if !Contains(content, n) {
      AbsentComplete(content, needles, n);
      var i :| 0 <= i < |a| && a[i] == n;
      assert ms[i] == MissingToken(rel, n);
    }
    if MissingToken(rel, n) in ms {
      var i :| 0 <= i < |ms| && ms[i] == MissingToken(rel, n);
      MissingTokenInjective(rel, a[i], n);
    }
  }

  /** What `requireIncludes(rel, needles)` adds to the failures. */
  function IncludeFailures(files: Files, rel: string, needles: seq<string>): seq<string> {
    if rel !in files then [MissingFile(rel)]
    else if files[rel] == "" then []
    else MissingTokens(files[rel], rel, needles) + (if HasLocalhost(files[rel]) then [LocalhostUrls(rel)] else [])
  }

  /** A missing file is one failure; none of its tokens is looked for. */
  lemma MissingFileOnly(files: Files, rel: string, needles: seq<string>)
    requires rel !in files
    ensures IncludeFailures(files, rel, needles) == [MissingFile(rel)]
  {
  }

  /** For a file with text: one failure per needle it lacks, then one if it names the local machine. */
  lemma IncludeFailuresOfText(files: Files, rel: string, needles: seq<string>)
    requires rel in files && files[rel] != ""
    ensures var fs := IncludeFailures(files, rel, needles);
            var a := Absent(files[rel], needles);
            |fs| == |a| + (if HasLocalhost(files[rel]) then 1 else 0)
            && (forall i :: 0 <= i < |a| ==> fs[i] == MissingToken(rel, a[i]))
            && (HasLocalhost(files[rel]) <==> LocalhostUrls(rel) in fs)
  {
    var fs := IncludeFailures(files, rel, needles);
    var a := Absent(files[rel], needles);
    if LocalhostUrls(rel) in fs && !HasLocalhost(files[rel]) {
      var i :| 0 <= i < |fs| && fs[i] == LocalhostUrls(rel);
      LocalhostNotToken(rel, a[i]);
    }
  }

  /** The local-URL failure is never taken for a missing token. */
  lemma LocalhostNotToken(rel: string, needle: string)
    ensures LocalhostUrls(rel) != MissingToken(rel, needle)
  {
    var m := MissingToken(rel, needle);
    assert m[|rel| + 1] == (rel + TokenInfix)[|rel| + 1] == TokenInfix[1] == 'i';
    assert LocalhostUrls(rel)[|rel| + 1] == (rel + " contains")[|rel| + 1] == 'c';
  }

  /** An empty file passes every check: `!content` stops before the needles are looked for. */
  lemma EmptyFilePasses(files: Files, rel: string, needles: seq<string>)
    requires rel in files && files[rel] == ""
    ensures IncludeFailures(files, rel, needles) == []
  {
  }

  predicate HexAnyCase(c: char) {
    '0' <= c <= '9' || 'a' <= c <= 'f' || 'A' <= c <= 'F'
  }

  /** `/\.txt$/i.test(name)`. */
  predicate EndsWithTxt(name: string) {
    |name| >= 4 && name[|name| - 4] == '.' && LowerChar(name[|name| - 3]) == 't'
    && LowerChar(name[|name| - 2]) == 'x' && LowerChar(name[|name| - 1]) == 't'
  }

  /** `/^[a-f0-9]{32}\.txt$/i.test(name)`. */
  predicate IsKeyFileName(name: string) {
    |name| == 36 && (forall i :: 0 <= i < 32 ==> HexAnyCase(name[i])) && EndsWithTxt(name)
  }

  /** `name.replace(/\.txt$/i, "")`. */
  function KeyOf(name: string): (k: string)
    ensures EndsWithTxt(name) ==> k + name[|name| - 4..] == name
    ensures !EndsWithTxt(name) ==> k == name
    ensures IsKeyFileName(name) ==> k == name[..32] && |k| == 32
  {
    if EndsWithTxt(name) then name[..|name| - 4] else name
  }

  /** The entries whose names are key-file names, in listing order. */
  function KeyFiles(entries: seq<Entry>): (ks: seq<Entry>)
    ensures |ks| <= |entries|
    ensures forall i :: 0 <= i < |ks| ==> ks[i] in entries && IsKeyFileName(ks[i].name)
    decreases |entries|
  {
    if entries == [] then []
    else (if IsKeyFileName(entries[0].name) then [entries[0]] else []) + KeyFiles(entries[1..])
  }

  /** No entry with a key-file name is dropped. */
  lemma {:induction false} KeyFilesComplete(entries: seq<Entry>, e: Entry)
    requires e in entries && IsKeyFileName(e.name)
    ensures e in KeyFiles(entries)
    decreases |entries|
  {
    if e != entries[0] {
      KeyFilesComplete(entries[1..], e);
    }
  }

  /** A key file's trimmed text is its key. */
  predicate Matches(e: Entry) {
    Trim(e.body) == KeyOf(e.name)
  }

  /** The key files that fail the test `ok`, in order (the test is `Matches`). */
  function Mismatched(ks: seq<Entry>, ok: Entry -> bool): (bad: seq<Entry>)
    ensures |bad| <= |ks|
    ensures forall i :: 0 <= i < |bad| ==> bad[i] in ks && !ok(bad[i])
    decreases |ks|
  {
    if ks == [] then []
    else
      var e := ks[|ks| - 1];
      Mismatched(ks[..|ks| - 1], ok) + (if ok(e) then [] else [e])
  }

  /** The failures of the loop over the key files. */
  function KeyMismatches(ks: seq<Entry>, ok: Entry -> bool): seq<string>
    decreases |ks|
  {
    if ks == [] then []
    else
      var e := ks[|ks| - 1];
      KeyMismatches(ks[..|ks| - 1], ok) + (if ok(e) then [] else [KeyMismatch(e.name)])
  }

  /** One step of the loop over the key files. */
  lemma KeyMismatchesSnoc(ks: seq<Entry>, i: nat, ok: Entry -> bool)
    requires i < |ks|
    ensures KeyMismatches(ks[..i + 1], ok) == KeyMismatches(ks[..i], ok) + (if ok(ks[i]) then [] else [KeyMismatch(ks[i].name)])
  {
    assert ks[..i + 1][..i] == ks[..i];
  }

  /** One failure per mismatched key file, naming it, in order. */
  lemma {:induction false} KeyMismatchesNameFiles(ks: seq<Entry>, ok: Entry -> bool)
    ensures |KeyMismatches(ks, ok)| == |Mismatched(ks, ok)|
    ensures forall i :: 0 <= i < |KeyMismatches(ks, ok)| ==> KeyMismatches(ks, ok)[i] == KeyMismatch(Mismatched(ks, ok)[i].name)
    decreases |ks|
  {
    if ks != [] {
      KeyMismatchesNameFiles(ks[..|ks| - 1], ok);
    }
  }

  /** A key file that fails the test is among the mismatched ones. */
  lemma {:induction false} MismatchedComplete(ks: seq<Entry>, ok: Entry -> bool, e: Entry)
    requires e in ks && !ok(e)
    ensures e in Mismatched(ks, ok)
    decreases |ks|
  {
    var init := ks[..|ks| - 1];
    if e != ks[|ks| - 1] {
      assert ks == init + [ks[|ks| - 1]];
      MismatchedComplete(init, ok, e);
    }
  }

  /** What the check of `public/` adds to the failures (`None`: there is no such directory). */
  function PublicFailures(pub: Option<seq<Entry>>): seq<string> {
    if pub.None? then [NoPublic]
    else if KeyFiles(pub.value) == [] then [NoKeyFile]
    else KeyMismatches(KeyFiles(pub.value), Matches)
  }

  function Names(es: seq<Entry>): (ns: seq<string>)
    ensures |ns| == |es| && forall i :: 0 <= i < |es| ==> ns[i] == es[i].name
  {
    seq(|es|, i requires 0 <= i < |es| => es[i].name)
  }

  /** What the check of `public/` adds to the notes. */
  function PublicNotes(pub: Option<seq<Entry>>): seq<string> {
    if pub.Some? && KeyFiles(pub.value) != [] then [NotesPrefix + Join(Names(KeyFiles(pub.value)), ", ")] else []
  }

  /** The eight files and the tokens each must hold, in the order they are checked. */
  const Checks: seq<(string, seq<string>)> := [
    ("app/robots.ts", ["sitemap: \"https://intersectionalsafety.org/sitemap.xml\"", "allow: \"/\""]),
    ("app/sitemap.ts", ["export default async function sitemap", "export const revalidate", "/blog"]),
    ("app/page.tsx", ["alternates: { canonical: \"https://intersectionalsafety.org\" }"]),
    ("app/charter/page.tsx", ["export const metadata",
                              "alternates: { canonical: \"https://intersectionalsafety.org/charter\" }"]),
    ("app/governance/page.tsx", ["export const metadata",
                                 "alternates: { canonical: \"https://intersectionalsafety.org/governance\" }"]),
    ("app/blog/page.tsx", ["export const metadata",
                           "alternates: { canonical: \"https://intersectionalsafety.org/blog\" }"]),
    ("app/blog/[slug]/page.tsx", ["generateMetadata", "alternates: { canonical: url }", "\"@type\": \"Article\""]),
    ("app/layout.tsx", ["metadataBase: new URL(SITE_URL)", "alternates:", "canonical: SITE_URL", "robots:"])
  ]

  /** The failures of a list of file checks, in order. */
  function FileFailures(files: Files, checks: seq<(string, seq<string>)>): seq<string>
    decreases |checks|
  {
    if checks == [] then []
    else
      var c := checks[|checks| - 1];
      FileFailures(files, checks[..|checks| - 1]) + IncludeFailures(files, c.0, c.1)
  }

  /** One more file check appends its own failures. */
  lemma FileFailuresSnoc(files: Files, checks: seq<(string, seq<string>)>, k: nat)
    requires k < |checks|
    ensures FileFailures(files, checks[..k + 1]) == FileFailures(files, checks[..k]) + IncludeFailures(files, checks[k].0, checks[k].1)
  {
    assert checks[..k + 1][..k] == checks[..k];
  }

  /** Every failure the script records, in order. */
  function LintFailures(files: Files, pub: Option<seq<Entry>>): seq<string> {
    FileFailures(files, Checks) + PublicFailures(pub)
  }

  /** The script's state: the failures and notes recorded so far. */
  class Linter {
    var failures: seq<string>
    var notes: seq<string>

    constructor ()
      ensures failures == [] && notes == []
    {
      failures := [];
      notes := [];
    }

    /** `readFile`: the file's text, or "" and a failure when it does not exist. */
    method ReadFile(files: Files, rel: string) returns (content: string)
      modifies this
      ensures rel in files ==> content == files[rel] && failures == old(failures)
      ensures rel !in files ==> content == "" && failures == old(failures) + [MissingFile(rel)]
      ensures notes == old(notes)
    {
      if rel !in files {
        failures := failures + [MissingFile(rel)];
        return "";
      }
      content := files[rel];
    }

    /** `requireIncludes`. */
    method RequireIncludes(files: Files, rel: string, needles: seq<string>)
      modifies this
      ensures failures == old(failures) + IncludeFailures(files, rel, needles)
      ensures notes == old(notes)
    {
      var content := ReadFile(files, rel);
      if content == "" {
        return;
      }
      CheckTokens(content, rel, needles);
      if Contains(content, "http://localhost") || Contains(content, "127.0.0.1") {
        failures := failures + [LocalhostUrls(rel)];
      }
    }

    /** The loop of `requireIncludes` over the needles. */
    method CheckTokens(content: string, rel: string, needles: seq<string>)
      modifies this
      ensures failures == old(failures) + MissingTokens(content, rel, needles)
      ensures notes == old(notes)
    {
      for i := 0 to |needles|
        invariant failures == old(failures) + MissingTokens(content, rel, needles[..i])
        invariant notes == old(notes)
      {
        assert needles[..i + 1][..i] == needles[..i];
        if !Contains(content, needles[i]) {
          failures := failures + [MissingToken(rel, needles[i])];
        }
      }
      assert needles[..|needles|] == needles;
    }

    /** The check of `public/`. */
    method CheckPublic(pub: Option<seq<Entry>>)
      modifies this
      ensures failures == old(failures) + PublicFailures(pub)
      ensures notes == old(notes) + PublicNotes(pub)
    {
      if pub.None? {
        failures := failures + [NoPublic];
        return;
      }
      var keyFiles := KeyFiles(pub.value);
      if |keyFiles| == 0 {
        failures := failures + [NoKeyFile];
      } else {
        CheckKeyFiles(keyFiles);
        notes := notes + [NotesPrefix + Join(Names(keyFiles), ", ")];
      }
    }

    /** The loop over the key files: a failure for each one whose trimmed text is not its key. */
    method CheckKeyFiles(keyFiles: seq<Entry>)
      modifies this
      ensures failures == old(failures) + KeyMismatches(keyFiles, Matches)
      ensures notes == old(notes)
    {
      var found := [];
      for i := 0 to |keyFiles|
        invariant found == KeyMismatches(keyFiles[..i], Matches)
        invariant failures == old(failures) && notes == old(notes)
      {
        var key := KeyOf(keyFiles[i].name);
        var body := Trim(keyFiles[i].body);
        KeyMismatchesSnoc(keyFiles, i, Matches);
        if body != key {
          found := found + [KeyMismatch(keyFiles[i].name)];
        }
      }
      assert keyFiles[..|keyFiles|] == keyFiles;
      failures := failures + found;
    }
  }

  /** The whole script: every check in order, then the exit code, 1 exactly when a failure was recorded. */
  method Run(files: Files, pub: Option<seq<Entry>>) returns (code: int, failures: seq<string>, notes: seq<string>)
    ensures failures == LintFailures(files, pub) && notes == PublicNotes(pub)
    ensures code == 1 <==> failures != []
    ensures code == 0 <==> failures == []
  {
    var l := new Linter();
    for k := 0 to |Checks|
      invariant l.failures == FileFailures(files, Checks[..k]) && l.notes == []
    {
      FileFailuresSnoc(files, Checks, k);
      l.RequireIncludes(files, Checks[k].0, Checks[k].1);
    }
    assert Checks[..|Checks|] == Checks;
    l.CheckPublic(pub);
    failures, notes := l.failures, l.notes;
    code := if |failures| > 0 then 1 else 0;
  }

  /** A file check passes when the file has no text, or holds every needle and no local URL. */
  predicate FilePasses(files: Files, rel: string, needles: seq<string>) {
    rel in files && (files[rel] == "" || ((forall n :: n in needles ==> Contains(files[rel], n)) && !HasLocalhost(files[rel])))
  }

  lemma IncludePasses(files: Files, rel: string, needles: seq<string>)
    ensures IncludeFailures(files, rel, needles) == [] <==> FilePasses(files, rel, needles)
  {
    if rel in files && files[rel] != "" {
      IncludeFailuresOfText(files, rel, needles);
      var a := Absent(files[rel], needles);
      if FilePasses(files, rel, needles) {
        AbsentNone(files[rel], needles);
      }
      if IncludeFailures(files, rel, needles) == [] {
        forall n | n in needles
          ensures Contains(files[rel], n)
        {
          if !Contains(files[rel], n) {
            AbsentComplete(files[rel], needles, n);
          }
        }
      }
    }
  }

  lemma {:induction false} FileFailuresEmpty(files: Files, checks: seq<(string, seq<string>)>)
    ensures FileFailures(files, checks) == [] <==> forall k :: 0 <= k < |checks| ==> FilePasses(files, checks[k].0, checks[k].1)
    decreases |checks|
  {
    if checks != [] {
      var n := |checks| - 1;
      var init, c := checks[..n], checks[n];
      FileFailuresEmpty(files, init);
      IncludePasses(files, c.0, c.1);
      assert FileFailures(files, checks) == FileFailures(files, init) + IncludeFailures(files, c.0, c.1);
      assert forall k :: 0 <= k < n ==> init[k] == checks[k];
    }
  }

  /** `public/` passes when it exists, has a key file, and every key file's trimmed text is its key. */
  lemma PublicPasses(pub: Option<seq<Entry>>)
    ensures PublicFailures(pub) == [] <==>
      pub.Some? && KeyFiles(pub.value) != [] && forall e :: e in KeyFiles(pub.value) ==> Matches(e)
  {
    if pub.Some? {
      NoMismatchIff(KeyFiles(pub.value), Matches);
    }
  }

  /** No failure from the key files exactly when every one passes the test. */
  lemma NoMismatchIff(ks: seq<Entry>, ok: Entry -> bool)
    ensures KeyMismatches(ks, ok) == [] <==> forall e :: e in ks ==> ok(e)
  {
    KeyMismatchesNameFiles(ks, ok);
    if KeyMismatches(ks, ok) == [] {
      forall e | e in ks
        ensures ok(e)
      {
        if !ok(e) {
          MismatchedComplete(ks, ok, e);
        }
      }
    } else {
      var bad := Mismatched(ks, ok);
      assert bad[0] in ks && !ok(bad[0]);
    }
  }

  /** The script exits with 0 exactly when every file check and the key-file check pass. */
  lemma ExitZeroIff(files: Files, pub: Option<seq<Entry>>)
    ensures LintFailures(files, pub) == [] <==>
      (forall k :: 0 <= k < |Checks| ==> FilePasses(files, Checks[k].0, Checks[k].1))
      && pub.Some? && KeyFiles(pub.value) != []
      && forall e :: e in KeyFiles(pub.value) ==> Matches(e)
  {
    FileFailuresEmpty(files, Checks);
    PublicPasses(pub);
  }

  /** The key names are matched without regard to case: a key file's upper-case name is one too. */
  lemma KeyFileNameAnyCase(name: string)
    requires IsKeyFileName(name)
    ensures IsKeyFileName(ToUpper(name)) && IsKeyFileName(ToLower(name))
  {
    assert forall i :: 0 <= i < 32 ==> HexAnyCase(ToUpper(name)[i]);
    assert forall i :: 0 <= i < 32 ==> HexAnyCase(ToLower(name)[i]);
  }

  /** The key the IndexNow submissions point at, in four runs of eight hex digits. */
  const SiteKey: string := KeyRuns[0] + KeyRuns[1] + KeyRuns[2] + KeyRuns[3]
  const KeyRuns: seq<string> := ["61d089df", "94964555", "b8d4a53e", "a75d6c7e"]

  /** The key file the IndexNow submissions point at passes, and its key is the name before `.txt`. */
  lemma SiteKeyFile()
    ensures SiteKey == "61d089df94964555b8d4a53ea75d6c7e"
    ensures IsKeyFileName(SiteKey + ".txt") && KeyOf(SiteKey + ".txt") == SiteKey
  {
    var n := SiteKey + ".txt";
    forall r | 0 <= r < 4 ensures |KeyRuns[r]| == 8 && forall i :: 0 <= i < 8 ==> HexAnyCase(KeyRuns[r][i]) {
      HexRun(r);
    }
    forall i | 0 <= i < 32 ensures HexAnyCase(n[i]) {
      assert n[i] == KeyRuns[i / 8][i % 8];
    }
    assert n[32..] == ".txt";
  }

  lemma HexRun(r: nat)
    requires r < 4
    ensures |KeyRuns[r]| == 8 && forall i :: 0 <= i < 8 ==> HexAnyCase(KeyRuns[r][i])
  {
  }
}
