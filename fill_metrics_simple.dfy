/** tools/fill_metrics_simple.py: the short variant of the metric filler.
    It takes the first table header of the comparison table, reads the
    runtime and objective of the first row whose runtime is a number, and
    rewrites the "Runtime:" and "Accuracy:" text of the project's files,
    with a fixed placeholder for the baseline. Files are given as their
    text; reading, writing and git are not modelled (the output of
    `git config` is a parameter). */
module FillMetricsSimple {
  import opened Common
  import FillMetrics

  datatype SimpleError =
    | NoHeaderLine          // "No markdown table header line found."
    | NoColumn(keyword: string)
    | NoNumericRuntime      // "No valid numeric runtime found in table."
    | RowTooShort           // an IndexError from row[...] escapes main

  // ---------------------------------------------------------------------
  // find_column_index

  /** The first header cell holding the keyword, compared case-insensitively. */
  function ColumnOf(header: seq<string>, keyword: string): (r: Option<nat>)
    ensures r.Some? ==> r.value < |header| && ContainsNoCase(header[r.value], keyword)
    ensures r.Some? ==> forall k :: 0 <= k < r.value ==> !ContainsNoCase(header[k], keyword)
    ensures r.None? ==> forall k :: 0 <= k < |header| ==> !ContainsNoCase(header[k], keyword)
    decreases |header|
  {
    if header == [] then None
    else match ColumnOf(header[..|header| - 1], keyword)
      case Some(k) => Some(k)
      case None => if ContainsNoCase(header[|header| - 1], keyword) then Some(|header| - 1) else None
  }

  /** find_column_index: the search loop returns at the first hit and
      raises ValueError after the last cell. */
  method FindColumnIndex(header: seq<string>, keyword: string) returns (r: Result<nat, SimpleError>)
    ensures r.Ok? ==> ColumnOf(header, keyword) == Some(r.value)
    ensures r.Err? ==> ColumnOf(header, keyword).None? && r.error == NoColumn(keyword)
  {
    var i := 0;
    while i < |header|
      invariant 0 <= i <= |header|
      invariant ColumnOf(header[..i], keyword).None?
    {
      assert header[..i + 1][..i] == header[..i];
      if ContainsNoCase(header[i], keyword) {
        assert ColumnOf(header[..i + 1], keyword) == Some(i);
        ColumnOfPrefix(header, keyword, i + 1);
        return Ok(i);
      }
      i := i + 1;
    }
    assert header[..i] == header;
    return Err(NoColumn(keyword));
  }

  /** A hit in a prefix is the hit in the whole header. */
  lemma {:induction false} ColumnOfPrefix(header: seq<string>, keyword: string, n: nat)
    requires n <= |header| && ColumnOf(header[..n], keyword).Some?
    ensures ColumnOf(header, keyword) == ColumnOf(header[..n], keyword)
  {
    var k := ColumnOf(header[..n], keyword).value;
    assert header[..n][k] == header[k];
    assert forall j :: 0 <= j < k ==> header[..n][j] == header[j];
  }

  // ---------------------------------------------------------------------
  // The header search (for ... else) and the cells of a line

  /** A line that starts with '|' once trimmed. */
  predicate IsTableLine(line: string)
  {
    StartsWith(Strip(line), "|")
  }

  /** The first table line at or after i. */
  function HeaderLineFrom(lines: seq<string>, i: nat): (r: Option<nat>)
    ensures r.Some? ==> i <= r.value < |lines| && IsTableLine(lines[r.value])
    ensures r.Some? ==> forall j :: i <= j < r.value ==> !IsTableLine(lines[j])
    ensures r.None? ==> forall j :: i <= j < |lines| ==> !IsTableLine(lines[j])
    decreases |lines| - i
  {
    if i >= |lines| then None
    else if IsTableLine(lines[i]) then Some(i)
    else HeaderLineFrom(lines, i + 1)
  }

  /** The for/else header search of main. */
  method FindHeaderLine(lines: seq<string>) returns (r: Option<nat>)
    ensures r == HeaderLineFrom(lines, 0)
  {
    var idx := 0;
    while idx < |lines|
      invariant idx <= |lines|
      invariant HeaderLineFrom(lines, idx) == HeaderLineFrom(lines, 0)
    {
      if IsTableLine(lines[idx]) {
        return Some(idx);
      }
      idx := idx + 1;
    }
    return None;
  }

  /** [c.strip() for c in line.strip("|").split("|")]: only '|' is stripped
      from the line's ends, not whitespace. */
  function Cells(line: string): (cells: seq<string>)
    ensures |cells| >= 1
  {
    FillMetrics.StripEach(Split(StripChars(line, {'|'}), '|'))
  }

  // ---------------------------------------------------------------------
  // The scan for the first row with a numeric runtime

  datatype Scan =
    | Found(runtime: real, accuracy: string)
    | NoNumericRow
    | ShortRow

  /** What one table row decides: None when its runtime cell is not a number
      (the scan goes on), a crash when a cell is missing, or the values. */
  function RowOutcome(parse: string -> Option<real>, row: seq<string>, rt: nat, obj: nat): Option<Scan>
  {
    if rt >= |row| then Some(ShortRow)
    else match parse(row[rt])
      case None => None
      case Some(x) => if obj >= |row| then Some(ShortRow) else Some(Found(x, row[obj]))
  }

  /** The scan over the lines after the separator, with `cells` splitting a
      line and `parse` reading a number (Cells and float() in the source):
      lines without '|' are skipped, not a stop. */
  function ScanWith(cells: string -> seq<string>, parse: string -> Option<real>, lines: seq<string>, rt: nat, obj: nat): Scan
    decreases |lines|
  {
    if lines == [] then NoNumericRow
    else if '|' !in lines[0] then ScanWith(cells, parse, lines[1..], rt, obj)
    else match RowOutcome(parse, cells(lines[0]), rt, obj)
      case None => ScanWith(cells, parse, lines[1..], rt, obj)
      case Some(s) => s
  }

  /** A line without '|' anywhere in the table is passed over: removing it
      changes nothing. */
  lemma {:induction false} ScanSkipsPlainLine(cells: string -> seq<string>, parse: string -> Option<real>, a: seq<string>, plain: string,
                                              b: seq<string>, rt: nat, obj: nat)
    requires '|' !in plain
    ensures ScanWith(cells, parse, a + [plain] + b, rt, obj) == ScanWith(cells, parse, a + b, rt, obj)
    decreases |a|
  {
    if a == [] {
      assert [plain] + b == (a + [plain] + b);
      assert ([plain] + b)[1..] == b;
      assert a + b == b;
    } else {
      ScanSkipsPlainLine(cells, parse, a[1..], plain, b, rt, obj);
      assert (a + [plain] + b)[0] == a[0] && (a + b)[0] == a[0];
      assert (a + [plain] + b)[1..] == a[1..] + [plain] + b;
      assert (a + b)[1..] == a[1..] + b;
    }
  }

  /** The first row that decides the scan is taken; rows after it are not read. */
  lemma {:induction false} FirstDecidingRowWins(cells: string -> seq<string>, parse: string -> Option<real>, a: seq<string>, row: string,
                                                b: seq<string>, rt: nat, obj: nat)
    requires forall k :: 0 <= k < |a| ==> '|' !in a[k] || RowOutcome(parse, cells(a[k]), rt, obj).None?
    requires '|' in row && RowOutcome(parse, cells(row), rt, obj).Some?
    ensures ScanWith(cells, parse, a + [row] + b, rt, obj) == RowOutcome(parse, cells(row), rt, obj).value
    decreases |a|
  {
    if a == [] {
      assert a + [row] + b == [row] + b;
    } else {
      FirstDecidingRowWins(cells, parse, a[1..], row, b, rt, obj);
      assert (a + [row] + b)[0] == a[0];
      assert (a + [row] + b)[1..] == a[1..] + [row] + b;
    }
  }

  /** The scan loop of main: `continue` past lines without '|' and rows
      whose runtime is not a number, `break` at the first that is. */
  method ScanRows(cells: string -> seq<string>, parse: string -> Option<real>, lines: seq<string>, rt: nat, obj: nat) returns (r: Scan)
    ensures r == ScanWith(cells, parse, lines, rt, obj)
  {
    var j := 0;
    while j < |lines|
      invariant j <= |lines|
      invariant ScanWith(cells, parse, lines[j..], rt, obj) == ScanWith(cells, parse, lines, rt, obj)
    {
      var line := lines[j];
      assert lines[j..][1..] == lines[j + 1..];
      if '|' !in line {
        j := j + 1;
        continue;
      }
      var row := cells(line);
      var outcome := RowOutcome(parse, row, rt, obj);
      if outcome.Some? {
        return outcome.value;
      }
      j := j + 1;
    }
    return NoNumericRow;
  }

  /** Lines 30-60 of main: the solver runtime and objective, or the error that stops the script. */
  function Extract(lines: seq<string>): Result<(real, string), SimpleError>
  {
    match HeaderLineFrom(lines, 0)
    case None => Err(NoHeaderLine)
    case Some(h) =>
      var header := Cells(lines[h]);
      match ColumnOf(header, "runtime")
      case None => Err(NoColumn("runtime"))
      case Some(rt) =>
        match ColumnOf(header, "objective")
        case None => Err(NoColumn("objective"))
        case Some(obj) =>
          var from := if h + 2 <= |lines| then h + 2 else |lines|;
          match ScanWith(Cells, ParseFloat, lines[from..], rt, obj)
          case Found(x, acc) => Ok((x, acc))
          case NoNumericRow => Err(NoNumericRuntime)
          case ShortRow => Err(RowTooShort)
  }

  /** The table-reading half of main. */
  method ReadTable(lines: seq<string>) returns (r: Result<(real, string), SimpleError>)
    ensures r == Extract(lines)
  {
    var h := FindHeaderLine(lines);
    if h.None? {
      return Err(NoHeaderLine);
    }
    var header := Cells(lines[h.value]);
    var rt := FindColumnIndex(header, "runtime");
    if rt.Err? {
      return Err(rt.error);
    }
    var obj := FindColumnIndex(header, "objective");
    if obj.Err? {
      return Err(obj.error);
    }
    var from := if h.value + 2 <= |lines| then h.value + 2 else |lines|;
    var scan := ScanRows(Cells, ParseFloat, lines[from..], rt.value, obj.value);
    match scan
    case Found(x, acc) => return Ok((x, acc));
    case NoNumericRow => return Err(NoNumericRuntime);
    case ShortRow => return Err(RowTooShort);
  }

  // ---------------------------------------------------------------------
  // The substitutions of main

  /** The baseline runtime and accuracy are never read: always this placeholder. */
  const BaselinePlaceholder: string := "—"

  /** The runtime text; `shown` is Python's str() of the parsed float. */
  function RuntimeBullet(shown: string): string
  {
    "• Runtime: Solver = " + shown + " s vs Baseline = " + BaselinePlaceholder
  }

  function AccuracyBullet(acc: string): string
  {
    "• Accuracy: Solver = " + acc + " vs Baseline = " + BaselinePlaceholder
  }

  /** re.sub(needle + ".*", repl, line) on one line: from the first occurrence
      of the needle (case-sensitive) to the end of the line. */
  function SubLine(line: string, needle: string, repl: string): (r: string)
    ensures !Contains(line, needle) ==> r == line
    ensures Contains(line, needle) ==> exists k :: 0 <= k <= |line| && StartsWith(line[k..], needle) && r == line[..k] + repl
  {
    match Find(line, needle)
    case None => line
    case Some(k) => assert line[k..][..|needle|] == line[k..k + |needle|]; line[..k] + repl
  }

  /** The text before the needle is kept, and it holds no earlier needle. */
  lemma {:induction false} SubLineKeepsPrefix(line: string, needle: string, repl: string)
    requires Contains(line, needle)
    ensures var k := Find(line, needle).value;
      SubLine(line, needle, repl) == line[..k] + repl &&
      forall j :: 0 <= j < k ==> !StartsWith(line[j..], needle)
  {
    FindFirst(line, needle);
  }

  function SubEach(lines: seq<string>, needle: string, repl: string): (r: seq<string>)
    ensures |r| == |lines| && forall k :: 0 <= k < |lines| ==> r[k] == SubLine(lines[k], needle, repl)
  {
    if lines == [] then [] else [SubLine(lines[0], needle, repl)] + SubEach(lines[1..], needle, repl)
  }

  /** re.sub(needle + ".*", repl, text): `.` stops at '\n', so every line is
      rewritten on its own. */
  function SubToLineEnd(text: string, needle: string, repl: string): string
  {
    Join(SubEach(Split(text, '\n'), needle, repl), "\n")
  }

  /** The text keeps its lines, and each one is rewritten by SubLine. */
  lemma {:induction false} SubToLineEndLines(text: string, needle: string, repl: string)
    requires '\n' !in repl
    ensures var before := Split(text, '\n'); var after := Split(SubToLineEnd(text, needle, repl), '\n');
      |after| == |before| && forall k :: 0 <= k < |before| ==> after[k] == SubLine(before[k], needle, repl)
  {
    var before := Split(text, '\n');
    var lines := SubEach(before, needle, repl);
    JoinSplit(text, '\n');
    forall k | 0 <= k < |lines|
      ensures '\n' !in lines[k]
    {
      match Find(before[k], needle)
      case None =>
      case Some(p) =>
        assert lines[k] == before[k][..p] + repl;
        assert forall c :: c in before[k][..p] ==> c in before[k];
    }
    SplitJoin(lines, '\n');
  }

  /** The runtime bullet itself holds "Runtime:", so a second run rewrites it
      again after the kept "• ": every run adds one more bullet mark. */
  lemma {:induction false} RunTwiceAddsBullet(shown: string, again: string)
    ensures SubLine(RuntimeBullet(shown), "Runtime:", RuntimeBullet(again)) == "• " + RuntimeBullet(again)
  {
    var b := RuntimeBullet(shown);
    var n := "Runtime:";
    assert b[0] == '•' && b[1] == ' ' && b[2..10] == n;
    assert b[1..][1..] == b[2..];
    assert StartsWith(b[2..], n);
    assert Find(b[2..], n) == Some(0);
    assert !StartsWith(b[1..], n) by {
      assert b[1..][0] == ' ';
    }
    assert Find(b[1..], n) == Some(1);
    assert !StartsWith(b, n);
    assert Find(b, n) == Some(2);
    assert b[..2] == "• ";
  }

  // ---------------------------------------------------------------------
  // get_repo_url and the link pattern

  const SshPrefix: string := "git@github.com:"
  const HttpsPrefix: string := "https://github.com/"

  /** url.split("git@github.com:")[1] for a url starting with the prefix:
      the text after it, up to a second occurrence if there is one. */
  function AfterSshPrefix(url: string): string
    requires StartsWith(url, SshPrefix)
  {
    var rest := url[|SshPrefix|..];
    match Find(rest, SshPrefix)
    case None => rest
    case Some(k) => rest[..k]
  }

  /** The https form of the remote: an ssh remote is rewritten, any other is kept. */
  function HttpsForm(url: string): string
  {
    if StartsWith(url, SshPrefix) then HttpsPrefix + AfterSshPrefix(url) else url
  }

  /** The characters `rstrip(".git")` removes. */
  const GitLetters: set<char> := {'.', 'g', 'i', 't'}

  /** get_repo_url as written: `rstrip(".git")` removes the longest run of
      '.', 'g', 'i' and 't' at the end, not the suffix ".git". */
  function RepoUrlAsWritten(gitOutput: Option<string>): Option<string>
  {
    match gitOutput
    case None => None
    case Some(out) => Some(RStripChars(HttpsForm(Strip(out)), GitLetters))
  }

  /** Stripping a run of strippable characters after a character that is not
      strippable gives back the part before the run. */
  lemma {:induction false} RStripCharsRun(s: string, t: string, chars: set<char>)
    requires s != [] && s[|s| - 1] !in chars
    requires forall k :: 0 <= k < |t| ==> t[k] in chars
    ensures RStripChars(s + t, chars) == s
    decreases |t|
  {
    if t == [] {
      assert s + t == s;
    } else {
      var t' := t[..|t| - 1];
      assert (s + t)[..|s + t| - 1] == s + t';
      RStripCharsRun(s, t', chars);
    }
  }

  /** A repository whose name ends in one of those letters loses them, not
      only the ".git" suffix. */
  lemma {:induction false} RepoUrlCutsName(path: string, tail: string)
    requires path != [] && path[|path| - 1] !in GitLetters
    requires tail != [] && forall k :: 0 <= k < |tail| ==> tail[k] in GitLetters
    ensures RepoUrlAsWritten(Some(HttpsPrefix + path + tail)) == Some(HttpsPrefix + path)
  {
    var pre := HttpsPrefix + path;
    var u := pre + tail;
    assert u[..19] == HttpsPrefix;
    var c := tail[|tail| - 1];
    assert u[|u| - 1] == c && c in GitLetters;
    assert !IsSpace(c);
    assert pre[|pre| - 1] == path[|path| - 1];
    CutsRun(pre, tail, u);
  }

  /** The same, for a remote `u` already split into what stays and the run. */
  lemma {:induction false} CutsRun(pre: string, tail: string, u: string)
    requires u == pre + tail && StartsWith(u, HttpsPrefix) && !IsSpace(u[|u| - 1])
    requires pre != [] && pre[|pre| - 1] !in GitLetters
    requires forall k :: 0 <= k < |tail| ==> tail[k] in GitLetters
    ensures RepoUrlAsWritten(Some(u)) == Some(pre)
  {
    RepoUrlAsWrittenOfHttps(u);
    RStripCharsRun(pre, tail, GitLetters);
  }

  /** The remote of a repository named "kit" gives ".../me/k". */
  lemma RepoUrlOfKit()
    ensures RepoUrlAsWritten(Some(HttpsPrefix + "me/kit.git")) == Some(HttpsPrefix + "me/k")
  {
    assert "me/kit.git" == "me/k" + "it.git";
    AppendAssoc(HttpsPrefix, "me/k", "it.git");
    RepoUrlCutsName("me/k", "it.git");
  }

  /** An https remote only has the letters stripped from its end. */
  lemma {:induction false} RepoUrlAsWrittenOfHttps(u: string)
    requires StartsWith(u, HttpsPrefix) && !IsSpace(u[|u| - 1])
    ensures RepoUrlAsWritten(Some(u)) == Some(RStripChars(u, GitLetters))
  {
    StrippedHttps(u);
    HttpsFormOfHttps(u);
  }

  /** An https remote with no space at its end is its own strip. */
  lemma {:induction false} StrippedHttps(u: string)
    requires StartsWith(u, HttpsPrefix) && !IsSpace(u[|u| - 1])
    ensures Strip(u) == u
  {
    assert u[0] == 'h';
    LStripOfStripped(u);
    RStripOfStripped(u);
  }

  /** An https remote is not rewritten. */
  lemma {:induction false} HttpsFormOfHttps(u: string)
    requires StartsWith(u, HttpsPrefix)
    ensures HttpsForm(u) == u
  {
    assert u[0] == 'h';
    assert SshPrefix[0] == 'g';
  }

  /** The evidently intended tail: drop the suffix ".git" if it is there. */
  function DropGitSuffix(u: string): (r: string)
    ensures EndsWith(u, ".git") ==> r + ".git" == u
    ensures !EndsWith(u, ".git") ==> r == u
  {
    if EndsWith(u, ".git") then u[..|u| - 4] else u
  }

  /** get_repo_url with the suffix removed as intended. */
  function RepoUrl(gitOutput: Option<string>): Option<string>
  {
    match gitOutput
    case None => None
    case Some(out) => Some(DropGitSuffix(HttpsForm(Strip(out))))
  }

  /** The intended tail keeps the repository name whole: ".git" goes and
      nothing else, and a url without it is left alone. */
  lemma {:induction false} DropGitSuffixExact(u: string)
    ensures DropGitSuffix(u + ".git") == u
    ensures !EndsWith(u, ".git") ==> DropGitSuffix(u) == u
  {
    assert (u + ".git")[|u + ".git"| - 4..] == ".git";
    assert (u + ".git")[..|u|] == u;
  }

  /** s[i:] starts with lit, case-sensitively. */
  predicate ExactAt(s: string, i: nat, lit: string)
  {
    i + |lit| <= |s| && s[i..i + |lit|] == lit
  }

  /** The end of the run of character c starting at p. */
  function SkipRun(s: string, p: nat, c: char): (q: nat)
    requires p <= |s|
    ensures p <= q <= |s| && (q < |s| ==> s[q] != c)
    decreases |s| - p
  {
    if p < |s| && s[p] == c then SkipRun(s, p + 1, c) else p
  }

  // The link pattern as written, r"https://github\\.com/\\s*your-username\\s*/\\s*your-repo":
  // in a raw string each `\\` is a regex escape for a literal backslash, so
  // the pattern asks for "https://github", a backslash, any character,
  // "com/", a backslash, a run of 's', "your-username", a backslash, a run
  // of 's', "/", a backslash, a run of 's' and "your-repo". This is the end
  // of such a match at i.
  function EscapedLinkAt(s: string, i: nat): (r: Option<nat>)
    ensures r.Some? ==> i < r.value <= |s|
    ensures r.Some? ==> i + 14 < |s| && s[i + 14] == '\\'
  {
    if !ExactAt(s, i, "https://github\\") || i + 15 >= |s| || s[i + 15] == '\n' then None
    else if !ExactAt(s, i + 16, "com/\\") then None
    else
      var q := SkipRun(s, i + 21, 's');
      if !ExactAt(s, q, "your-username\\") then None
      else
        var q2 := SkipRun(s, q + 14, 's');
        if !ExactAt(s, q2, "/\\") then None
        else
          var q3 := SkipRun(s, q2 + 2, 's');
          if !ExactAt(s, q3, "your-repo") then None else Some(q3 + 9)
  }

  /** A text without a backslash never matches the pattern as written, so
      the substitution leaves it unchanged. */
  lemma {:induction false} EscapedLinkNeverMatches(text: string, url: string)
    requires '\\' !in text
    ensures forall j :: 0 <= j < |text| ==> EscapedLinkAt(text, j).None?
    ensures SubWith(EscapedLinkAt, text, 0, url) == text
  {
    SubWithNoMatch(EscapedLinkAt, text, 0, url);
  }

  /** The placeholder link of the project's files. */
  const PlaceholderLink: string := "https://github.com/" + "your-username/your-repo"

  /** The ordinary placeholder link is not rewritten by the pattern as written. */
  lemma {:induction false} PlaceholderLinkKept(url: string)
    ensures SubWith(EscapedLinkAt, PlaceholderLink, 0, url) == PlaceholderLink
  {
    assert '\\' !in PlaceholderLink;
    EscapedLinkNeverMatches(PlaceholderLink, url);
  }

  /** The evidently intended pattern: https://github\.com/, then
      your-username, '/' and your-repo with optional whitespace between,
      case-sensitive as the source's call has no flags. */
  function LinkAt(s: string, i: nat): (r: Option<nat>)
    ensures r.Some? ==> i < r.value <= |s|
  {
    if !ExactAt(s, i, "https://github.com/") then None
    else
      var q := FillMetrics.SkipSpaces(s, i + 19);
      if !ExactAt(s, q, "your-username") then None
      else
        var q2 := FillMetrics.SkipSpaces(s, q + 13);
        if !ExactAt(s, q2, "/") then None
        else
          var q3 := FillMetrics.SkipSpaces(s, q2 + 1);
          if !ExactAt(s, q3, "your-repo") then None else Some(q3 + 9)
  }

  /** With the intended pattern the placeholder link becomes the repository URL. */
  lemma {:induction false} PlaceholderLinkReplaced(url: string)
    ensures SubWith(LinkAt, PlaceholderLink, 0, url) == url
  {
    var s := PlaceholderLink;
    PlaceholderLinkWhole();
    assert SubWith(LinkAt, s, 42, url) == [];
    assert url + [] == url;
  }

  /** The intended pattern matches the whole placeholder link. */
  lemma PlaceholderLinkWhole()
    ensures |PlaceholderLink| == 42 && LinkAt(PlaceholderLink, 0) == Some(42)
  {
    var s := PlaceholderLink;
    assert s[0..19] == "https://github.com/";
    assert FillMetrics.SkipSpaces(s, 19) == 19;
    assert s[19..32] == "your-username";
    assert FillMetrics.SkipSpaces(s, 32) == 32;
    assert s[32..33] == "/";
    assert FillMetrics.SkipSpaces(s, 33) == 33;
    assert s[33..42] == "your-repo";
  }

  /** The two metric-line substitutions of main, runtime first. */
  function RewriteMetrics(text: string, shown: string, acc: string): string
  {
    var t := SubToLineEnd(text, "Runtime:", RuntimeBullet(shown));
    SubToLineEnd(t, "Accuracy:", AccuracyBullet(acc))
  }

  /** The file rewrite of main as written: the two metric lines, then the
      link substitution with get_repo_url's rstrip(".git") result and the
      escaped pattern, when that result is not empty (`gitOutput` is what
      `git config --get remote.origin.url` printed, None when it failed). */
  function UpdateText(text: string, shown: string, acc: string, gitOutput: Option<string>): (r: string)
    ensures RepoUrlAsWritten(gitOutput).None? ==> r == RewriteMetrics(text, shown, acc)
    ensures '\\' !in RewriteMetrics(text, shown, acc) ==> r == RewriteMetrics(text, shown, acc)
  {
    var repoUrl := RepoUrlAsWritten(gitOutput);
    var t := RewriteMetrics(text, shown, acc);
    if repoUrl.Some? && repoUrl.value != [] then
      if '\\' !in t then EscapedLinkNeverMatches(t, repoUrl.value); SubWith(EscapedLinkAt, t, 0, repoUrl.value)
      else SubWith(EscapedLinkAt, t, 0, repoUrl.value)
    else t
  }

  /** The same rewrite with the evidently intended remote and pattern. */
  function UpdateTextIntended(text: string, shown: string, acc: string, gitOutput: Option<string>): (r: string)
    ensures RepoUrl(gitOutput).None? ==> r == RewriteMetrics(text, shown, acc)
    ensures 'h' !in RewriteMetrics(text, shown, acc) ==> r == RewriteMetrics(text, shown, acc)
  {
    var repoUrl := RepoUrl(gitOutput);
    var t := RewriteMetrics(text, shown, acc);
    if repoUrl.Some? && repoUrl.value != [] then
      if 'h' !in t then LinkNeedsStart(t, repoUrl.value); SubWith(LinkAt, t, 0, repoUrl.value)
      else SubWith(LinkAt, t, 0, repoUrl.value)
    else t
  }

  /** A text without an 'h' holds no link for the intended pattern, so the
      substitution leaves it unchanged. */
  lemma {:induction false} LinkNeedsStart(text: string, url: string)
    requires 'h' !in text
    ensures SubWith(LinkAt, text, 0, url) == text
  {
    forall j | 0 <= j < |text| ensures LinkAt(text, j).None? {
      assert text[j] != 'h';
      if j + 19 <= |text| {
        assert text[j..j + 19][0] == text[j];
      }
    }
    SubWithNoMatch(LinkAt, text, 0, url);
  }

  /** A substitution to the line end brings in no character that neither
      the text nor the replacement holds. */
  lemma SubToLineEndWithout(text: string, needle: string, repl: string, c: char)
    requires c != '\n' && c !in text && c !in repl
    ensures c !in SubToLineEnd(text, needle, repl)
  {
    var lines := Split(text, '\n');
    SplitPiecesWithout(text, '\n', c);
    var subbed := SubEach(lines, needle, repl);
    forall k | 0 <= k < |subbed| ensures c !in subbed[k] {
      var line := lines[k];
      if Contains(line, needle) {
        var j :| 0 <= j <= |line| && StartsWith(line[j..], needle) && subbed[k] == line[..j] + repl;
        assert forall i :: 0 <= i < j ==> line[..j][i] == line[i];
      }
    }
    JoinWithout(subbed, "\n", c);
  }

  /** As written, the repository URL never reaches a text without a
      backslash: whatever git printed, only the Runtime and Accuracy lines
      are rewritten. */
  lemma UpdateTextIgnoresRepo(text: string, shown: string, acc: string, gitOutput: Option<string>)
    requires '\\' !in text && '\\' !in shown && '\\' !in acc
    ensures UpdateText(text, shown, acc, gitOutput) == RewriteMetrics(text, shown, acc)
  {
    var t := SubToLineEnd(text, "Runtime:", RuntimeBullet(shown));
    assert '\\' !in RuntimeBullet(shown) && '\\' !in AccuracyBullet(acc);
    SubToLineEndWithout(text, "Runtime:", RuntimeBullet(shown), '\\');
    SubToLineEndWithout(t, "Accuracy:", AccuracyBullet(acc), '\\');
  }

  /** A needle whose first character is missing from the text does not occur in it. */
  lemma {:induction false} ContainsNeedsFirst(s: string, needle: string)
    requires needle != [] && needle[0] !in s
    ensures !Contains(s, needle)
    decreases |s|
  {
    if |needle| <= |s| {
      assert s[..|needle|][0] == s[0];
    }
    if s != [] {
      assert forall c :: c in s[1..] ==> c in s;
      ContainsNeedsFirst(s[1..], needle);
    }
  }

  /** A text without the label's first character is left as it is. */
  lemma {:induction false} SubToLineEndNoNeedle(text: string, needle: string, repl: string)
    requires needle != [] && needle[0] !in text
    ensures SubToLineEnd(text, needle, repl) == text
  {
    var lines := Split(text, '\n');
    SplitPiecesWithout(text, '\n', needle[0]);
    forall k | 0 <= k < |lines| ensures SubLine(lines[k], needle, repl) == lines[k] {
      ContainsNeedsFirst(lines[k], needle);
    }
    assert SubEach(lines, needle, repl) == lines;
    JoinSplit(text, '\n');
  }

  /** A text with neither an 'R' nor an 'A' has no metric line to rewrite. */
  lemma RewriteWithoutLabels(text: string, shown: string, acc: string)
    requires 'R' !in text && 'A' !in text
    ensures RewriteMetrics(text, shown, acc) == text
  {
    SubToLineEndNoNeedle(text, "Runtime:", RuntimeBullet(shown));
    SubToLineEndNoNeedle(text, "Accuracy:", AccuracyBullet(acc));
  }

  lemma PlaceholderLinkLetters()
    ensures 'R' !in PlaceholderLink && 'A' !in PlaceholderLink && '\\' !in PlaceholderLink
  {
    PlaceholderLinkWithout('R');
    PlaceholderLinkWithout('A');
    PlaceholderLinkWithout('\\');
  }

  /** The placeholder link holds only lower-case letters, '-', ':', '.' and '/'. */
  lemma PlaceholderLinkWithout(c: char)
    requires !('a' <= c <= 'z') && c !in "-:./"
    ensures c !in PlaceholderLink
  {
    var s := PlaceholderLink;
    forall i | 0 <= i < |s| ensures s[i] != c {
      assert 'a' <= s[i] <= 'z' || s[i] in "-:./";
    }
  }

  /** A file holding just the placeholder link: as written it is left as it
      is whatever git printed, while the intended rewrite puts the
      repository URL in its place. */
  lemma PlaceholderFileUpdated(shown: string, acc: string, gitOutput: Option<string>)
    requires '\\' !in shown && '\\' !in acc
    requires RepoUrl(gitOutput).Some? && RepoUrl(gitOutput).value != []
    ensures UpdateText(PlaceholderLink, shown, acc, gitOutput) == PlaceholderLink
    ensures UpdateTextIntended(PlaceholderLink, shown, acc, gitOutput) == RepoUrl(gitOutput).value
  {
    PlaceholderLinkLetters();
    RewriteWithoutLabels(PlaceholderLink, shown, acc);
    UpdateTextIgnoresRepo(PlaceholderLink, shown, acc, gitOutput);
    PlaceholderLinkReplaced(RepoUrl(gitOutput).value);
  }

  /** Without a repository URL only the two metric lines change: the rewrite
      keeps the number of lines and rewrites each line from its first
      "Runtime:" and then from its first "Accuracy:". */
  lemma {:induction false} UpdateTextLines(text: string, shown: string, acc: string)
    requires '\n' !in RuntimeBullet(shown) && '\n' !in AccuracyBullet(acc)
    ensures var before := Split(text, '\n'); var after := Split(UpdateText(text, shown, acc, None), '\n');
      |after| == |before| &&
      forall k :: 0 <= k < |before| ==>
        after[k] == SubLine(SubLine(before[k], "Runtime:", RuntimeBullet(shown)), "Accuracy:", AccuracyBullet(acc))
  {
    var t := SubToLineEnd(text, "Runtime:", RuntimeBullet(shown));
    SubToLineEndLines(text, "Runtime:", RuntimeBullet(shown));
    SubToLineEndLines(t, "Accuracy:", AccuracyBullet(acc));
  }
}
