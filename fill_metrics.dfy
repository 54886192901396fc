/** tools/fill_metrics.py: reading the solver and baseline runtime and
    accuracy out of the first pipe table of a Markdown file, in either of
    two orientations, and rewriting the "Runtime:" and "Accuracy:" lines and
    the repository-link placeholders of the project's text files. Files are
    given as their text; reading, writing and git are not modelled. */
module FillMetrics {
  import opened Common

  const RuntimeKeys: seq<string> := ["runtime", "time", "latency", "duration"]
  const AccuracyKeys: seq<string> := ["accuracy", "acc"]
  const SolverKeys: seq<string> := ["solver", "proposed", "ours", "variant"]
  const BaselineKeys: seq<string> := ["baseline", "reference", "default", "naive"]

  // ---------------------------------------------------------------------
  // norm and contains_any

  /** re.sub(r"\s+", " ", s): every run of whitespace becomes one space.
      `inRun` says that the text before s ended in whitespace that has
      already been written as a space. */
  function CollapseFrom(s: string, inRun: bool): string
  {
    if s == [] then []
    else if IsSpace(s[0]) then (if inRun then [] else " ") + CollapseFrom(s[1..], true)
    else [s[0]] + CollapseFrom(s[1..], false)
  }

  function Collapse(s: string): string
  {
    CollapseFrom(s, false)
  }

  /** No whitespace but single spaces. */
  predicate SingleSpaced(r: string)
  {
    (forall i :: 0 <= i < |r| ==> (IsSpace(r[i]) ==> r[i] == ' '))
    && (forall i :: 0 <= i < |r| - 1 ==> !(IsSpace(r[i]) && IsSpace(r[i + 1])))
  }

  /** The collapsed text is single-spaced, and a text without whitespace at
      its ends keeps none there. */
  lemma {:induction false} CollapseShape(s: string, inRun: bool)
    ensures var r := CollapseFrom(s, inRun);
      && SingleSpaced(r)
      && (s == [] ==> r == [])
      && (inRun ==> r == [] || !IsSpace(r[0]))
      && (s != [] && !IsSpace(s[0]) ==> r != [] && !IsSpace(r[0]))
      && (s != [] && !IsSpace(s[|s| - 1]) ==> r != [] && !IsSpace(r[|r| - 1]))
  {
    if s != [] {
      CollapseShape(s[1..], IsSpace(s[0]));
      var r, r' := CollapseFrom(s, inRun), CollapseFrom(s[1..], IsSpace(s[0]));
      assert r == (if IsSpace(s[0]) then (if inRun then [] else " ") else [s[0]]) + r';
      assert |s| > 1 ==> s[1..][|s| - 2] == s[|s| - 1];
    }
  }

  /** What norm returns: lower case, single spaces, nothing at either end. */
  predicate Normal(s: string)
  {
    (forall i :: 0 <= i < |s| ==> !IsUpper(s[i]) && (IsSpace(s[i]) ==> s[i] == ' '))
    && (forall i :: 0 <= i < |s| - 1 ==> !(IsSpace(s[i]) && IsSpace(s[i + 1])))
    && (s == [] || (!IsSpace(s[0]) && !IsSpace(s[|s| - 1])))
  }

  /** norm: strip, collapse whitespace runs, lower-case. */
  function Norm(s: string): (r: string)
    ensures Normal(r)
  {
    var t := Strip(s);
    StripEnds(s);
    var c := Collapse(t);
    CollapseShape(t, false);
    LowerNormal(c);
    Lower(c)
  }

  lemma {:induction false} StripEnds(s: string)
    ensures Strip(s) == [] || (!IsSpace(Strip(s)[0]) && !IsSpace(Strip(s)[|Strip(s)| - 1]))
  {
    var l := LStrip(s);
    var r := RStrip(l);
    if r != [] {
      assert r[0] == l[0];
    }
  }

  lemma {:induction false} LowerNormal(c: string)
    requires forall i :: 0 <= i < |c| ==> (IsSpace(c[i]) ==> c[i] == ' ')
    requires forall i :: 0 <= i < |c| - 1 ==> !(IsSpace(c[i]) && IsSpace(c[i + 1]))
    requires c == [] || (!IsSpace(c[0]) && !IsSpace(c[|c| - 1]))
    ensures Normal(Lower(c))
  {
    var r := Lower(c);
    forall i | 0 <= i < |c| ensures !IsUpper(r[i]) && (IsSpace(r[i]) <==> IsSpace(c[i])) && (IsSpace(r[i]) ==> r[i] == ' ') {
      LowerCharKeepsSpace(c[i]);
    }
  }

  lemma {:induction false} LowerCharKeepsSpace(c: char)
    ensures !IsUpper(LowerChar(c))
    ensures IsSpace(LowerChar(c)) <==> IsSpace(c)
    ensures IsSpace(c) ==> LowerChar(c) == c
  {
  }

  /** Single-spaced text is its own collapse. */
  lemma {:induction false} CollapseNormalFrom(s: string, inRun: bool)
    requires SingleSpaced(s)
    requires inRun ==> s == [] || !IsSpace(s[0])
    ensures CollapseFrom(s, inRun) == s
  {
    if s != [] {
      assert SingleSpaced(s[1..]) by {
        forall i | 0 <= i < |s| - 1 ensures s[1..][i] == s[i + 1] { }
      }
      assert |s| > 1 && IsSpace(s[0]) ==> !IsSpace(s[1]);
      CollapseNormalFrom(s[1..], IsSpace(s[0]));
      assert s == [s[0]] + s[1..];
    }
  }

  lemma CollapseNormal(s: string)
    requires SingleSpaced(s)
    ensures Collapse(s) == s
  {
    CollapseNormalFrom(s, false);
  }

  /** A normal string is its own norm. */
  lemma {:induction false} NormalFixed(s: string)
    requires Normal(s)
    ensures Norm(s) == s
  {
    LStripOfStripped(s);
    RStripOfStripped(s);
    CollapseNormal(s);
  }

  /** norm is idempotent. */
  lemma {:induction false} NormIdempotent(s: string)
    ensures Norm(Norm(s)) == Norm(s)
  {
    NormalFixed(Norm(s));
  }

  // ---------------------------------------------------------------------
  // The words norm keeps

  /** The length of the leading run of non-whitespace characters. */
  function WordLen(t: string): (n: nat)
    ensures n <= |t|
    ensures forall i :: 0 <= i < n ==> !IsSpace(t[i])
    ensures n == |t| || IsSpace(t[n])
  {
    if t == [] || IsSpace(t[0]) then 0 else 1 + WordLen(t[1..])
  }

  /** str.split() without arguments: the maximal runs of non-whitespace
      characters, in order. */
  function Words(s: string): seq<string>
    decreases |s|
  {
    var t := LStrip(s);
    if t == [] then []
    else
      var n := WordLen(t);
      assert n != 0;
      [t[..n]] + Words(t[n..])
  }

  predicate NoSpace(w: string)
  {
    forall i :: 0 <= i < |w| ==> !IsSpace(w[i])
  }

  /** A word followed by whitespace (or nothing) is read as one word. */
  lemma WordLenOf(w: string, s: string)
    requires NoSpace(w)
    requires s == [] || IsSpace(s[0])
    ensures WordLen(w + s) == |w|
  {
    assert forall i :: 0 <= i < |w| ==> (w + s)[i] == w[i];
    assert s != [] ==> (w + s)[|w|] == s[0];
  }

  lemma WordsCons(w: string, s: string)
    requires w != [] && NoSpace(w)
    requires s == [] || IsSpace(s[0])
    ensures Words(w + s) == [w] + Words(s)
  {
    LStripOfStripped(w + s);
    WordLenOf(w, s);
    assert (w + s)[..|w|] == w && (w + s)[|w|..] == s;
  }

  /** Leading whitespace is not part of any word. */
  lemma WordsLStrip(s: string)
    ensures Words(LStrip(s)) == Words(s)
  {
    LStripOfStripped(LStrip(s));
  }

  /** The invariant of the collapse: `w` is the word being written, and
      after a space that was already written no word has begun. */
  lemma {:induction false} CollapseWordsFrom(w: string, s: string, inRun: bool)
    requires NoSpace(w)
    requires inRun ==> w == []
    ensures Words(w + CollapseFrom(s, inRun)) == Words(w + s)
    decreases |s|, 1
  {
    if s == [] {
      assert w + CollapseFrom(s, inRun) == w + s;
    } else if !IsSpace(s[0]) {
      assert w + CollapseFrom(s, inRun) == (w + [s[0]]) + CollapseFrom(s[1..], false);
      assert w + s == (w + [s[0]]) + s[1..];
      CollapseWordsFrom(w + [s[0]], s[1..], false);
    } else {
      CollapseWordsSpace(w, s, inRun);
    }
  }

  /** Whitespace ends the word being written and is written as at most one space. */
  lemma {:induction false} CollapseWordsSpace(w: string, s: string, inRun: bool)
    requires NoSpace(w)
    requires inRun ==> w == []
    requires s != [] && IsSpace(s[0])
    ensures Words(w + CollapseFrom(s, inRun)) == Words(w + s)
    decreases |s|, 0
  {
    var e: string := [];
    var x := CollapseFrom(s[1..], true);
    CollapseWordsFrom(e, s[1..], true);
    assert e + x == x && e + s[1..] == s[1..];
    WordsAfterSpace(w, s);
    if inRun {
      assert w + CollapseFrom(s, inRun) == x;
    } else {
      var y := " " + x;
      assert w + CollapseFrom(s, inRun) == w + y;
      assert y[1..] == x;
      WordsAfterSpace(w, y);
    }
  }

  /** A whitespace character ends the word before it and starts no word. */
  lemma WordsAfterSpace(w: string, y: string)
    requires NoSpace(w)
    requires y != [] && IsSpace(y[0])
    ensures Words(w + y) == (if w == [] then [] else [w]) + Words(y[1..])
  {
    assert y == [y[0]] + y[1..];
    WordsLeading([y[0]], y[1..]);
    if w != [] {
      WordsCons(w, y);
    } else {
      assert w + y == y;
    }
  }

  /** re.sub(r"\s+", " ", s) keeps the words of s: the text splits into the
      same words before and after. */
  lemma {:induction false} CollapseWords(s: string)
    ensures Words(Collapse(s)) == Words(s)
  {
    var e: string := [];
    CollapseWordsFrom(e, s, false);
    assert e + Collapse(s) == Collapse(s) && e + s == s;
  }

  /** One step of str.split(): the first word, then the words of the rest. */
  lemma WordsStep(s: string)
    requires LStrip(s) != []
    ensures var u := LStrip(s); var n := WordLen(u);
      0 < n && Words(s) == [u[..n]] + Words(u[n..])
  {
  }

  /** Text after a word that starts with whitespace does not lengthen it. */
  lemma {:induction false} WordLenAppend(u: string, post: string)
    requires post == [] || IsSpace(post[0])
    ensures WordLen(u + post) == WordLen(u)
    decreases |u|
  {
    if u == [] {
      assert u + post == post;
    } else {
      assert (u + post)[0] == u[0];
      assert (u + post)[1..] == u[1..] + post;
      WordLenAppend(u[1..], post);
    }
  }

  /** The leading word of `u` and the text after it. */
  lemma WordSplit(u: string, post: string)
    requires post == [] || IsSpace(post[0])
    ensures var n := WordLen(u);
      WordLen(u + post) == n && (u + post)[..n] == u[..n] && (u + post)[n..] == u[n..] + post
  {
    WordLenAppend(u, post);
  }

  /** Leading whitespace is not part of any word. */
  lemma WordsLeading(pre: string, x: string)
    requires AllSpace(pre)
    ensures Words(pre + x) == Words(x)
  {
    LStripSpaces(pre, x);
    WordsLStrip(pre + x);
    WordsLStrip(x);
  }

  /** Trailing whitespace is not part of any word. */
  lemma {:induction false} WordsTrailing(t: string, post: string)
    requires AllSpace(post)
    ensures Words(t + post) == Words(t)
    decreases |t|, 1
  {
    var u := LStrip(t);
    var pre := t[..|t| - |u|];
    assert t == pre + u;
    assert t + post == pre + (u + post);
    WordsLeading(pre, u + post);
    WordsLeading(pre, u);
    WordsTrailingFrom(u, post);
  }

  lemma {:induction false} WordsTrailingFrom(u: string, post: string)
    requires AllSpace(post)
    requires u == [] || !IsSpace(u[0])
    ensures Words(u + post) == Words(u)
    decreases |u|, 0
  {
    if u == [] {
      assert u + post == post;
      LStripAllSpace(post);
    } else {
      LStripOfStripped(u + post);
      LStripOfStripped(u);
      var n := WordLen(u);
      WordSplit(u, post);
      WordsStep(u);
      WordsStep(u + post);
      WordsTrailing(u[n..], post);
    }
  }

  lemma WordsRStrip(t: string)
    ensures Words(RStrip(t)) == Words(t)
  {
    var r := RStrip(t);
    assert t == r + t[|r|..];
    WordsTrailing(r, t[|r|..]);
  }

  function LowerEach(ws: seq<string>): (r: seq<string>)
    ensures |r| == |ws| && forall k :: 0 <= k < |ws| ==> r[k] == Lower(ws[k])
  {
    seq(|ws|, k requires 0 <= k < |ws| => Lower(ws[k]))
  }

  lemma {:induction false} LStripLower(c: string)
    ensures LStrip(Lower(c)) == Lower(LStrip(c))
    decreases |c|
  {
    if c != [] {
      LowerCharKeepsSpace(c[0]);
      assert Lower(c)[1..] == Lower(c[1..]);
      LStripLower(c[1..]);
    }
  }

  lemma {:induction false} LowerAppend(a: string, b: string)
    ensures Lower(a + b) == Lower(a) + Lower(b)
  {
  }

  lemma {:induction false} WordLenLower(u: string)
    ensures WordLen(Lower(u)) == WordLen(u)
    decreases |u|
  {
    if u != [] {
      LowerCharKeepsSpace(u[0]);
      assert Lower(u)[1..] == Lower(u[1..]);
      WordLenLower(u[1..]);
    }
  }

  lemma LowerSlices(u: string, n: nat)
    requires n <= |u|
    ensures Lower(u)[..n] == Lower(u[..n]) && Lower(u)[n..] == Lower(u[n..])
  {
  }

  lemma {:induction false} WordsLower(c: string)
    ensures Words(Lower(c)) == LowerEach(Words(c))
    decreases |c|
  {
    var u := LStrip(c);
    LStripLower(c);
    var lu := Lower(u);
    assert LStrip(Lower(c)) == lu;
    if u != [] {
      var n := WordLen(u);
      WordLenLower(u);
      LowerSlices(u, n);
      assert lu != [];
      WordsStep(c);
      assert Words(c) == [u[..n]] + Words(u[n..]);
      WordsStep(Lower(c));
      assert Words(Lower(c)) == [lu[..n]] + Words(lu[n..]);
      WordsLower(u[n..]);
      LowerEachCons(u[..n], Words(u[n..]));
    } else {
      assert Words(c) == [];
    }
  }

  lemma LowerEachCons(w: string, ws: seq<string>)
    ensures LowerEach([w] + ws) == [Lower(w)] + LowerEach(ws)
  {
    var l, r := LowerEach([w] + ws), [Lower(w)] + LowerEach(ws);
    assert |l| == |r|;
    forall k | 0 <= k < |l| ensures l[k] == r[k] {
      if k > 0 {
        assert ([w] + ws)[k] == ws[k - 1];
      }
    }
  }

  /** norm keeps the words of its input, lower-cased, and returns them
      single-spaced with nothing at either end. */
  lemma NormWords(s: string)
    ensures Normal(Norm(s))
    ensures Words(Norm(s)) == LowerEach(Words(s))
  {
    var t := Strip(s);
    WordsLStrip(s);
    WordsRStrip(LStrip(s));
    CollapseWords(t);
    WordsLower(Collapse(t));
  }

  /** contains_any: some keyword occurs in the normalised text. */
  predicate ContainsAny(text: string, keys: seq<string>)
  {
    exists k :: 0 <= k < |keys| && Contains(Norm(text), keys[k])
  }

  /** Normalising the text first changes nothing, so the header cells may
      be normalised before the keyword test, as find_metrics does. */
  lemma {:induction false} ContainsAnyOfNorm(text: string, keys: seq<string>)
    ensures ContainsAny(Norm(text), keys) <==> ContainsAny(text, keys)
  {
    NormIdempotent(text);
  }

  // ---------------------------------------------------------------------
  // ensure_runtime_unit and ensure_percent

  /** re.search(r"(ms|s)\b", t, re.IGNORECASE): an "s" (any case) that ends a word. */
  predicate HasTimeUnit(t: string)
  {
    exists i :: 0 <= i < |t| && LowerChar(t[i]) == 's' && (i + 1 == |t| || !IsWordChar(t[i + 1]))
  }

  function EnsureRuntimeUnit(v: string): (r: string)
    ensures HasTimeUnit(Strip(v)) ==> r == Strip(v)
    ensures !HasTimeUnit(Strip(v)) ==> r == Strip(v) + " s"
    ensures HasTimeUnit(r)
  {
    var t := Strip(v);
    if HasTimeUnit(t) then t
    else
      var r := t + " s";
      assert LowerChar(r[|r| - 1]) == 's';
      r
  }

  function EnsurePercent(v: string): (r: string)
    ensures '%' in Strip(v) ==> r == Strip(v)
    ensures '%' !in Strip(v) ==> r == Strip(v) + " %"
    ensures '%' in r
  {
    var t := Strip(v);
    if '%' in t then t else t + " %"
  }

  /** A stripped, non-empty text with a space and a unit appended is still stripped. */
  lemma {:induction false} StripAppendUnit(t: string, unit: char)
    requires t != [] && Strip(t) == t && !IsSpace(unit)
    ensures Strip(t + [' ', unit]) == t + [' ', unit]
  {
    var u := t + [' ', unit];
    assert !IsSpace(t[0]) by {
      assert LStrip(t)[0] == t[0];
    }
    assert u[0] == t[0];
    LStripOfStripped(u);
    RStripOfStripped(u);
  }

  /** ensure_runtime_unit is idempotent unless the value strips to nothing. */
  lemma {:induction false} EnsureRuntimeUnitIdempotent(v: string)
    requires Strip(v) != []
    ensures EnsureRuntimeUnit(EnsureRuntimeUnit(v)) == EnsureRuntimeUnit(v)
  {
    var t := Strip(v);
    StripIdempotent(v);
    if !HasTimeUnit(t) {
      StripAppendUnit(t, 's');
      assert t + " s" == t + [' ', 's'];
    }
  }

  /** ensure_percent is idempotent unless the value strips to nothing. */
  lemma {:induction false} EnsurePercentIdempotent(v: string)
    requires Strip(v) != []
    ensures EnsurePercent(EnsurePercent(v)) == EnsurePercent(v)
  {
    var t := Strip(v);
    StripIdempotent(v);
    if '%' !in t {
      StripAppendUnit(t, '%');
      assert t + " %" == t + [' ', '%'];
    }
  }

  /** An empty value is not a fixed point: "" gives " s", which gives "s". */
  lemma EnsureRuntimeUnitOfEmpty()
    ensures EnsureRuntimeUnit("") == " s"
    ensures EnsureRuntimeUnit(" s") == "s"
  {
    EmptyGetsUnit();
    SpacedUnitStripped();
  }

  lemma EmptyGetsUnit()
    ensures EnsureRuntimeUnit("") == " s"
  {
    assert Strip("") == "";
    assert !HasTimeUnit("");
  }

  lemma SpacedUnitStripped()
    ensures EnsureRuntimeUnit(" s") == "s"
  {
    StripLeadingSpace("s");
    assert " " + "s" == " s";
    assert HasTimeUnit("s") by {
      assert LowerChar("s"[0]) == 's';
    }
  }

  /** A stripped text with one space in front strips back to itself. */
  lemma {:induction false} StripLeadingSpace(s: string)
    requires s != [] && !IsSpace(s[0]) && !IsSpace(s[|s| - 1])
    ensures Strip(" " + s) == s
  {
    assert AllSpace(" ") && AllSpace("");
    assert " " + s + "" == " " + s;
    StripPadded(" ", s, "");
    LStripOfStripped(s);
    RStripOfStripped(s);
  }

  // ---------------------------------------------------------------------
  // parse_md_table and find_first_table

  /** The end of the run of whitespace starting at p. */
  function SkipSpaces(s: string, p: nat): (q: nat)
    requires p <= |s|
    ensures p <= q <= |s| && (q < |s| ==> !IsSpace(s[q]))
    ensures forall i :: p <= i < q ==> IsSpace(s[i])
    decreases |s| - p
  {
    if p < |s| && IsSpace(s[p]) then SkipSpaces(s, p + 1) else p
  }

  /** The end of the run of '-' starting at p. */
  function SkipDashes(s: string, p: nat): (q: nat)
    requires p <= |s|
    ensures p <= q <= |s| && (q < |s| ==> s[q] != '-')
    ensures forall i :: p <= i < q ==> s[i] == '-'
    decreases |s| - p
  {
    if p < |s| && s[p] == '-' then SkipDashes(s, p + 1) else p
  }

  /** `\|\s*:?-{3,}\s*\|` matches at p. Each part can only take its longest
      run, since the character after it never belongs to it. */
  predicate SeparatorAt(s: string, p: nat)
  {
    p < |s| && s[p] == '|' &&
    var q := SkipSpaces(s, p + 1);
    var q2 := if q < |s| && s[q] == ':' then q + 1 else q;
    var q3 := SkipDashes(s, q2);
    q3 >= q2 + 3 &&
    var q4 := SkipSpaces(s, q3);
    q4 < |s| && s[q4] == '|'
  }

  /** re.search of the separator pattern. */
  predicate HasSeparator(s: string)
  {
    exists p :: 0 <= p < |s| && SeparatorAt(s, p)
  }

  /** A header line: it holds a '|' and the next line is a separator. */
  predicate IsHeaderAt(lines: seq<string>, i: nat)
  {
    i + 1 < |lines| && '|' in lines[i] && HasSeparator(lines[i + 1])
  }

  /** The first header line at or after i. */
  function HeaderFrom(lines: seq<string>, i: nat): (r: Option<nat>)
    ensures r.Some? ==> i <= r.value && IsHeaderAt(lines, r.value)
    ensures r.Some? ==> forall j :: i <= j < r.value ==> !IsHeaderAt(lines, j)
    ensures r.None? ==> forall j :: i <= j ==> !IsHeaderAt(lines, j)
    decreases |lines| - i
  {
    if i + 1 >= |lines| then None
    else if IsHeaderAt(lines, i) then Some(i)
    else HeaderFrom(lines, i + 1)
  }

  /** split_row: strip the line, strip '|' from both ends, split at '|', strip each cell. */
  function SplitRow(row: string): (cells: seq<string>)
    ensures |cells| >= 1
  {
    StripEach(Split(StripChars(Strip(row), {'|'}), '|'))
  }

  /** [c.strip() for c in parts]. */
  function StripEach(parts: seq<string>): (r: seq<string>)
    ensures |r| == |parts|
  {
    if parts == [] then [] else [Strip(parts[0])] + StripEach(parts[1..])
  }

  /** Every cell is empty. */
  predicate AllEmpty(cells: seq<string>)
  {
    cells == [] || (cells[0] == [] && AllEmpty(cells[1..]))
  }

  /** The data rows from line j on: lines up to the first one without '|',
      leaving out rows whose cells are all empty. */
  function TableRows(lines: seq<string>, j: nat): seq<seq<string>>
  {
    RowsWith(SplitRow, lines, j)
  }

  /** The rows of the table lines from j on, each line cut into cells by
      `split`. The properties below hold whatever the splitter is. */
  function RowsWith(split: string -> seq<string>, lines: seq<string>, j: nat): seq<seq<string>>
    decreases |lines| - j
  {
    if j >= |lines| || '|' !in lines[j] then []
    else KeepFilled(split(lines[j])) + RowsWith(split, lines, j + 1)
  }

  /** `if len([c for c in row if c]) == 0: continue`, else the row is kept. */
  function KeepFilled(row: seq<string>): (r: seq<seq<string>>)
    ensures !AllEmpty(row) ==> r == [row]
    ensures AllEmpty(row) ==> r == []
  {
    if AllEmpty(row) then [] else [row]
  }

  /** No row of `rows` has only empty cells. */
  predicate Filled(rows: seq<seq<string>>)
  {
    forall k :: 0 <= k < |rows| ==> !AllEmpty(rows[k])
  }

  lemma {:induction false} FilledAppend(a: seq<seq<string>>, b: seq<seq<string>>)
    requires Filled(a) && Filled(b)
    ensures Filled(a + b)
  {
    forall k | 0 <= k < |a + b|
      ensures !AllEmpty((a + b)[k])
    {
      if k >= |a| {
        assert (a + b)[k] == b[k - |a|];
      }
    }
  }

  /** No row whose cells are all empty is returned. */
  lemma {:induction false} RowsFilled(split: string -> seq<string>, lines: seq<string>, j: nat)
    ensures Filled(RowsWith(split, lines, j))
    decreases |lines| - j
  {
    if j < |lines| && '|' in lines[j] {
      RowsFilled(split, lines, j + 1);
      FilledAppend(KeepFilled(split(lines[j])), RowsWith(split, lines, j + 1));
    }
  }

  /** Nothing after the first line without '|' is read: the rows are those
      of the lines cut there. */
  lemma {:induction false} RowsStop(split: string -> seq<string>, lines: seq<string>, j: nat, i: nat)
    requires j <= i < |lines| && '|' !in lines[i]
    ensures RowsWith(split, lines, j) == RowsWith(split, lines[..i], j)
    decreases i - j
  {
    if j < i {
      var cut := lines[..i];
      assert cut[j] == lines[j];
      RowsStop(split, lines, j + 1, i);
    }
  }

  datatype TableError = NoSeparator

  /** The header cells and data rows of the first table in the lines, or NoSeparator. */
  function Parsed(lines: seq<string>): Result<(seq<string>, seq<seq<string>>), TableError>
  {
    match HeaderFrom(lines, 0)
    case None => Err(NoSeparator)
    case Some(h) => Ok((SplitRow(lines[h]), TableRows(lines, h + 2)))
  }

  /** parse_md_table on the text of the table file. */
  method ParseMdTable(text: string) returns (r: Result<(seq<string>, seq<seq<string>>), TableError>)
    ensures r == Parsed(SplitLines(text))
  {
    var lines := SplitLines(text);
    r := ParseLines(lines);
  }

  /** parse_md_table once the text is cut into lines. */
  method ParseLines(lines: seq<string>) returns (r: Result<(seq<string>, seq<seq<string>>), TableError>)
    ensures r == Parsed(lines)
  {
    var header := FindHeader(lines);
    if header.None? {
      return Err(NoSeparator);
    }
    var h := header.value;
    var rows := CollectRows(SplitRow, lines, h + 2);
    return Ok((SplitRow(lines[h]), rows));
  }

  /** The first loop of parse_md_table: the header line. */
  method FindHeader(lines: seq<string>) returns (header: Option<nat>)
    ensures header == HeaderFrom(lines, 0)
  {
    header := None;
    var i := 0;
    while i + 1 < |lines|
      invariant HeaderFrom(lines, i) == HeaderFrom(lines, 0)
      decreases |lines| - i
    {
      if '|' in lines[i] && HasSeparator(lines[i + 1]) {
        header := Some(i);
        return;
      }
      i := i + 1;
    }
  }

  /** The second loop of parse_md_table: the data rows from line `from` on,
      cut into cells by `split` (split_row in the source). */
  method CollectRows(split: string -> seq<string>, lines: seq<string>, from: nat) returns (rows: seq<seq<string>>)
    requires from <= |lines|
    ensures rows == RowsWith(split, lines, from)
  {
    rows := [];
    var j := from;
    while j < |lines|
      invariant from <= j <= |lines|
      invariant rows + RowsWith(split, lines, j) == RowsWith(split, lines, from)
      decreases |lines| - j
    {
      if '|' !in lines[j] {
        assert rows + RowsWith(split, lines, j) == rows + [];
        break;
      }
      ghost var before := rows;
      var cells := split(lines[j]);
      if !AllEmpty(cells) {
        rows := rows + [cells];
      } else {
        assert rows == rows + KeepFilled(cells);
      }
      RowsStep(split, before, lines, j);
      j := j + 1;
    }
  }

  lemma {:induction false} RowsStep(split: string -> seq<string>, before: seq<seq<string>>, lines: seq<string>, j: nat)
    requires j < |lines| && '|' in lines[j]
    ensures (before + KeepFilled(split(lines[j]))) + RowsWith(split, lines, j + 1)
      == before + RowsWith(split, lines, j)
  {
    AppendAssoc(before, KeepFilled(split(lines[j])), RowsWith(split, lines, j + 1));
  }

  /** A row cut or padded with "" to n cells. */
  function Fit(row: seq<string>, n: nat): (r: seq<string>)
    ensures |r| == n
    ensures forall k :: 0 <= k < n ==> r[k] == (if k < |row| then row[k] else [])
  {
    if |row| < n then row + Blanks(n - |row|) else row[..n]
  }

  /** [""] * n. */
  function Blanks(n: nat): (r: seq<string>)
    ensures |r| == n && forall k :: 0 <= k < n ==> r[k] == []
  {
    if n == 0 then [] else [[]] + Blanks(n - 1)
  }

  /** Each row fitted to n cells. */
  function FitAll(rows: seq<seq<string>>, n: nat): (r: seq<seq<string>>)
    ensures |r| == |rows|
    ensures forall k :: 0 <= k < |rows| ==> r[k] == Fit(rows[k], n)
  {
    if rows == [] then [] else [Fit(rows[0], n)] + FitAll(rows[1..], n)
  }

  /** find_first_table: every row fitted to the header's width. */
  method FindFirstTable(text: string) returns (r: Result<(seq<string>, seq<seq<string>>), TableError>)
    ensures r.Err? <==> Parsed(SplitLines(text)).Err?
    ensures r.Ok? ==> r.value.0 == Parsed(SplitLines(text)).value.0
    ensures r.Ok? ==> r.value.1 == FitAll(Parsed(SplitLines(text)).value.1, |r.value.0|)
    ensures r.Ok? ==> Rectangular(r.value.0, r.value.1)
  {
    var parsed := ParseMdTable(text);
    if parsed.Err? {
      return parsed;
    }
    var header := parsed.value.0;
    var raw := parsed.value.1;
    FittedRowsRectangular(raw, |header|);
    return Ok((header, FitAll(raw, |header|)));
  }

  /** Every row returned by find_first_table has exactly the header's width. */
  lemma {:induction false} FittedRowsRectangular(rows: seq<seq<string>>, n: nat)
    ensures forall k :: 0 <= k < |rows| ==> |FitAll(rows, n)[k]| == n
  {
    forall k | 0 <= k < |rows|
      ensures |FitAll(rows, n)[k]| == n
    {
      assert FitAll(rows, n)[k] == Fit(rows[k], n);
    }
  }

  // ---------------------------------------------------------------------
  // find_metrics

  /** The index of the first element satisfying p. */
  function FirstWhere<T>(xs: seq<T>, p: T -> bool): (r: Option<nat>)
    ensures r.Some? ==> r.value < |xs| && p(xs[r.value])
    ensures r.Some? ==> forall k :: 0 <= k < r.value ==> !p(xs[k])
    ensures r.None? ==> forall k :: 0 <= k < |xs| ==> !p(xs[k])
    decreases |xs|
  {
    if xs == [] then None
    else match FirstWhere(xs[..|xs| - 1], p)
      case Some(k) => Some(k)
      case None => if p(xs[|xs| - 1]) then Some(|xs| - 1) else None
  }

  /** The index of the last element satisfying p. */
  function LastWhere<T>(xs: seq<T>, p: T -> bool): (r: Option<nat>)
    ensures r.Some? ==> r.value < |xs| && p(xs[r.value])
    ensures r.Some? ==> forall k :: r.value < k < |xs| ==> !p(xs[k])
    ensures r.None? ==> forall k :: 0 <= k < |xs| ==> !p(xs[k])
    decreases |xs|
  {
    if xs == [] then None
    else if p(xs[|xs| - 1]) then Some(|xs| - 1)
    else LastWhere(xs[..|xs| - 1], p)
  }

  /** One pass over xs remembering the first index satisfying p and the
      first satisfying q (the enumerate loops of find_metrics). */
  method FirstTwo<T>(xs: seq<T>, p: T -> bool, q: T -> bool) returns (a: Option<nat>, b: Option<nat>)
    ensures a == FirstWhere(xs, p) && b == FirstWhere(xs, q)
  {
    a, b := None, None;
    var i := 0;
    while i < |xs|
      invariant 0 <= i <= |xs|
      invariant a == FirstWhere(xs[..i], p) && b == FirstWhere(xs[..i], q)
    {
      assert xs[..i + 1][..i] == xs[..i];
      if a.None? && p(xs[i]) {
        a := Some(i);
      }
      if b.None? && q(xs[i]) {
        b := Some(i);
      }
      i := i + 1;
    }
    assert xs[..i] == xs;
  }

  /** One pass over xs remembering the last index satisfying p and the last
      satisfying q (the metric-row loop of orientation A). */
  method LastTwo<T>(xs: seq<T>, p: T -> bool, q: T -> bool) returns (a: Option<nat>, b: Option<nat>)
    ensures a == LastWhere(xs, p) && b == LastWhere(xs, q)
  {
    a, b := None, None;
    var i := 0;
    while i < |xs|
      invariant 0 <= i <= |xs|
      invariant a == LastWhere(xs[..i], p) && b == LastWhere(xs[..i], q)
    {
      assert xs[..i + 1][..i] == xs[..i];
      if p(xs[i]) {
        a := Some(i);
      }
      if q(xs[i]) {
        b := Some(i);
      }
      i := i + 1;
    }
    assert xs[..i] == xs;
  }

  /** [norm(h) for h in header]. */
  function NormEach(cells: seq<string>): (r: seq<string>)
    ensures |r| == |cells| && forall k :: 0 <= k < |cells| ==> r[k] == Norm(cells[k])
  {
    if cells == [] then [] else [Norm(cells[0])] + NormEach(cells[1..])
  }

  /** The cells of column c, one per row. */
  function Column(rows: seq<seq<string>>, c: nat): (r: seq<string>)
    requires forall k :: 0 <= k < |rows| ==> c < |rows[k]|
    ensures |r| == |rows| && forall k :: 0 <= k < |rows| ==> r[k] == rows[k][c]
  {
    if rows == [] then [] else Column(rows[..|rows| - 1], c) + [rows[|rows| - 1][c]]
  }

  predicate MentionsMetric(h: string) { Contains(h, "metric") }
  predicate NamesRuntime(h: string) { ContainsAny(h, RuntimeKeys) }
  predicate NamesAccuracy(h: string) { ContainsAny(h, AccuracyKeys) }
  predicate NamesSolver(h: string) { ContainsAny(h, SolverKeys) }
  predicate NamesBaseline(h: string) { ContainsAny(h, BaselineKeys) }

  /** The keyword tests find_metrics applies to header and label cells. The
      orientations are stated for any tests, so that what is proved about
      them does not depend on how a keyword is recognised. */
  datatype Tests = Tests(metric: string -> bool, runtime: string -> bool, accuracy: string -> bool,
                         solver: string -> bool, baseline: string -> bool)

  const Keywords: Tests := Tests(MentionsMetric, NamesRuntime, NamesAccuracy, NamesSolver, NamesBaseline)

  /** Every row has one cell per header cell, as find_first_table makes them. */
  predicate Rectangular(header: seq<string>, rows: seq<seq<string>>)
  {
    forall k :: 0 <= k < |rows| ==> |rows[k]| == |header|
  }

  /** The four values find_metrics returns. */
  datatype Metrics = Metrics(solverRuntime: string, baselineRuntime: string,
                             solverAccuracy: string, baselineAccuracy: string)

  datatype MetricsError = NotDetected

  /** Orientation A over the normalised header `hnorm`: a "metric" column
      names the rows, the solver and baseline columns hold the values; the
      last runtime row and the last accuracy row are read, and all four
      values must be non-empty. */
  function OrientationA(t: Tests, hnorm: seq<string>, rows: seq<seq<string>>): (r: Option<Metrics>)
    requires Rectangular(hnorm, rows)
    ensures r.Some? ==> r.value.solverRuntime != [] && r.value.baselineRuntime != []
    ensures r.Some? ==> r.value.solverAccuracy != [] && r.value.baselineAccuracy != []
  {
    var m := FirstWhere(hnorm, t.metric);
    var s := FirstWhere(hnorm, t.solver);
    var b := FirstWhere(hnorm, t.baseline);
    if m.None? || s.None? || b.None? then None
    else
      var names := Column(rows, m.value);
      var rt := LastWhere(names, t.runtime);
      var acc := LastWhere(names, t.accuracy);
      if rt.None? || acc.None? then None
      else
        var v := Metrics(rows[rt.value][s.value], rows[rt.value][b.value],
                         rows[acc.value][s.value], rows[acc.value][b.value]);
        if v.solverRuntime == [] || v.baselineRuntime == [] || v.solverAccuracy == [] || v.baselineAccuracy == []
        then None
        else Some(v)
  }

  /** Orientation B over the normalised header: the first runtime and first
      accuracy columns hold the values, column 0 names the rows, and the
      first solver row and first baseline row are read. */
  function OrientationB(t: Tests, hnorm: seq<string>, rows: seq<seq<string>>): Option<Metrics>
    requires Rectangular(hnorm, rows)
  {
    var rc := FirstWhere(hnorm, t.runtime);
    var ac := FirstWhere(hnorm, t.accuracy);
    if rc.None? || ac.None? then None
    else
      var labels := Column(rows, 0);
      var s := FirstWhere(labels, t.solver);
      var b := FirstWhere(labels, t.baseline);
      if s.None? || b.None? then None
      else Some(Metrics(rows[s.value][rc.value], rows[b.value][rc.value],
                        rows[s.value][ac.value], rows[b.value][ac.value]))
  }

  /** Orientation A when it yields all four values, else B, else an error. */
  function DetectWith(t: Tests, hnorm: seq<string>, rows: seq<seq<string>>): Result<Metrics, MetricsError>
    requires Rectangular(hnorm, rows)
  {
    match OrientationA(t, hnorm, rows)
    case Some(v) => Ok(v)
    case None =>
      match OrientationB(t, hnorm, rows)
      case Some(v) => Ok(v)
      case None => Err(NotDetected)
  }

  /** find_metrics: the header is normalised, then the keyword tests of the source apply. */
  function Detect(header: seq<string>, rows: seq<seq<string>>): Result<Metrics, MetricsError>
    requires Rectangular(header, rows)
  {
    DetectWith(Keywords, NormEach(header), rows)
  }

  /** find_metrics over the rows of find_first_table. */
  method FindMetrics(header: seq<string>, rows: seq<seq<string>>) returns (r: Result<Metrics, MetricsError>)
    requires Rectangular(header, rows)
    ensures r == Detect(header, rows)
  {
    var hnorm := NormEach(header);
    r := FindMetricsIn(Keywords, hnorm, rows);
  }

  /** The body of find_metrics once the header is normalised. */
  method FindMetricsIn(t: Tests, hnorm: seq<string>, rows: seq<seq<string>>) returns (r: Result<Metrics, MetricsError>)
    requires Rectangular(hnorm, rows)
    ensures r == DetectWith(t, hnorm, rows)
  {
    var metricCol := FirstWhere(hnorm, t.metric);
    var solverCol, baselineCol := FirstTwo(hnorm, t.solver, t.baseline);
    if metricCol.Some? && solverCol.Some? && baselineCol.Some? {
      var a := ReadMetricRows(t, hnorm, rows, metricCol.value, solverCol.value, baselineCol.value);
      if a.Some? {
        return Ok(a.value);
      }
    }
    var runtimeCol, accCol := FirstTwo(hnorm, t.runtime, t.accuracy);
    if runtimeCol.Some? && accCol.Some? {
      var v := ReadMetricColumns(t, hnorm, rows, runtimeCol.value, accCol.value);
      if v.Some? {
        return Ok(v.value);
      }
    }
    return Err(NotDetected);
  }

  /** The row loop of orientation A and its all-four-present test. */
  method ReadMetricRows(t: Tests, hnorm: seq<string>, rows: seq<seq<string>>, m: nat, s: nat, b: nat)
    returns (a: Option<Metrics>)
    requires Rectangular(hnorm, rows)
    requires FirstWhere(hnorm, t.metric) == Some(m)
    requires FirstWhere(hnorm, t.solver) == Some(s)
    requires FirstWhere(hnorm, t.baseline) == Some(b)
    ensures a == OrientationA(t, hnorm, rows)
  {
    var names := Column(rows, m);
    var rt, acc := LastTwo(names, t.runtime, t.accuracy);
    if rt.None? || acc.None? {
      return None;
    }
    var v := Metrics(rows[rt.value][s], rows[rt.value][b], rows[acc.value][s], rows[acc.value][b]);
    if v.solverRuntime == [] || v.baselineRuntime == [] || v.solverAccuracy == [] || v.baselineAccuracy == [] {
      return None;
    }
    return Some(v);
  }

  /** The label-row loop of orientation B: column 0 names the rows. */
  method ReadMetricColumns(t: Tests, hnorm: seq<string>, rows: seq<seq<string>>, rc: nat, ac: nat)
    returns (v: Option<Metrics>)
    requires Rectangular(hnorm, rows)
    requires FirstWhere(hnorm, t.runtime) == Some(rc)
    requires FirstWhere(hnorm, t.accuracy) == Some(ac)
    ensures v == OrientationB(t, hnorm, rows)
  {
    var labels := Column(rows, 0);
    var solverRow, baselineRow := FirstTwo(labels, t.solver, t.baseline);
    if solverRow.None? || baselineRow.None? {
      return None;
    }
    var sr, br := rows[solverRow.value], rows[baselineRow.value];
    return Some(Metrics(sr[rc], br[rc], sr[ac], br[ac]));
  }

  lemma {:induction false} FirstWhereAppend<T>(xs: seq<T>, y: T, p: T -> bool)
    requires FirstWhere(xs, p).Some?
    ensures FirstWhere(xs + [y], p) == FirstWhere(xs, p)
  {
    assert (xs + [y])[..|xs|] == xs;
  }

  lemma {:induction false} LastWhereAppend<T>(xs: seq<T>, y: T, p: T -> bool)
    ensures p(y) ==> LastWhere(xs + [y], p) == Some(|xs|)
    ensures !p(y) ==> LastWhere(xs + [y], p) == LastWhere(xs, p)
  {
    assert (xs + [y])[..|xs|] == xs;
  }

  lemma {:induction false} ColumnAppend(rows: seq<seq<string>>, x: seq<string>, c: nat)
    requires forall k :: 0 <= k < |rows| ==> c < |rows[k]|
    requires c < |x|
    ensures Column(rows + [x], c) == Column(rows, c) + [x[c]]
  {
    assert (rows + [x])[..|rows|] == rows;
  }

  /** In orientation A a later runtime row replaces the runtime values read
      so far and leaves the accuracy values alone. */
  lemma {:induction false} LastRuntimeRowWins(t: Tests, hnorm: seq<string>, rows: seq<seq<string>>, x: seq<string>, m: nat, s: nat, b: nat)
    requires Rectangular(hnorm, rows) && |x| == |hnorm|
    requires FirstWhere(hnorm, t.metric) == Some(m)
    requires FirstWhere(hnorm, t.solver) == Some(s)
    requires FirstWhere(hnorm, t.baseline) == Some(b)
    requires t.runtime(x[m]) && !t.accuracy(x[m]) && x[s] != [] && x[b] != []
    requires OrientationA(t, hnorm, rows).Some?
    ensures Rectangular(hnorm, rows + [x])
    ensures OrientationA(t, hnorm, rows + [x])
      == Some(OrientationA(t, hnorm, rows).value.(solverRuntime := x[s], baselineRuntime := x[b]))
  {
    var all := rows + [x];
    assert forall k :: 0 <= k < |rows| ==> all[k] == rows[k];
    ColumnAppend(rows, x, m);
    var names := Column(rows, m);
    LastWhereAppend(names, x[m], t.runtime);
    LastWhereAppend(names, x[m], t.accuracy);
  }

  /** In orientation B the first solver row and the first baseline row are
      kept: rows added after them change nothing. */
  lemma {:induction false} FirstLabelledRowsWin(t: Tests, hnorm: seq<string>, rows: seq<seq<string>>, x: seq<string>)
    requires Rectangular(hnorm, rows) && |x| == |hnorm|
    requires OrientationB(t, hnorm, rows).Some?
    ensures Rectangular(hnorm, rows + [x])
    ensures OrientationB(t, hnorm, rows + [x]) == OrientationB(t, hnorm, rows)
  {
    var all := rows + [x];
    RectangularSnoc(hnorm, rows, x);
    assert |hnorm| > 0;
    ColumnAppend(rows, x, 0);
    var labels := Column(rows, 0);
    FirstWhereAppend(labels, x[0], t.solver);
    FirstWhereAppend(labels, x[0], t.baseline);
    var rc := FirstWhere(hnorm, t.runtime).value;
    var ac := FirstWhere(hnorm, t.accuracy).value;
    var si := FirstWhere(labels, t.solver).value;
    var bi := FirstWhere(labels, t.baseline).value;
    OrientationBAt(t, hnorm, rows, rc, ac, si, bi);
    OrientationBAt(t, hnorm, all, rc, ac, si, bi);
    assert all[si] == rows[si] && all[bi] == rows[bi];
  }

  lemma {:induction false} RectangularSnoc(hnorm: seq<string>, rows: seq<seq<string>>, x: seq<string>)
    requires Rectangular(hnorm, rows) && |x| == |hnorm|
    ensures Rectangular(hnorm, rows + [x])
    ensures forall k :: 0 <= k < |rows| ==> (rows + [x])[k] == rows[k]
  {
    assert forall k :: 0 <= k < |rows| ==> (rows + [x])[k] == rows[k];
  }

  /** Orientation B reads the cells at the columns and rows it finds. */
  lemma {:induction false} OrientationBAt(t: Tests, hnorm: seq<string>, rows: seq<seq<string>>, rc: nat, ac: nat, si: nat, bi: nat)
    requires Rectangular(hnorm, rows)
    requires FirstWhere(hnorm, t.runtime) == Some(rc) && FirstWhere(hnorm, t.accuracy) == Some(ac)
    requires FirstWhere(Column(rows, 0), t.solver) == Some(si) && FirstWhere(Column(rows, 0), t.baseline) == Some(bi)
    ensures si < |rows| && bi < |rows| && rc < |hnorm| && ac < |hnorm|
    ensures OrientationB(t, hnorm, rows) == Some(Metrics(rows[si][rc], rows[bi][rc], rows[si][ac], rows[bi][ac]))
  {
  }

  /** Normalising every header cell twice is normalising it once. */
  lemma {:induction false} NormEachIdempotent(header: seq<string>)
    ensures NormEach(NormEach(header)) == NormEach(header)
  {
    var h := NormEach(header);
    forall k | 0 <= k < |header|
      ensures NormEach(h)[k] == h[k]
    {
      NormIdempotent(header[k]);
    }
  }

  /** The header is read through norm, so normalising it first (spacing, case)
      finds the same values. */
  lemma {:induction false} DetectOfNormalHeader(header: seq<string>, rows: seq<seq<string>>)
    requires Rectangular(header, rows)
    ensures Rectangular(NormEach(header), rows)
    ensures Detect(NormEach(header), rows) == Detect(header, rows)
  {
    NormEachIdempotent(header);
  }

  // ---------------------------------------------------------------------
  // replace_runtime_accuracy_bullets

  /** The runtime line written into the text files. */
  function RuntimeBullet(sr: string, br: string): string
  {
    "• Runtime: Solver = " + sr + " vs Baseline = " + br
  }

  /** The accuracy line written into the text files. */
  function AccuracyBullet(sa: string, ba: string): string
  {
    "• Accuracy: Solver = " + sa + " vs Baseline = " + ba
  }

  /** Each line holding `needle` (any case) becomes `bullet`; the others stay. */
  function ReplaceEach(lines: seq<string>, needle: string, bullet: string): (r: seq<string>)
    ensures |r| == |lines|
    ensures forall k :: 0 <= k < |lines| ==> ContainsNoCase(lines[k], needle) ==> r[k] == bullet
    ensures forall k :: 0 <= k < |lines| ==> !ContainsNoCase(lines[k], needle) ==> r[k] == lines[k]
  {
    if lines == [] then []
    else [if ContainsNoCase(lines[0], needle) then bullet else lines[0]] + ReplaceEach(lines[1..], needle, bullet)
  }

  /** re.sub(r"^.*<needle>.*$", bullet, text, flags=re.IGNORECASE | re.MULTILINE):
      `.` stops at '\n', so each '\n'-separated line is matched whole. */
  function ReplaceLines(text: string, needle: string, bullet: string): string
  {
    Join(ReplaceEach(Split(text, '\n'), needle, bullet), "\n")
  }

  /** replace_runtime_accuracy_bullets: the values get their units, then the
      runtime lines and afterwards the accuracy lines are rewritten. */
  function ReplaceBullets(text: string, solverRt: string, baseRt: string, solverAcc: string, baseAcc: string): string
  {
    var sr := EnsureRuntimeUnit(solverRt);
    var br := EnsureRuntimeUnit(baseRt);
    var sa := EnsurePercent(solverAcc);
    var ba := EnsurePercent(baseAcc);
    ReplaceLines(ReplaceLines(text, "runtime:", RuntimeBullet(sr, br)), "accuracy:", AccuracyBullet(sa, ba))
  }

  /** The text keeps its number of lines; a line is replaced whole by the
      bullet exactly when it holds the needle, and every other line is kept. */
  lemma {:induction false} ReplaceLinesLines(text: string, needle: string, bullet: string)
    requires '\n' !in bullet
    ensures var before := Split(text, '\n'); var after := Split(ReplaceLines(text, needle, bullet), '\n');
      |after| == |before| &&
      forall k :: 0 <= k < |before| ==>
        after[k] == (if ContainsNoCase(before[k], needle) then bullet else before[k])
  {
    var before := Split(text, '\n');
    var lines := ReplaceEach(before, needle, bullet);
    JoinSplit(text, '\n');
    forall k | 0 <= k < |lines|
      ensures '\n' !in lines[k]
    {
      if !ContainsNoCase(before[k], needle) {
        assert lines[k] == before[k];
      }
    }
    SplitJoin(lines, '\n');
  }

  /** A text with no line holding the needle is returned as it is. */
  lemma {:induction false} ReplaceLinesNoMatch(text: string, needle: string, bullet: string)
    requires forall k :: 0 <= k < |Split(text, '\n')| ==> !ContainsNoCase(Split(text, '\n')[k], needle)
    ensures ReplaceLines(text, needle, bullet) == text
  {
    var before := Split(text, '\n');
    assert ReplaceEach(before, needle, bullet) == before;
    JoinSplit(text, '\n');
  }

  /** replace_runtime_accuracy_bullets keeps the number of lines; a line
      holding "runtime:" becomes the runtime bullet, even when it also holds
      "accuracy:" (the runtime rule runs first and its bullet does not hold
      "accuracy:"), a line holding only "accuracy:" becomes the accuracy
      bullet, and every other line is kept. */
  lemma {:induction false} BulletLines(text: string, solverRt: string, baseRt: string, solverAcc: string, baseAcc: string, k: nat)
    requires var rb := RuntimeBullet(EnsureRuntimeUnit(solverRt), EnsureRuntimeUnit(baseRt));
      '\n' !in rb && !ContainsNoCase(rb, "accuracy:")
    requires '\n' !in AccuracyBullet(EnsurePercent(solverAcc), EnsurePercent(baseAcc))
    requires k < |Split(text, '\n')|
    ensures var before := Split(text, '\n');
      var after := Split(ReplaceBullets(text, solverRt, baseRt, solverAcc, baseAcc), '\n');
      |after| == |before| &&
      after[k] == (if ContainsNoCase(before[k], "runtime:") then RuntimeBullet(EnsureRuntimeUnit(solverRt), EnsureRuntimeUnit(baseRt))
                   else if ContainsNoCase(before[k], "accuracy:") then AccuracyBullet(EnsurePercent(solverAcc), EnsurePercent(baseAcc))
                   else before[k])
  {
    var rb := RuntimeBullet(EnsureRuntimeUnit(solverRt), EnsureRuntimeUnit(baseRt));
    var ab := AccuracyBullet(EnsurePercent(solverAcc), EnsurePercent(baseAcc));
    ReplaceLinesLines(text, "runtime:", rb);
    ReplaceLinesLines(ReplaceLines(text, "runtime:", rb), "accuracy:", ab);
  }

  // ---------------------------------------------------------------------
  // replace_runtime_accuracy_rows

  /** The two row rewrites: (?:runtime|time|latency|duration) for runtime
      rows and (?:accuracy|\bacc\b) for accuracy rows. */
  datatype RowKind = RuntimeRow | AccuracyRow

  /** A keyword of the kind starts at p of a first cell, in any case. The
      cell sits between two '|', so its two ends are word boundaries. */
  predicate RowKeyAt(kind: RowKind, cell: string, p: nat)
  {
    match kind
    case RuntimeRow =>
      LitAt(cell, p, "runtime") || LitAt(cell, p, "time") || LitAt(cell, p, "latency") || LitAt(cell, p, "duration")
    case AccuracyRow =>
      LitAt(cell, p, "accuracy")
      || (LitAt(cell, p, "acc") && (p == 0 || !IsWordChar(cell[p - 1])) && (p + 3 == |cell| || !IsWordChar(cell[p + 3])))
  }

  predicate HasRowKey(kind: RowKind, cell: string)
  {
    exists p :: 0 <= p <= |cell| && RowKeyAt(kind, cell, p)
  }

  /** The first cell of a line "|cell|...": the text between the leading
      '|' and the next one; None when the line does not have that shape. */
  function FirstCell(line: string): (r: Option<string>)
    ensures r.Some? ==> |r.value| + 2 <= |line| && line[0] == '|' && line[1..|r.value| + 1] == r.value
                        && line[|r.value| + 1] == '|' && '|' !in r.value
    ensures r.None? <==> line == [] || line[0] != '|' || '|' !in line[1..]
  {
    if line == [] || line[0] != '|' then None
    else match IndexOf(line[1..], '|')
      case None => None
      case Some(c) =>
        assert line[1..][..c] == line[1..c + 1];
        Some(line[1..c + 1])
  }

  /** The row the callback writes: the left (the stripped first cell), then the two values. */
  function RowOf(left: string, solverVal: string, baseVal: string): string
  {
    "| " + left + " | " + solverVal + " | " + baseVal + " |"
  }

  // One line under ^\|([^\n|]*?(?:keys).*?)\|.*$ with MULTILINE. The lazy
  // prefix cannot pass a '|', so the keyword lies in the first cell, and the
  // lazy .*? after it stops at the '|' closing that cell: group 1 is the
  // first cell, and the rest of the line is consumed by .*$.
  function RowLine(kind: RowKind, line: string, solverVal: string, baseVal: string): string
  {
    match FirstCell(line)
    case Some(cell) => if HasRowKey(kind, cell) then RowOf(Strip(cell), solverVal, baseVal) else line
    case None => line
  }

  /** repl_row: the pattern never spans a '\n', so re.sub works line by line. */
  function RowSub(kind: RowKind, text: string, solverVal: string, baseVal: string): string
  {
    var lines := Split(text, '\n');
    Join(seq(|lines|, k requires 0 <= k < |lines| => RowLine(kind, lines[k], solverVal, baseVal)), "\n")
  }

  /** replace_runtime_accuracy_rows as written: repl_row substitutes into the
      enclosing `text`, not into `t`, so the accuracy pass starts again from
      the original text and the runtime pass's result is dropped. */
  function ReplaceRowsAsWritten(text: string, solverRt: string, baseRt: string, solverAcc: string, baseAcc: string): string
  {
    RowSub(AccuracyRow, text, solverAcc, baseAcc)
  }

  /** replace_runtime_accuracy_rows as intended: the accuracy pass works on
      the result of the runtime pass. */
  function ReplaceRows(text: string, solverRt: string, baseRt: string, solverAcc: string, baseAcc: string): string
  {
    RowSub(AccuracyRow, RowSub(RuntimeRow, text, solverRt, baseRt), solverAcc, baseAcc)
  }

  lemma {:induction false} NotInStrip(s: string, c: char)
    requires c !in s
    ensures c !in Strip(s)
  {
    var l := LStrip(s);
    NotInSlice(s, |s| - |l|, |s|, c);
    var r := RStrip(l);
    NotInSlice(l, 0, |r|, c);
  }

  lemma {:induction false} NotInSlice(s: string, i: nat, j: nat, c: char)
    requires i <= j <= |s| && c !in s
    ensures c !in s[i..j]
  {
    assert forall k :: 0 <= k < j - i ==> s[i..j][k] == s[i + k];
  }

  /** The rewritten row splits on '|' into an empty text, the padded left,
      the two padded values and an empty text, so split_row of
      parse_md_table reads the cells back. */
  lemma {:induction false} RowOfCells(left: string, solverVal: string, baseVal: string)
    requires '|' !in left && '|' !in solverVal && '|' !in baseVal
    ensures Split(RowOf(left, solverVal, baseVal), '|') == ["", " " + left + " ", " " + solverVal + " ", " " + baseVal + " ", ""]
  {
    var parts := ["", " " + left + " ", " " + solverVal + " ", " " + baseVal + " ", ""];
    JoinCons(parts[3], [parts[4]], "|");
    assert parts[3..] == [parts[3]] + [parts[4]];
    JoinCons(parts[2], parts[3..], "|");
    assert parts[2..] == [parts[2]] + parts[3..];
    JoinCons(parts[1], parts[2..], "|");
    assert parts[1..] == [parts[1]] + parts[2..];
    JoinCons(parts[0], parts[1..], "|");
    assert parts == [parts[0]] + parts[1..];
    assert Join(parts, "|") == RowOf(left, solverVal, baseVal);
    SplitJoin(parts, '|');
  }

  /** A rewritten line holds a line break only where the values do. */
  lemma {:induction false} RowLineFree(kind: RowKind, line: string, solverVal: string, baseVal: string)
    requires '\n' !in line && '\n' !in solverVal && '\n' !in baseVal
    ensures '\n' !in RowLine(kind, line, solverVal, baseVal)
  {
    match FirstCell(line)
    case None =>
    case Some(cell) =>
      assert forall i :: 0 <= i < |cell| ==> cell[i] == line[i + 1];
      NotInStrip(cell, '\n');
      RowLineOfCell(kind, line, cell, solverVal, baseVal);
      RowOfFree(Strip(cell), solverVal, baseVal);
  }

  lemma {:induction false} RowOfFree(left: string, solverVal: string, baseVal: string)
    requires '\n' !in left && '\n' !in solverVal && '\n' !in baseVal
    ensures '\n' !in RowOf(left, solverVal, baseVal)
  {
    assert '\n' !in "| " && '\n' !in " | " && '\n' !in " |";
  }

  /** repl_row keeps the number of lines, rewrites a line exactly when its
      first cell holds a keyword of the kind, and keeps every other line. */
  lemma {:induction false} RowSubLines(kind: RowKind, text: string, solverVal: string, baseVal: string)
    requires '\n' !in solverVal && '\n' !in baseVal
    ensures var before := Split(text, '\n'); var after := Split(RowSub(kind, text, solverVal, baseVal), '\n');
      |after| == |before| &&
      forall k :: 0 <= k < |before| ==> after[k] == RowLine(kind, before[k], solverVal, baseVal)
  {
    var before := Split(text, '\n');
    var lines := seq(|before|, k requires 0 <= k < |before| => RowLine(kind, before[k], solverVal, baseVal));
    JoinSplit(text, '\n');
    forall k | 0 <= k < |lines|
      ensures '\n' !in lines[k]
    {
      RowLineFree(kind, before[k], solverVal, baseVal);
    }
    SplitJoin(lines, '\n');
  }

  /** Whatever the runtime rows, the function as written changes only lines
      whose first cell names accuracy: a text without such a line comes back
      unchanged, runtime rows included. */
  lemma {:induction false} RuntimeRowsLost(text: string, solverRt: string, baseRt: string, solverAcc: string, baseAcc: string)
    requires forall k :: 0 <= k < |Split(text, '\n')| ==>
      FirstCell(Split(text, '\n')[k]).None? || !HasRowKey(AccuracyRow, FirstCell(Split(text, '\n')[k]).value)
    ensures ReplaceRowsAsWritten(text, solverRt, baseRt, solverAcc, baseAcc) == text
  {
    var before := Split(text, '\n');
    var lines := seq(|before|, k requires 0 <= k < |before| => RowLine(AccuracyRow, before[k], solverAcc, baseAcc));
    assert lines == before;
    JoinSplit(text, '\n');
  }

  /** As intended, every line goes through both passes: a line whose first
      cell names a runtime keyword gets the runtime values, and the accuracy
      pass then rewrites what the runtime pass left. */
  lemma {:induction false} ReplaceRowsLines(text: string, solverRt: string, baseRt: string, solverAcc: string, baseAcc: string)
    requires '\n' !in solverRt && '\n' !in baseRt && '\n' !in solverAcc && '\n' !in baseAcc
    ensures var before := Split(text, '\n');
      var after := Split(ReplaceRows(text, solverRt, baseRt, solverAcc, baseAcc), '\n');
      |after| == |before| &&
      forall k :: 0 <= k < |before| ==>
        after[k] == RowLine(AccuracyRow, RowLine(RuntimeRow, before[k], solverRt, baseRt), solverAcc, baseAcc)
  {
    var mid := RowSub(RuntimeRow, text, solverRt, baseRt);
    RowSubLines(RuntimeRow, text, solverRt, baseRt);
    RowSubLines(AccuracyRow, mid, solverAcc, baseAcc);
  }

  /** A first cell without the letter a names no accuracy keyword. */
  lemma {:induction false} NoAccuracyKey(cell: string)
    requires forall i :: 0 <= i < |cell| ==> LowerChar(cell[i]) != 'a'
    ensures !HasRowKey(AccuracyRow, cell)
  {
    forall p | 0 <= p <= |cell| && RowKeyAt(AccuracyRow, cell, p)
      ensures false
    {
      if LitAt(cell, p, "accuracy") {
        LitAtFirst(cell, p, "accuracy");
      } else {
        LitAtFirst(cell, p, "acc");
      }
    }
  }

  /** A literal found at p starts with the lower case of s[p]. */
  lemma {:induction false} LitAtFirst(s: string, p: nat, lit: string)
    requires lit != [] && LitAt(s, p, lit)
    ensures LowerChar(s[p]) == lit[0]
  {
    assert Lower(s[p..p + |lit|])[0] == LowerChar(s[p]);
  }

  /** The first cell " Runtime " names the runtime and not the accuracy. */
  lemma RuntimeCellKeys()
    ensures HasRowKey(RuntimeRow, " Runtime ")
    ensures !HasRowKey(AccuracyRow, " Runtime ")
  {
    var cell := " Runtime ";
    assert cell[1..8] == "Runtime";
    assert Lower("Runtime") == "runtime";
    assert RowKeyAt(RuntimeRow, cell, 1);
    NoAccuracyKey(cell);
  }

  /** A text neither starting nor ending with whitespace, with one space
      added at each end, strips back to itself. */
  lemma {:induction false} StripOneSpace(s: string)
    requires s != [] && !IsSpace(s[0]) && !IsSpace(s[|s| - 1])
    ensures Strip(" " + s + " ") == s
  {
    assert AllSpace(" ");
    StripPadded(" ", s, " ");
    LStripOfStripped(s);
    RStripOfStripped(s);
  }

  /** A line starting "| Runtime |" has the first cell " Runtime ". */
  lemma {:induction false} RuntimeFirstCell(t: string)
    requires 11 <= |t| && t[..11] == "| Runtime |"
    ensures FirstCell(t) == Some(" Runtime ")
  {
    assert t[1..][9] == '|';
    assert forall i :: 0 <= i < 9 ==> t[1..][i] == " Runtime "[i];
    assert t[1..10] == " Runtime ";
  }

  /** A line starting "| Runtime |": the runtime pass rewrites it and the
      accuracy pass leaves it alone. */
  lemma {:induction false} RuntimeCellRow(t: string, solverVal: string, baseVal: string)
    requires 11 <= |t| && t[..11] == "| Runtime |"
    ensures RowLine(RuntimeRow, t, solverVal, baseVal) == RowOf("Runtime", solverVal, baseVal)
    ensures RowLine(AccuracyRow, t, solverVal, baseVal) == t
  {
    RuntimeFirstCell(t);
    RuntimeCellKeys();
    RuntimeCellStrip();
    RuntimeOnlyRow(t, " Runtime ", "Runtime", solverVal, baseVal);
  }

  lemma RuntimeCellStrip()
    ensures Strip(" Runtime ") == "Runtime"
  {
    StripOneSpace("Runtime");
    assert " " + "Runtime" + " " == " Runtime ";
  }

  /** A line whose first cell names the runtime but not the accuracy. */
  lemma {:induction false} RuntimeOnlyRow(t: string, cell: string, left: string, solverVal: string, baseVal: string)
    requires FirstCell(t) == Some(cell) && Strip(cell) == left
    requires HasRowKey(RuntimeRow, cell) && !HasRowKey(AccuracyRow, cell)
    ensures RowLine(RuntimeRow, t, solverVal, baseVal) == RowOf(left, solverVal, baseVal)
    ensures RowLine(AccuracyRow, t, solverVal, baseVal) == t
  {
    RowLineOfCell(RuntimeRow, t, cell, solverVal, baseVal);
    RowLineOfCell(AccuracyRow, t, cell, solverVal, baseVal);
  }

  lemma {:induction false} RowLineOfCell(kind: RowKind, line: string, cell: string, solverVal: string, baseVal: string)
    requires FirstCell(line) == Some(cell)
    ensures HasRowKey(kind, cell) ==> RowLine(kind, line, solverVal, baseVal) == RowOf(Strip(cell), solverVal, baseVal)
    ensures !HasRowKey(kind, cell) ==> RowLine(kind, line, solverVal, baseVal) == line
  {
  }

  /** On a one-line text the substitution is the rewrite of that line. */
  lemma {:induction false} RowSubOneLine(kind: RowKind, t: string, solverVal: string, baseVal: string)
    requires '\n' !in t
    ensures RowSub(kind, t, solverVal, baseVal) == RowLine(kind, t, solverVal, baseVal)
  {
    SplitFree(t, '\n');
  }

  /** A one-line table row "| Runtime |...", such as "| Runtime | 1 | 2 |":
      the function as written returns it unchanged, while the intended one
      writes the solver and baseline runtimes into it. */
  lemma {:induction false} RuntimeRowIgnored(t: string, solverRt: string, baseRt: string, solverAcc: string, baseAcc: string)
    requires '\n' !in t && 11 <= |t| && t[..11] == "| Runtime |"
    requires '\n' !in solverRt && '\n' !in baseRt
    ensures ReplaceRowsAsWritten(t, solverRt, baseRt, solverAcc, baseAcc) == t
    ensures ReplaceRows(t, solverRt, baseRt, solverAcc, baseAcc) == RowOf("Runtime", solverRt, baseRt)
  {
    var u := RowOf("Runtime", solverRt, baseRt);
    assert u[..11] == "| Runtime |";
    assert u == "| Runtime | " + solverRt + " | " + baseRt + " |";
    assert '\n' !in u;
    RowSubOneLine(AccuracyRow, t, solverAcc, baseAcc);
    RowSubOneLine(RuntimeRow, t, solverRt, baseRt);
    RowSubOneLine(AccuracyRow, u, solverAcc, baseAcc);
    RuntimeCellRow(t, solverAcc, baseAcc);
    RuntimeCellRow(t, solverRt, baseRt);
    RuntimeCellRow(u, solverAcc, baseAcc);
  }

  // ---------------------------------------------------------------------
  // fix_placeholder_links

  /** s[i:] starts with `lit`, compared case-insensitively (lit is lower case). */
  predicate LitAt(s: string, i: nat, lit: string)
  {
    i + |lit| <= |s| && Lower(s[i..i + |lit|]) == lit
  }

  // The end of a match of your-username\s*/\s*your-repo starting at i.
  function OwnerRepoAt(s: string, i: nat): (r: Option<nat>)
    ensures r.Some? ==> i < r.value <= |s|
  {
    if !LitAt(s, i, "your-username") then None
    else
      var q := SkipSpaces(s, i + 13);
      if !LitAt(s, q, "/") then None
      else
        var q2 := SkipSpaces(s, q + 1);
        if !LitAt(s, q2, "your-repo") then None
        else Some(q2 + 9)
  }

  // The end of a match at i of https://github\.com/\s*your-username\s*/\s*your-repo
  // in any case. Each run of spaces is taken whole, since the character
  // after the run is never a space.
  function FullLinkAt(s: string, i: nat): (r: Option<nat>)
    ensures r.Some? ==> i < r.value <= |s|
  {
    if !LitAt(s, i, "https://github.com/") then None
    else OwnerRepoAt(s, SkipSpaces(s, i + 19))
  }

  /** The bare placeholder, between word boundaries, at i. */
  function BareLinkAt(s: string, i: nat): (r: Option<nat>)
    ensures r.Some? ==> i < r.value <= |s|
  {
    if i > 0 && i - 1 < |s| && IsWordChar(s[i - 1]) then None
    else match OwnerRepoAt(s, i)
      case None => None
      case Some(e) => if e < |s| && IsWordChar(s[e]) then None else Some(e)
  }

  /** "/".join(repo_url.rstrip("/").split("/")[-2:]): the last two path parts. */
  function OwnerRepo(url: string): string
  {
    var parts := Split(RStripChars(url, {'/'}), '/');
    Join(if |parts| >= 2 then parts[|parts| - 2..] else parts, "/")
  }

  /** A URL made of '/'-free parts, the last one not empty, gives its last
      two parts joined by '/'. */
  lemma {:induction false} OwnerRepoOfParts(parts: seq<string>)
    requires |parts| >= 2 && parts[|parts| - 1] != []
    requires forall k :: 0 <= k < |parts| ==> '/' !in parts[k]
    ensures OwnerRepo(Join(parts, "/")) == parts[|parts| - 2] + "/" + parts[|parts| - 1]
  {
    var url := Join(parts, "/");
    JoinLastChar(parts, "/");
    var r := RStripChars(url, {'/'});
    assert r == url;
    SplitJoin(parts, '/');
    var n := |parts|;
    var last := parts[n - 2..];
    assert last == [parts[n - 2]] + [parts[n - 1]];
    JoinCons(parts[n - 2], [parts[n - 1]], "/");
  }

  /** The last character of a join is that of its last, non-empty part. */
  lemma {:induction false} JoinLastChar(parts: seq<string>, sep: string)
    requires |parts| >= 1 && parts[|parts| - 1] != []
    ensures var j := Join(parts, sep); j != [] && j[|j| - 1] == parts[|parts| - 1][|parts[|parts| - 1]| - 1]
  {
    if |parts| > 1 {
      JoinLastChar(parts[1..], sep);
    }
  }

  /** fix_placeholder_links: nothing changes without a repository URL;
      otherwise the full placeholder link becomes the URL and then the bare
      placeholder becomes owner/repo. */
  function FixPlaceholderLinks(text: string, repoUrl: Option<string>): (r: string)
    ensures repoUrl.None? || repoUrl.value == [] ==> r == text
  {
    if repoUrl.None? || repoUrl.value == [] then text
    else
      var url := repoUrl.value;
      var t := SubWith(FullLinkAt, text, 0, url);
      SubWith(BareLinkAt, t, 0, OwnerRepo(url))
  }

  /** Without any placeholder in the text the links are left alone. */
  lemma {:induction false} FixLinksWithoutPlaceholder(text: string, url: string)
    requires forall j :: 0 <= j < |text| ==> FullLinkAt(text, j).None? && BareLinkAt(text, j).None?
    ensures FixPlaceholderLinks(text, Some(url)) == text
  {
    SubWithNoMatch(FullLinkAt, text, 0, url);
    assert text[0..] == text;
    SubWithNoMatch(BareLinkAt, text, 0, OwnerRepo(url));
  }

  /** The placeholder link as the project's files write it, with a space
      after the host. */
  const SpacedLink: string := "https://github.com/ " + "your-username/your-repo"

  /** A text that is the spaced placeholder link becomes the repository URL,
      when the URL itself holds no bare placeholder. */
  lemma {:induction false} SpacedLinkFixed(url: string)
    requires url != []
    requires forall j :: 0 <= j < |url| ==> BareLinkAt(url, j).None?
    ensures FixPlaceholderLinks(SpacedLink, Some(url)) == url
  {
    SpacedLinkWhole();
    var s := SpacedLink;
    assert SubWith(FullLinkAt, s, 0, url) == url + SubWith(FullLinkAt, s, 43, url);
    assert url + [] == url;
    SubWithNoMatch(BareLinkAt, url, 0, OwnerRepo(url));
    assert url[0..] == url;
  }

  /** The full pattern matches the whole spaced placeholder link. */
  lemma SpacedLinkWhole()
    ensures |SpacedLink| == 43 && FullLinkAt(SpacedLink, 0) == Some(43)
  {
    SpacedLinkHost();
    SpacedLinkOwner();
    SpacedLinkRepo();
    OwnerRepoAtOf(SpacedLink, 20, 33, 34);
  }

  lemma SpacedLinkHost()
    ensures |SpacedLink| == 43 && LitAt(SpacedLink, 0, "https://github.com/")
    ensures SkipSpaces(SpacedLink, 19) == 20
  {
    var s := SpacedLink;
    assert s[0..19] == "https://github.com/";
    LitAtOf(s, 0, "https://github.com/");
    assert SkipSpaces(s, 20) == 20;
  }

  lemma SpacedLinkOwner()
    ensures 33 <= |SpacedLink| && LitAt(SpacedLink, 20, "your-username")
    ensures SkipSpaces(SpacedLink, 33) == 33
  {
    var s := SpacedLink;
    assert s[20..33] == "your-username";
    LitAtOf(s, 20, "your-username");
  }

  lemma SpacedLinkRepo()
    ensures 34 <= |SpacedLink| && LitAt(SpacedLink, 33, "/")
    ensures SkipSpaces(SpacedLink, 34) == 34 && LitAt(SpacedLink, 34, "your-repo")
  {
    var s := SpacedLink;
    assert s[33..34] == "/";
    LitAtOf(s, 33, "/");
    assert s[34..43] == "your-repo";
    LitAtOf(s, 34, "your-repo");
  }

  /** A text that is the bare placeholder becomes owner/repo of the URL. */
  lemma {:induction false} BarePlaceholderFixed(url: string)
    requires url != []
    ensures FixPlaceholderLinks(SpacedPlaceholder, Some(url)) == OwnerRepo(url)
  {
    var s := SpacedPlaceholder;
    NoLinkInPlaceholder();
    SubWithNoMatch(FullLinkAt, s, 0, url);
    assert s[0..] == s;
    BarePlaceholderMatches();
    var o := OwnerRepo(url);
    assert SubWith(BareLinkAt, s, 0, o) == o + SubWith(BareLinkAt, s, 25, o);
    assert o + [] == o;
  }

  /** The bare placeholder holds no full link. */
  lemma NoLinkInPlaceholder()
    ensures forall j :: 0 <= j < |SpacedPlaceholder| ==> FullLinkAt(SpacedPlaceholder, j).None?
  {
    var s := SpacedPlaceholder;
    assert |s| == 25 && s[..7] == "your-us";
    forall j | 0 <= j < |s| ensures FullLinkAt(s, j).None? {
      if j + 19 <= |s| {
        assert s[j] == s[..7][j];
        NotLitAt(s, j, "https://github.com/");
      }
    }
  }

  /** A literal whose first character differs from the text's, even after
      folding case, does not start there. */
  lemma {:induction false} NotLitAt(s: string, i: nat, lit: string)
    requires i < |s| && lit != [] && LowerChar(s[i]) != lit[0]
    ensures !LitAt(s, i, lit)
  {
    if i + |lit| <= |s| {
      assert Lower(s[i..i + |lit|])[0] == LowerChar(s[i]);
    }
  }

  /** A spaced placeholder is matched whole, and one glued to a word is not. */
  lemma BarePlaceholderMatches()
    ensures BareLinkAt(SpacedPlaceholder, 0) == Some(25)
    ensures BareLinkAt("xyour-username/your-repo", 1).None?
  {
    OwnerRepoExample();
    assert IsWordChar("xyour-username/your-repo"[0]);
  }

  /** The bare placeholder written with spaces around its '/'. */
  const SpacedPlaceholder: string := "your-username / your-repo"

  /** The spaced placeholder is matched whole. */
  lemma OwnerRepoExample()
    ensures OwnerRepoAt(SpacedPlaceholder, 0) == Some(25)
  {
    OwnerPart();
    SlashPart();
    RepoPart();
    OwnerRepoAtOf(SpacedPlaceholder, 0, 14, 16);
  }

  lemma OwnerPart()
    ensures 13 <= |SpacedPlaceholder| && LitAt(SpacedPlaceholder, 0, "your-username")
    ensures SkipSpaces(SpacedPlaceholder, 13) == 14
  {
    var s := SpacedPlaceholder;
    assert s[0..13] == "your-username";
    LitAtOf(s, 0, "your-username");
    assert SkipSpaces(s, 14) == 14;
  }

  lemma SlashPart()
    ensures 15 <= |SpacedPlaceholder| && LitAt(SpacedPlaceholder, 14, "/")
    ensures SkipSpaces(SpacedPlaceholder, 15) == 16
  {
    var s := SpacedPlaceholder;
    assert s[14..15] == "/";
    LitAtOf(s, 14, "/");
    assert SkipSpaces(s, 16) == 16;
  }

  lemma RepoPart()
    ensures LitAt(SpacedPlaceholder, 16, "your-repo")
  {
    var s := SpacedPlaceholder;
    assert s[16..25] == "your-repo";
    LitAtOf(s, 16, "your-repo");
  }

  /** The three parts of the placeholder found one after the other. */
  lemma {:induction false} OwnerRepoAtOf(s: string, i: nat, q: nat, q2: nat)
    requires i + 13 <= |s| && LitAt(s, i, "your-username") && SkipSpaces(s, i + 13) == q
    requires q + 1 <= |s| && LitAt(s, q, "/") && SkipSpaces(s, q + 1) == q2
    requires LitAt(s, q2, "your-repo")
    ensures OwnerRepoAt(s, i) == Some(q2 + 9)
  {
  }

  /** A literal without capitals found at i, in the same case. */
  lemma {:induction false} LitAtOf(s: string, i: nat, lit: string)
    requires i + |lit| <= |s| && s[i..i + |lit|] == lit
    requires forall k :: 0 <= k < |lit| ==> !IsUpper(lit[k])
    ensures LitAt(s, i, lit)
  {
    LowerOfNoUpper(lit);
  }
}
