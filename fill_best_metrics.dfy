/** fill_best_metrics.py: replace_metric_lines rewrites, line by line, every
    line that names the label together with "solver" and "baseline" into
    one clean metric line, and joins the lines again with '\n'. */
module FillBestMetrics {
  import opened Common

  /** f"• {label}: Solver = {solver_val} vs Baseline = {base_val}". */
  function MetricBullet(metric: string, solverVal: string, baseVal: string): string
  {
    "• " + metric + ": Solver = " + solverVal + " vs Baseline = " + baseVal
  }

  /** The line names the label, "solver" and "baseline", in any case. */
  predicate IsMetricLine(line: string, metric: string)
  {
    var low := Lower(line);
    Contains(low, Lower(metric)) && Contains(low, "solver") && Contains(low, "baseline")
  }

  /** What becomes of one line: the metric line when it names all three, else itself. */
  function MetricLine(line: string, metric: string, solverVal: string, baseVal: string): (r: string)
    ensures IsMetricLine(line, metric) ==> r == MetricBullet(metric, solverVal, baseVal)
    ensures !IsMetricLine(line, metric) ==> r == line
  {
    if IsMetricLine(line, metric) then MetricBullet(metric, solverVal, baseVal) else line
  }

  /** The new lines, one per line of the text. */
  function MetricLines(lines: seq<string>, metric: string, solverVal: string, baseVal: string): (r: seq<string>)
    ensures |r| == |lines|
    ensures forall k :: 0 <= k < |lines| ==> r[k] == MetricLine(lines[k], metric, solverVal, baseVal)
  {
    if lines == [] then []
    else MetricLines(lines[..|lines| - 1], metric, solverVal, baseVal)
         + [MetricLine(lines[|lines| - 1], metric, solverVal, baseVal)]
  }

  /** The text replace_metric_lines returns. */
  function Replaced(text: string, metric: string, solverVal: string, baseVal: string): string
  {
    Join(MetricLines(SplitLines(text), metric, solverVal, baseVal), "\n")
  }

  /** replace_metric_lines: the loop over text.splitlines() appending to new_lines. */
  method ReplaceMetricLines(text: string, metric: string, solverVal: string, baseVal: string) returns (r: string)
    ensures r == Replaced(text, metric, solverVal, baseVal)
  {
    var lines := SplitLines(text);
    var newLines: seq<string> := [];
    var i := 0;
    while i < |lines|
      invariant 0 <= i <= |lines|
      invariant newLines == MetricLines(lines[..i], metric, solverVal, baseVal)
    {
      var line := lines[i];
      var low := Lower(line);
      if Contains(low, Lower(metric)) && Contains(low, "solver") && Contains(low, "baseline") {
        line := MetricBullet(metric, solverVal, baseVal);
      }
      assert lines[..i + 1][..i] == lines[..i];
      newLines := newLines + [line];
      i := i + 1;
    }
    assert lines[..i] == lines;
    r := Join(newLines, "\n");
  }

  // ---------------------------------------------------------------------
  // The metric line is a fixed point

  lemma {:induction false} ContainsAt(s: string, needle: string, j: nat)
    requires j <= |s| && StartsWith(s[j..], needle)
    ensures Contains(s, needle)
    decreases j
  {
    if j > 0 {
      assert s[1..][j - 1..] == s[j..];
      ContainsAt(s[1..], needle, j - 1);
    }
  }

  /** The lower-cased text holds `lit` at j, read character by character. */
  lemma {:induction false} ContainsLowerAt(s: string, lit: string, j: nat)
    requires j + |lit| <= |s|
    requires forall k :: 0 <= k < |lit| ==> LowerChar(s[j + k]) == lit[k]
    ensures Contains(Lower(s), lit)
  {
    var low := Lower(s);
    assert low[j..][..|lit|] == lit;
    ContainsAt(low, lit, j);
  }

  /** The metric line names its label, "solver" and "baseline". */
  lemma {:induction false} BulletIsMetricLine(metric: string, solverVal: string, baseVal: string)
    ensures IsMetricLine(MetricBullet(metric, solverVal, baseVal), metric)
  {
    var b := MetricBullet(metric, solverVal, baseVal);
    var p := "• " + metric;
    var m := ": Solver = ";
    var q := solverVal + " vs Baseline = " + baseVal;
    assert b == p + m + q;
    var ll := Lower(metric);
    forall k | 0 <= k < |ll|
      ensures LowerChar(b[2 + k]) == ll[k]
    {
      assert b[2 + k] == metric[k];
    }
    ContainsLowerAt(b, ll, 2);
    var solver := "solver";
    forall k | 0 <= k < 6
      ensures LowerChar(b[|p| + 2 + k]) == solver[k]
    {
      assert b[|p| + 2 + k] == m[2 + k];
    }
    ContainsLowerAt(b, solver, |p| + 2);
    var baseline := "baseline";
    var v := " vs Baseline = ";
    var at := |p| + |m| + |solverVal| + 4;
    assert b == (p + m + solverVal) + v + baseVal;
    forall k | 0 <= k < 8
      ensures LowerChar(b[at + k]) == baseline[k]
    {
      assert b[at + k] == v[4 + k];
    }
    ContainsLowerAt(b, baseline, at);
  }

  /** Rewriting a line a second time changes nothing. */
  lemma {:induction false} MetricLineStable(line: string, metric: string, solverVal: string, baseVal: string)
    ensures var once := MetricLine(line, metric, solverVal, baseVal);
      MetricLine(once, metric, solverVal, baseVal) == once
  {
    BulletIsMetricLine(metric, solverVal, baseVal);
  }

  // ---------------------------------------------------------------------
  // The text as a whole

  /** The returned text has the same lines, each rewritten on its own, when
      the values hold no line break and the text's last line is not empty. */
  lemma {:induction false} ReplacedLines(text: string, metric: string, solverVal: string, baseVal: string)
    requires NoLineBreak(MetricBullet(metric, solverVal, baseVal))
    requires SplitLines(text) == [] || SplitLines(text)[|SplitLines(text)| - 1] != []
    ensures SplitLines(Replaced(text, metric, solverVal, baseVal)) == MetricLines(SplitLines(text), metric, solverVal, baseVal)
  {
    var lines := SplitLines(text);
    var out := MetricLines(lines, metric, solverVal, baseVal);
    forall k | 0 <= k < |out|
      ensures NoLineBreak(out[k])
    {
      if !IsMetricLine(lines[k], metric) {
        assert out[k] == lines[k];
      }
    }
    if lines != [] {
      var last := |lines| - 1;
      if !IsMetricLine(lines[last], metric) {
        assert out[last] == lines[last];
      } else {
        assert out[last] == MetricBullet(metric, solverVal, baseVal);
        assert MetricBullet(metric, solverVal, baseVal)[0] == '•';
      }
    }
    SplitLinesJoin(out);
  }

  /** Under the same conditions a second run leaves the text as it is. */
  lemma {:induction false} ReplacedIdempotent(text: string, metric: string, solverVal: string, baseVal: string)
    requires NoLineBreak(MetricBullet(metric, solverVal, baseVal))
    requires SplitLines(text) == [] || SplitLines(text)[|SplitLines(text)| - 1] != []
    ensures Replaced(Replaced(text, metric, solverVal, baseVal), metric, solverVal, baseVal)
         == Replaced(text, metric, solverVal, baseVal)
  {
    var lines := SplitLines(text);
    var out := MetricLines(lines, metric, solverVal, baseVal);
    ReplacedLines(text, metric, solverVal, baseVal);
    forall k | 0 <= k < |out|
      ensures MetricLine(out[k], metric, solverVal, baseVal) == out[k]
    {
      MetricLineStable(lines[k], metric, solverVal, baseVal);
    }
    assert MetricLines(out, metric, solverVal, baseVal) == out;
  }

  /** splitlines drops the break after the last line and the join does not
      put it back: "a\n" becomes "a", and an empty last line is lost, so
      "a\n\n" becomes "a\n" and then "a" on a second run. */
  lemma {:induction false} TrailingBreaksLost(metric: string, solverVal: string, baseVal: string)
    ensures Replaced("a\n", metric, solverVal, baseVal) == "a"
    ensures Replaced("a\n\n", metric, solverVal, baseVal) == "a\n"
  {
    var one := "a\n";
    assert LineEnd(one[1..]) == 0;
    assert LineEnd(one) == 1;
    assert AfterBreak(one) == [];
    assert one[..1] == "a";
    assert SplitLines(one) == ["a"];
    var two := "a\n\n";
    assert LineEnd(two[1..]) == 0;
    assert LineEnd(two) == 1;
    assert AfterBreak(two) == "\n";
    assert two[..1] == "a";
    var nl := "\n";
    assert LineEnd(nl) == 0;
    assert AfterBreak(nl) == [];
    assert SplitLines(nl) == [[]];
    assert SplitLines(two) == ["a", ""];
    assert !Contains(Lower("a"), "solver") by {
      assert Lower("a") == "a";
    }
    assert !Contains(Lower(""), "solver");
    assert MetricLines(["a"], metric, solverVal, baseVal) == ["a"];
    assert MetricLines(["a", ""], metric, solverVal, baseVal) == ["a", ""];
    assert Join(["a", ""], "\n") == "a" + "\n" + Join([""], "\n");
  }
}
