/** Shared datatypes and the Python string builtins the scripts rely on
    (str.strip, str.split, str.splitlines, str.lower, `in`, float()). */
module Common {

  datatype Option<+T> = None | Some(value: T)

  datatype Result<+T, +E> = Ok(value: T) | Err(error: E)

  // ---------------------------------------------------------------------
  // Characters

  /** Python's str.isspace(); also the characters `\s` matches in a str regex. */
  predicate IsSpace(c: char)
  {
    c == ' ' || ('\t' <= c <= '\r') || ('\U{1C}' <= c <= '\U{1F}') || c == '\U{85}' || c == '\U{A0}'
    || c == '\U{1680}' || ('\U{2000}' <= c <= '\U{200A}') || c == '\U{2028}' || c == '\U{2029}'
    || c == '\U{202F}' || c == '\U{205F}' || c == '\U{3000}'
  }

  /** The line boundaries of Python's str.splitlines(). */
  predicate IsLineBreak(c: char)
  {
    c == '\n' || c == '\r' || c == '\U{0B}' || c == '\U{0C}' || ('\U{1C}' <= c <= '\U{1E}')
    || c == '\U{85}' || c == '\U{2028}' || c == '\U{2029}'
  }

  predicate IsDigit(c: char) { '0' <= c <= '9' }

  predicate IsUpper(c: char) { 'A' <= c <= 'Z' }

  /** A character `\w` matches (ASCII letters, digits and underscore). */
  predicate IsWordChar(c: char) { IsDigit(c) || 'a' <= c <= 'z' || IsUpper(c) || c == '_' }

  function LowerChar(c: char): char
  {
    if IsUpper(c) then (c as int + 32) as char else c
  }

  /** str.lower() on ASCII letters. */
  function Lower(s: string): string
  {
    seq(|s|, i requires 0 <= i < |s| => LowerChar(s[i]))
  }

  /** Text without upper-case letters is its own lower case. */
  lemma {:induction false} LowerOfNoUpper(s: string)
    requires forall k :: 0 <= k < |s| ==> !IsUpper(s[k])
    ensures Lower(s) == s
  {
  }

  // ---------------------------------------------------------------------
  // Searching

  predicate StartsWith(s: string, prefix: string)
  {
    |prefix| <= |s| && s[..|prefix|] == prefix
  }

  predicate EndsWith(s: string, suffix: string)
  {
    |suffix| <= |s| && s[|s| - |suffix|..] == suffix
  }

  /** Python's `needle in s` for strings. */
  predicate Contains(s: string, needle: string)
    decreases |s|
  {
    StartsWith(s, needle) || (|s| > 0 && Contains(s[1..], needle))
  }

  /** Python's `needle.lower() in s.lower()`. */
  predicate ContainsNoCase(s: string, needle: string)
  {
    Contains(Lower(s), Lower(needle))
  }

  /** s.find(needle) when it is not -1. */
  function Find(s: string, needle: string): (r: Option<nat>)
    ensures r.Some? ==> r.value + |needle| <= |s| && s[r.value..r.value + |needle|] == needle
    ensures r.Some? <==> Contains(s, needle)
    decreases |s|
  {
    if StartsWith(s, needle) then Some(0)
    else if |s| == 0 then None
    else match Find(s[1..], needle)
      case None => None
      case Some(k) => Some(k + 1)
  }

  /** s.find(needle) is the first occurrence: none starts before it. */
  lemma {:induction false} FindFirst(s: string, needle: string)
    ensures Find(s, needle).Some? ==> forall j :: 0 <= j < Find(s, needle).value ==> !StartsWith(s[j..], needle)
    decreases |s|
  {
    if !StartsWith(s, needle) && |s| > 0 {
      FindFirst(s[1..], needle);
      forall j | 1 <= j <= |s|
        ensures s[j..] == s[1..][j - 1..]
      {
      }
    }
  }

  /** s.index(c) when c occurs: the first position holding c. */
  function IndexOf(s: string, c: char): (r: Option<nat>)
    ensures r.Some? ==> r.value < |s| && s[r.value] == c && c !in s[..r.value]
    ensures r.None? <==> c !in s
  {
    if |s| == 0 then None
    else if s[0] == c then Some(0)
    else match IndexOf(s[1..], c)
      case None => None
      case Some(k) => assert s[..k + 1] == [s[0]] + s[1..][..k]; Some(k + 1)
  }

  // ---------------------------------------------------------------------
  // Stripping

  /** str.lstrip(): drop leading whitespace. */
  function LStrip(s: string): (r: string)
    ensures |r| <= |s| && r == s[|s| - |r|..]
    ensures r == [] || !IsSpace(r[0])
    ensures forall i :: 0 <= i < |s| - |r| ==> IsSpace(s[i])
  {
    if |s| > 0 && IsSpace(s[0]) then LStrip(s[1..]) else s
  }

  /** str.rstrip(): drop trailing whitespace. */
  function RStrip(s: string): (r: string)
    ensures |r| <= |s| && r == s[..|r|]
    ensures r == [] || !IsSpace(r[|r| - 1])
    ensures forall i :: |r| <= i < |s| ==> IsSpace(s[i])
  {
    if |s| > 0 && IsSpace(s[|s| - 1]) then RStrip(s[..|s| - 1]) else s
  }

  /** str.strip(). */
  function Strip(s: string): string
  {
    RStrip(LStrip(s))
  }

  /** str.lstrip(chars): drop the leading run of characters from `chars`. */
  function LStripChars(s: string, chars: set<char>): (r: string)
    ensures |r| <= |s| && r == s[|s| - |r|..]
    ensures r == [] || r[0] !in chars
  {
    if |s| > 0 && s[0] in chars then LStripChars(s[1..], chars) else s
  }

  /** str.rstrip(chars): drop the trailing run of characters from `chars`. */
  function RStripChars(s: string, chars: set<char>): (r: string)
    ensures |r| <= |s| && r == s[..|r|]
    ensures r == [] || r[|r| - 1] !in chars
    ensures forall i :: |r| <= i < |s| ==> s[i] in chars
  {
    if |s| > 0 && s[|s| - 1] in chars then RStripChars(s[..|s| - 1], chars) else s
  }

  /** str.strip(chars). */
  function StripChars(s: string, chars: set<char>): string
  {
    RStripChars(LStripChars(s, chars), chars)
  }

  lemma {:induction false} LStripOfStripped(s: string)
    requires s == [] || !IsSpace(s[0])
    ensures LStrip(s) == s
  {
  }

  lemma {:induction false} RStripOfStripped(s: string)
    requires s == [] || !IsSpace(s[|s| - 1])
    ensures RStrip(s) == s
  {
  }

  predicate AllSpace(s: string)
  {
    forall i :: 0 <= i < |s| ==> IsSpace(s[i])
  }

  /** Stripping ignores whitespace added at either end. */
  lemma {:induction false} StripPadded(pre: string, s: string, post: string)
    requires AllSpace(pre) && AllSpace(post)
    ensures Strip(pre + s + post) == Strip(s)
  {
    assert pre + s + post == pre + (s + post);
    LStripSpaces(pre, s + post);
    if AllSpace(s) {
      assert AllSpace(s + post);
      LStripAllSpace(s + post);
      LStripAllSpace(s);
    } else {
      LStripAppend(s, post);
      RStripSpaces(LStrip(s), post);
    }
  }

  lemma {:induction false} LStripSpaces(pre: string, s: string)
    requires AllSpace(pre)
    ensures LStrip(pre + s) == LStrip(s)
  {
    if pre != [] {
      assert (pre + s)[1..] == pre[1..] + s;
      LStripSpaces(pre[1..], s);
    } else {
      assert pre + s == s;
    }
  }

  lemma {:induction false} RStripSpaces(s: string, post: string)
    requires AllSpace(post)
    ensures RStrip(s + post) == RStrip(s)
  {
    if post != [] {
      assert (s + post)[..|s + post| - 1] == s + post[..|post| - 1];
      RStripSpaces(s, post[..|post| - 1]);
    } else {
      assert s + post == s;
    }
  }

  /** Whitespace appended to a string that is not all whitespace survives lstrip(). */
  lemma {:induction false} LStripAppend(s: string, post: string)
    requires !AllSpace(s)
    ensures LStrip(s + post) == LStrip(s) + post
  {
    if IsSpace(s[0]) {
      assert (s + post)[1..] == s[1..] + post;
      assert !AllSpace(s[1..]) by {
        var i :| 0 <= i < |s| && !IsSpace(s[i]);
        assert s[1..][i - 1] == s[i];
      }
      LStripAppend(s[1..], post);
    }
  }

  lemma {:induction false} LStripAllSpace(s: string)
    requires AllSpace(s)
    ensures LStrip(s) == []
  {
    if s != [] {
      LStripAllSpace(s[1..]);
    }
  }

  /** The result of strip() is returned unchanged by a second strip(). */
  lemma {:induction false} StripIdempotent(s: string)
    ensures Strip(Strip(s)) == Strip(s)
  {
    var l := LStrip(s);
    var r := RStrip(l);
    if r != [] {
      assert r[0] == l[0];
      LStripOfStripped(r);
    }
    RStripOfStripped(r);
  }

  // ---------------------------------------------------------------------
  // Splitting and joining

  lemma {:induction false} AppendAssoc<T>(a: seq<T>, b: seq<T>, c: seq<T>)
    ensures (a + b) + c == a + (b + c)
  {
  }

  /** str.split(sep) for a one-character separator: never empty, and
      "a..b".split(".") == ["a", "", "b"]. */
  function Split(s: string, sep: char): (parts: seq<string>)
    ensures |parts| >= 1
  {
    if s == [] then [[]]
    else
      var rest := Split(s[1..], sep);
      if s[0] == sep then [[]] + rest else [[s[0]] + rest[0]] + rest[1..]
  }

  /** sep.join(parts). */
  function Join(parts: seq<string>, sep: string): string
  {
    if |parts| == 0 then []
    else if |parts| == 1 then parts[0]
    else parts[0] + sep + Join(parts[1..], sep)
  }

  lemma {:induction false} JoinCons(p: string, parts: seq<string>, sep: string)
    requires |parts| >= 1
    ensures Join([p] + parts, sep) == p + sep + Join(parts, sep)
  {
    assert ([p] + parts)[1..] == parts;
  }

  /** Joining the pieces of a split gives back the string, and no piece holds the separator. */
  lemma {:induction false} JoinSplit(s: string, sep: char)
    ensures Join(Split(s, sep), [sep]) == s
    ensures forall k :: 0 <= k < |Split(s, sep)| ==> sep !in Split(s, sep)[k]
  {
    JoinOfSplit(s, sep);
    SplitPiecesFree(s, sep);
  }

  lemma {:induction false} JoinOfSplit(s: string, sep: char)
    ensures Join(Split(s, sep), [sep]) == s
  {
    if s != [] {
      var rest := Split(s[1..], sep);
      JoinOfSplit(s[1..], sep);
      if s[0] == sep {
        JoinCons([], rest, [sep]);
        assert s == [s[0]] + s[1..];
      } else {
        var parts := [[s[0]] + rest[0]] + rest[1..];
        if |rest| == 1 {
          assert Join(parts, [sep]) == [s[0]] + rest[0];
          assert rest[0] == Join(rest, [sep]);
        } else {
          assert rest == [rest[0]] + rest[1..];
          JoinCons(rest[0], rest[1..], [sep]);
          JoinCons([s[0]] + rest[0], rest[1..], [sep]);
        }
        assert s == [s[0]] + s[1..];
      }
    }
  }

  lemma {:induction false} SplitPiecesFree(s: string, sep: char)
    ensures forall k :: 0 <= k < |Split(s, sep)| ==> sep !in Split(s, sep)[k]
  {
    if s != [] {
      var rest := Split(s[1..], sep);
      SplitPiecesFree(s[1..], sep);
      if s[0] != sep {
        var parts := [[s[0]] + rest[0]] + rest[1..];
        forall k | 0 <= k < |parts| ensures sep !in parts[k] {
          if k == 0 {
            assert sep !in rest[0];
          } else {
            assert parts[k] == rest[k];
          }
        }
      }
    }
  }

  /** A character missing from the text is missing from every piece of its split. */
  lemma {:induction false} SplitPiecesWithout(s: string, sep: char, c: char)
    requires c !in s
    ensures forall k :: 0 <= k < |Split(s, sep)| ==> c !in Split(s, sep)[k]
  {
    if s != [] {
      var rest := Split(s[1..], sep);
      SplitPiecesWithout(s[1..], sep, c);
      if s[0] != sep {
        var parts := [[s[0]] + rest[0]] + rest[1..];
        forall k | 0 <= k < |parts| ensures c !in parts[k] {
          if k == 0 {
            assert c !in rest[0];
          } else {
            assert parts[k] == rest[k];
          }
        }
      }
    }
  }

  /** A character in neither the pieces nor the separator is not in their join. */
  lemma {:induction false} JoinWithout(parts: seq<string>, sep: string, c: char)
    requires c !in sep
    requires forall k :: 0 <= k < |parts| ==> c !in parts[k]
    ensures c !in Join(parts, sep)
  {
    if |parts| > 1 {
      JoinWithout(parts[1..], sep, c);
    }
  }

  /** Splitting a join of separator-free pieces gives back the pieces. */
  lemma {:induction false} SplitJoin(parts: seq<string>, sep: char)
    requires |parts| >= 1
    requires forall k :: 0 <= k < |parts| ==> sep !in parts[k]
    ensures Split(Join(parts, [sep]), sep) == parts
    decreases |parts|, |parts[0]|
  {
    var p := parts[0];
    if |parts| == 1 {
      SplitFree(p, sep);
    } else if p == [] {
      JoinCons(p, parts[1..], [sep]);
      var t := Join(parts[1..], [sep]);
      assert Join(parts, [sep]) == [sep] + t;
      assert ([sep] + t)[1..] == t;
      SplitJoin(parts[1..], sep);
      assert parts == [[]] + parts[1..];
    } else {
      var shorter := [p[1..]] + parts[1..];
      assert shorter[1..] == parts[1..];
      forall k | 0 <= k < |shorter| ensures sep !in shorter[k] {
        if k == 0 { assert sep !in p; } else { assert shorter[k] == parts[k]; }
      }
      SplitJoin(shorter, sep);
      JoinCons(p, parts[1..], [sep]);
      JoinCons(p[1..], parts[1..], [sep]);
      var t := Join(parts, [sep]);
      assert t == [p[0]] + Join(shorter, [sep]);
      assert t[1..] == Join(shorter, [sep]);
      assert p[0] != sep;
      assert [p[0]] + p[1..] == p;
      assert parts == [p] + parts[1..];
    }
  }

  lemma {:induction false} SplitFree(s: string, sep: char)
    requires sep !in s
    ensures Split(s, sep) == [s]
  {
    if s != [] {
      SplitFree(s[1..], sep);
      assert [s[0]] + s[1..] == s;
    }
  }

  /** The index where the first line of s ends (a line break or the end). */
  function LineEnd(s: string): (k: nat)
    ensures k <= |s| && (k < |s| ==> IsLineBreak(s[k]))
    ensures forall i :: 0 <= i < k ==> !IsLineBreak(s[i])
  {
    if |s| == 0 || IsLineBreak(s[0]) then 0 else 1 + LineEnd(s[1..])
  }

  /** What follows the first line break of s ("\r\n" counts as one break). */
  function AfterBreak(s: string): (rest: string)
    ensures |rest| < |s| || (rest == [] && s == [])
  {
    var k := LineEnd(s);
    if k == |s| then []
    else if s[k] == '\r' && k + 1 < |s| && s[k + 1] == '\n' then s[k + 2..]
    else s[k + 1..]
  }

  /** str.splitlines(): "" gives [], and a final line break adds no empty line. */
  function SplitLines(s: string): (lines: seq<string>)
    ensures forall k :: 0 <= k < |lines| ==> forall i :: 0 <= i < |lines[k]| ==> !IsLineBreak(lines[k][i])
    decreases |s|
  {
    if s == [] then [] else [s[..LineEnd(s)]] + SplitLines(AfterBreak(s))
  }

  predicate NoLineBreak(s: string)
  {
    forall i :: 0 <= i < |s| ==> !IsLineBreak(s[i])
  }

  /** "\n".join(lines).splitlines() == lines when no line holds a break and the
      last line is not empty (an empty last line is lost, as in "a\n"). */
  lemma {:induction false} SplitLinesJoin(lines: seq<string>)
    requires forall k :: 0 <= k < |lines| ==> NoLineBreak(lines[k])
    requires lines == [] || lines[|lines| - 1] != []
    ensures SplitLines(Join(lines, "\n")) == lines
  {
    if |lines| == 1 {
      var s := lines[0];
      assert LineEnd(s) == |s| by { LineEndFree(s); }
      assert AfterBreak(s) == [];
      assert s[..LineEnd(s)] == s;
      assert Join(lines, "\n") == s;
    } else if |lines| > 1 {
      var s := lines[0];
      var t := Join(lines[1..], "\n");
      assert lines == [s] + lines[1..];
      JoinCons(s, lines[1..], "\n");
      var j := s + "\n" + t;
      LineEndFree(s);
      LineEndAppend(s, "\n" + t);
      assert j == s + ("\n" + t);
      assert LineEnd(j) == |s|;
      assert j[..|s|] == s;
      assert j[|s|] == '\n';
      assert AfterBreak(j) == t;
      SplitLinesJoin(lines[1..]);
    }
  }

  lemma {:induction false} LineEndFree(s: string)
    requires NoLineBreak(s)
    ensures LineEnd(s) == |s|
  {
    if s != [] { LineEndFree(s[1..]); }
  }

  lemma {:induction false} LineEndAppend(s: string, t: string)
    requires NoLineBreak(s)
    ensures LineEnd(s + t) == |s| + LineEnd(t)
  {
    if s != [] {
      assert (s + t)[1..] == s[1..] + t;
      LineEndAppend(s[1..], t);
    } else {
      assert s + t == t;
    }
  }

  // ---------------------------------------------------------------------
  // re.sub

  /** `at` never matches the empty string: each match it reports ends after
      its start and inside s. */
  predicate NonEmptyMatches(at: (string, nat) -> Option<nat>, s: string)
  {
    forall j :: 0 <= j < |s| ==> at(s, j).Some? ==> j < at(s, j).value <= |s|
  }

  /** re.sub from position i on, for a pattern whose match starting at j
      ends at at(s, j): each leftmost match is replaced by repl and the scan
      resumes after it; characters where no match starts are copied. */
  function SubWith(at: (string, nat) -> Option<nat>, s: string, i: nat, repl: string): string
    requires i <= |s| && NonEmptyMatches(at, s)
    decreases |s| - i
  {
    if i == |s| then []
    else match at(s, i)
      case Some(e) => repl + SubWith(at, s, e, repl)
      case None => [s[i]] + SubWith(at, s, i + 1, repl)
  }

  /** Where no match starts, re.sub returns the text unchanged. */
  lemma {:induction false} SubWithNoMatch(at: (string, nat) -> Option<nat>, s: string, i: nat, repl: string)
    requires i <= |s| && NonEmptyMatches(at, s)
    requires forall j :: i <= j < |s| ==> at(s, j).None?
    ensures SubWith(at, s, i, repl) == s[i..]
    decreases |s| - i
  {
    if i < |s| {
      SubWithNoMatch(at, s, i + 1, repl);
      assert s[i..] == [s[i]] + s[i + 1..];
    }
  }

  // ---------------------------------------------------------------------
  // Numbers

  function Sum(xs: seq<real>): real
  {
    if xs == [] then 0.0 else xs[0] + Sum(xs[1..])
  }

  lemma {:induction false} SumAppend(xs: seq<real>, x: real)
    ensures Sum(xs + [x]) == Sum(xs) + x
  {
    if xs != [] {
      assert (xs + [x])[1..] == xs[1..] + [x];
      SumAppend(xs[1..], x);
    }
  }

  predicate AllDigits(s: string)
  {
    forall i :: 0 <= i < |s| ==> IsDigit(s[i])
  }

  /** The value of a string of ASCII digits (int(s) for such strings). */
  function DigitsValue(s: string): nat
    requires AllDigits(s)
  {
    if s == [] then 0 else 10 * DigitsValue(s[..|s| - 1]) + (s[|s| - 1] as int - '0' as int)
  }

  function Pow10(e: nat): (r: nat)
    ensures r >= 1
  {
    if e == 0 then 1 else 10 * Pow10(e - 1)
  }

  /** str(n) for a non-negative integer. */
  function NatToString(n: nat): (s: string)
    ensures s != [] && AllDigits(s)
    ensures DigitsValue(s) == n
    decreases n
  {
    var d := [(n % 10 + '0' as int) as char];
    if n < 10 then d
    else
      var s := NatToString(n / 10) + d;
      assert s[..|s| - 1] == NatToString(n / 10);
      s
  }

  /** A mantissa "digits[.digits]" with at least one digit, as a real. */
  function ParseMantissa(s: string): Option<real>
  {
    match IndexOf(s, '.')
    case None =>
      if s != [] && AllDigits(s) then Some(DigitsValue(s) as real) else None
    case Some(p) =>
      var whole := s[..p];
      var frac := s[p + 1..];
      if |whole| + |frac| >= 1 && AllDigits(whole) && AllDigits(frac)
      then Some(DigitsValue(whole + frac) as real / Pow10(|frac|) as real)
      else None
  }

  /** An exponent "[+-]digits". */
  function ParseExponent(s: string): Option<int>
  {
    var (neg, body) := if |s| > 0 && (s[0] == '+' || s[0] == '-') then (s[0] == '-', s[1..]) else (false, s);
    if body != [] && AllDigits(body)
    then Some(if neg then -(DigitsValue(body) as int) else DigitsValue(body) as int)
    else None
  }

  function Scale(m: real, e: int): real
  {
    if e >= 0 then m * Pow10(e) as real else m / Pow10(-e) as real
  }

  function ParseUnsigned(s: string): Option<real>
  {
    var e := if IndexOf(s, 'e').Some? then IndexOf(s, 'e') else IndexOf(s, 'E');
    var mantissa := if e.Some? then s[..e.value] else s;
    var exponent := if e.Some? then ParseExponent(s[e.value + 1..]) else Some(0);
    match (ParseMantissa(mantissa), exponent)
    case (Some(m), Some(x)) => Some(Scale(m, x))
    case _ => None
  }

  /** Python's float(s) on its decimal spellings: surrounding whitespace, an
      optional sign, digits with an optional fraction, an optional exponent.
      None stands for the ValueError float() raises. */
  function ParseFloat(s: string): Option<real>
  {
    var t := Strip(s);
    var (neg, body) := if |t| > 0 && (t[0] == '+' || t[0] == '-') then (t[0] == '-', t[1..]) else (false, t);
    match ParseUnsigned(body)
    case None => None
    case Some(v) => Some(if neg then -v else v)
  }

  /** A non-empty string of digits parses as its value. */
  lemma {:induction false} ParseFloatDigits(s: string)
    requires s != [] && AllDigits(s)
    ensures ParseFloat(s) == Some(DigitsValue(s) as real)
  {
    assert !IsSpace(s[0]) && !IsSpace(s[|s| - 1]);
    LStripOfStripped(s);
    RStripOfStripped(s);
    assert Strip(s) == s;
    assert s[0] != '+' && s[0] != '-';
    ParseUnsignedDigits(s);
  }

  /** Digits alone hold no exponent mark and no point. */
  lemma {:induction false} ParseUnsignedDigits(s: string)
    requires s != [] && AllDigits(s)
    ensures ParseUnsigned(s) == Some(DigitsValue(s) as real)
  {
    assert 'e' !in s && 'E' !in s && '.' !in s by {
      forall i | 0 <= i < |s| ensures s[i] != 'e' && s[i] != 'E' && s[i] != '.' {
        assert IsDigit(s[i]);
      }
    }
    assert ParseMantissa(s) == Some(DigitsValue(s) as real);
    assert Scale(DigitsValue(s) as real, 0) == DigitsValue(s) as real;
  }

  // ---------------------------------------------------------------------
  // POSIX paths (os.path.basename and os.path.splitext)

  /** s.rfind(c) when it is not -1: the last position holding c. */
  function LastIndexOf(s: string, c: char): (r: Option<nat>)
    ensures r.Some? ==> r.value < |s| && s[r.value] == c && c !in s[r.value + 1..]
    ensures r.None? <==> c !in s
  {
    if s == [] then None
    else if s[|s| - 1] == c then Some(|s| - 1)
    else
      var r := LastIndexOf(s[..|s| - 1], c);
      assert s == s[..|s| - 1] + [s[|s| - 1]];
      assert r.Some? ==> s[r.value + 1..] == s[..|s| - 1][r.value + 1..] + [s[|s| - 1]];
      r
  }

  /** os.path.basename: the text after the last '/'. */
  function Basename(p: string): (r: string)
    ensures '/' !in r
    ensures EndsWith(p, r)
  {
    match LastIndexOf(p, '/')
    case None => p
    case Some(i) => p[i + 1..]
  }

  /** os.path.splitext(p)[0]: drop the text from the last '.' when that dot
      lies in the last path component and is preceded there by something
      other than dots (".bashrc" and "..x" keep their dots). */
  function Stem(p: string): (r: string)
    ensures StartsWith(p, r)
    ensures '.' !in p ==> r == p
  {
    match LastIndexOf(p, '.')
    case None => p
    case Some(d) =>
      var start := match LastIndexOf(p, '/') case None => 0 case Some(i) => i + 1;
      if start <= d && exists k :: start <= k < d && p[k] != '.' then p[..d] else p
  }

  /** The position of a c with no c after it is what rfind returns. */
  lemma {:induction false} LastIndexOfIs(s: string, c: char, i: nat)
    requires i < |s| && s[i] == c && c !in s[i + 1..]
    ensures LastIndexOf(s, c) == Some(i)
  {
    var r := LastIndexOf(s, c);
    assert s[i] in s;
  }

  /** A file name "stem.ext" with a dot-free extension and a stem that is not
      all dots splits at the last dot. */
  lemma {:induction false} StemOfName(stem: string, ext: string)
    requires '/' !in stem && '/' !in ext && '.' !in ext
    requires exists k :: 0 <= k < |stem| && stem[k] != '.'
    ensures Basename(stem + "." + ext) == stem + "." + ext
    ensures Stem(stem + "." + ext) == stem
  {
    var p := stem + "." + ext;
    assert p[|stem| + 1..] == ext;
    LastIndexOfIs(p, '.', |stem|);
    assert '/' !in p;
    assert p[..|stem|] == stem;
    var k :| 0 <= k < |stem| && stem[k] != '.';
    assert p[k] != '.';
  }
}
