/**
 * The `grep` utility of develop/dev05: every line that matches the pattern (or, with `-v`,
 * does not) is output, optionally with a window of lines around it and its line number; with
 * `-c` the output is the number of matching lines. Regular expressions are a library: the
 * model takes the compiler's verdict and the matcher as functions of the pattern text.
 */
module Grep {
  import opened Wrappers
  import opened Strings

  datatype Options = Options(
    after: int,         // -A
    before: int,        // -B
    context: int,       // -C, parsed but never read
    count: bool,        // -c
    ignoreCase: bool,   // -i
    invert: bool,       // -v
    fixed: bool,        // -F
    lineNum: bool       // -n
  )

  /** min */
  function Min(a: int, b: int): (r: int)
    ensures r <= a && r <= b && (r == a || r == b)
  {
    if a < b then a else b
  }

  /** max */
  function Max(a: int, b: int): (r: int)
    ensures r >= a && r >= b && (r == a || r == b)
  {
    if a > b then a else b
  }

  /** The characters regexp.QuoteMeta escapes. */
  predicate Special(c: char) {
    c in {'\\', '.', '+', '*', '?', '(', ')', '|', '[', ']', '{', '}', '^', '$'}
  }

  /** regexp.QuoteMeta: a backslash before every special character. */
  function QuoteMeta(s: string): string {
    if s == [] then []
    else (if Special(s[0]) then ['\\', s[0]] else [s[0]]) + QuoteMeta(s[1..])
  }

  /** Reading a quoted pattern back: a backslash stands for the character after it. */
  function Unquote(s: string): string
    decreases |s|
  {
    if s == [] then []
    else if s[0] == '\\' && |s| >= 2 then [s[1]] + Unquote(s[2..])
    else [s[0]] + Unquote(s[1..])
  }

  /** QuoteMeta loses nothing: the quoted text reads back as the original. */
  lemma {:induction false} QuoteMetaRoundTrip(s: string)
    ensures Unquote(QuoteMeta(s)) == s
  {
    if s != [] {
      QuoteMetaRoundTrip(s[1..]);
      var head := if Special(s[0]) then ['\\', s[0]] else [s[0]];
      var q := head + QuoteMeta(s[1..]);
      if Special(s[0]) {
        assert q[0] == '\\' && q[1] == s[0] && q[2..] == QuoteMeta(s[1..]);
      } else {
        assert q[0] == s[0] && q[1..] == QuoteMeta(s[1..]);
      }
      assert s == [s[0]] + s[1..];
    }
  }

  /** The pattern handed to regexp.Compile: "(?i)" in front for `-i`, then all quoted for `-F`. */
  function CompiledPattern(o: Options, pattern: string): string {
    var p := if o.ignoreCase then "(?i)" + pattern else pattern;
    if o.fixed then QuoteMeta(p) else p
  }

  /** With both `-i` and `-F` the "(?i)" prefix is quoted too, so it is searched for literally
      instead of switching case folding on. */
  lemma {:induction false} IgnoreCaseFixedQuotesFlag(o: Options, pattern: string)
    requires o.ignoreCase && o.fixed
    ensures CompiledPattern(o, pattern) == "\\(\\?i\\)" + QuoteMeta(pattern)
  {
    QuoteMetaAppend("(?i)", pattern);
    QuotedFlag();
  }

  lemma {:induction false} QuotedFlag()
    ensures QuoteMeta("(?i)") == "\\(\\?i\\)"
  {
    assert QuoteMeta(")") == "\\)" by {
      assert Special(')') && ")"[1..] == "";
    }
    assert QuoteMeta("i)") == "i\\)" by {
      assert !Special('i') && "i)"[1..] == ")";
    }
    assert QuoteMeta("?i)") == "\\?i\\)" by {
      assert Special('?') && "?i)"[1..] == "i)";
    }
    assert Special('(') && "(?i)"[1..] == "?i)";
  }

  lemma {:induction false} QuoteMetaAppend(a: string, b: string)
    ensures QuoteMeta(a + b) == QuoteMeta(a) + QuoteMeta(b)
  {
    if a == [] {
      assert a + b == b;
    } else {
      assert (a + b)[0] == a[0] && (a + b)[1..] == a[1..] + b;
      QuoteMetaAppend(a[1..], b);
    }
  }

  /** The window size: the larger of `-A` and `-B`. */
  function ContextLines(o: Options): int {
    Max(o.after, o.before)
  }

  /** Line `i` is selected: it matches, or with `-v` it does not. */
  predicate Selected(o: Options, matches: string -> bool, line: string) {
    matches(line) != o.invert
  }

  /** A line as printed: with `-n`, its 1-based number and a colon in front. */
  function Format(o: Options, lines: seq<string>, j: int): string
    requires 0 <= j < |lines|
  {
    if o.lineNum then NatToString(j + 1) + ":" + lines[j] else lines[j]
  }

  /** The lines output for a selected line `i`: the window around it, or the line alone. */
  function Block(o: Options, lines: seq<string>, i: int): seq<string>
    requires 0 <= i < |lines|
  {
    var c := ContextLines(o);
    if c > 0 then
      var start, end := Max(0, i - c), Min(|lines|, i + c + 1);
      Window(o, lines, start, end - start)
    else [Format(o, lines, i)]
  }

  /** The `n` lines from `start` on, as printed. */
  function Window(o: Options, lines: seq<string>, start: int, n: int): seq<string>
    requires 0 <= start && 0 <= n && start + n <= |lines|
  {
    seq(n, k requires 0 <= k < n => Format(o, lines, start + k))
  }

  lemma {:induction false} WindowSnoc(o: Options, lines: seq<string>, start: int, n: int)
    requires 0 <= start && 0 <= n && start + n < |lines|
    ensures Window(o, lines, start, n + 1) == Window(o, lines, start, n) + [Format(o, lines, start + n)]
  {
  }

  /** What the loop has output after the first `n` lines, before `-c` replaces it. */
  function Emitted(o: Options, matches: string -> bool, lines: seq<string>, n: nat): seq<string>
    requires n <= |lines|
  {
    if n == 0 then []
    else
      Emitted(o, matches, lines, n - 1)
      + (if Selected(o, matches, lines[n - 1]) then Block(o, lines, n - 1) else [])
  }

  /** The number of selected lines among the first `n`. */
  function MatchCount(o: Options, matches: string -> bool, lines: seq<string>, n: nat): (r: nat)
    requires n <= |lines|
    ensures r <= n
  {
    if n == 0 then 0
    else MatchCount(o, matches, lines, n - 1) + (if Selected(o, matches, lines[n - 1]) then 1 else 0)
  }

  /** The value grep returns. */
  function GrepResult(o: Options, matches: string -> bool, lines: seq<string>): seq<string> {
    if o.count then [NatToString(MatchCount(o, matches, lines, |lines|))]
    else Emitted(o, matches, lines, |lines|)
  }

  datatype GrepError = BadPattern

  /** grep: compiles the pattern (a failure stops the program), then scans every line. */
  method GrepLines(o: Options, pattern: string, compiles: string -> bool,
                   matchString: (string, string) -> bool, lines: seq<string>)
    returns (r: Result<seq<string>, GrepError>)
    ensures var p := CompiledPattern(o, pattern);
      && (!compiles(p) ==> r == Err(BadPattern))
      && (compiles(p) ==> r == Ok(GrepResult(o, line => matchString(p, line), lines)))
  {
    var p := if o.ignoreCase then "(?i)" + pattern else pattern;
    if o.fixed {
      p := QuoteMeta(p);
    }
    if !compiles(p) {
      return Err(BadPattern);
    }
    ghost var matches := line => matchString(p, line);
    var result: seq<string> := [];
    var contextLines := Max(o.after, o.before);
    var matchCount := 0;
    var i := 0;
    while i < |lines|
      invariant 0 <= i <= |lines|
      invariant result == Emitted(o, matches, lines, i)
      invariant matchCount == MatchCount(o, matches, lines, i)
    {
      var line := lines[i];
      var found := matchString(p, line);
      if o.invert {
        found := !found;
      }
      if found {
        result := OutputMatch(o, lines, i, contextLines, result);
        matchCount := matchCount + 1;
        // `i += contextLines` in the source changes only this iteration's copy of the index
        ghost var skipped := i;
        if contextLines > 0 {
          skipped := skipped + contextLines;
        }
      }
      i := i + 1;
    }
    if o.count {
      result := [NatToString(matchCount)];
    }
    return Ok(result);
  }

  /** The lines output for the selected line `i`, appended to `result`. */
  method OutputMatch(o: Options, lines: seq<string>, i: int, contextLines: int, result: seq<string>)
    returns (r: seq<string>)
    requires 0 <= i < |lines| && contextLines == ContextLines(o)
    ensures r == result + Block(o, lines, i)
  {
    r := result;
    if contextLines > 0 {
      var start := Max(0, i - contextLines);
      var end := Min(|lines|, i + contextLines + 1);
      var j := start;
      while j < end
        invariant start <= j <= end
        invariant r == result + Window(o, lines, start, j - start)
      {
        WindowSnoc(o, lines, start, j - start);
        if o.lineNum {
          r := r + [NatToString(j + 1) + ":" + lines[j]];
        } else {
          r := r + [lines[j]];
        }
        j := j + 1;
      }
    } else {
      if o.lineNum {
        r := r + [NatToString(i + 1) + ":" + lines[i]];
      } else {
        r := r + [lines[i]];
      }
    }
  }

  /** Without a window the output holds exactly the selected lines (numbered with `-n`),
      and there are as many output lines as the count. */
  lemma {:induction false} NoContextOutput(o: Options, matches: string -> bool, lines: seq<string>, n: nat)
    requires ContextLines(o) <= 0 && n <= |lines|
    ensures |Emitted(o, matches, lines, n)| == MatchCount(o, matches, lines, n)
    ensures forall x :: x in Emitted(o, matches, lines, n) <==>
      exists i :: 0 <= i < n && Selected(o, matches, lines[i]) && x == Format(o, lines, i)
  {
    if n > 0 {
      NoContextOutput(o, matches, lines, n - 1);
      var prev := Emitted(o, matches, lines, n - 1);
      forall x ensures x in Emitted(o, matches, lines, n) <==>
        exists i :: 0 <= i < n && Selected(o, matches, lines[i]) && x == Format(o, lines, i)
      {
        if x in Emitted(o, matches, lines, n) && x !in prev {
          assert Selected(o, matches, lines[n - 1]) && x == Format(o, lines, n - 1);
        }
        if exists i :: 0 <= i < n && Selected(o, matches, lines[i]) && x == Format(o, lines, i) {
          var i :| 0 <= i < n && Selected(o, matches, lines[i]) && x == Format(o, lines, i);
          if i < n - 1 {
            assert x in prev;
          }
        }
      }
    }
  }

  /** With a window of c > 0 lines a selected line at i outputs lines max(0, i-c) up to
      min(len, i+c+1) - 1 in order; this window holds the line itself. */
  lemma {:induction false} ContextWindow(o: Options, lines: seq<string>, i: int)
    requires ContextLines(o) > 0 && 0 <= i < |lines|
    ensures var c := ContextLines(o); var start := Max(0, i - c); var end := Min(|lines|, i + c + 1);
      && |Block(o, lines, i)| == end - start
      && (forall k :: 0 <= k < end - start ==> Block(o, lines, i)[k] == Format(o, lines, start + k))
      && start <= i < end && Block(o, lines, i)[i - start] == Format(o, lines, i)
  {
  }

  /** The output of two consecutive selected lines repeats the lines their windows share. */
  lemma {:induction false} OverlapRepeats(o: Options, lines: seq<string>, i: int)
    requires ContextLines(o) > 0 && 0 <= i && i + 1 < |lines|
    ensures Format(o, lines, i) in Block(o, lines, i) && Format(o, lines, i) in Block(o, lines, i + 1)
  {
    ContextWindow(o, lines, i);
    ContextWindow(o, lines, i + 1);
    var start := Max(0, i + 1 - ContextLines(o));
    assert Block(o, lines, i + 1)[i - start] == Format(o, lines, i);
  }

  /** `-v` selects exactly the lines the plain search does not: the two counts add up to the
      number of lines. */
  lemma {:induction false} InvertComplements(o: Options, matches: string -> bool, lines: seq<string>, n: nat)
    requires n <= |lines|
    ensures MatchCount(o, matches, lines, n) + MatchCount(o.(invert := !o.invert), matches, lines, n) == n
  {
    if n > 0 {
      InvertComplements(o, matches, lines, n - 1);
    }
  }

  /** The value of `-C` does not change the output. */
  lemma {:induction false} ContextFlagIgnored(o: Options, c: int, matches: string -> bool, lines: seq<string>, n: nat)
    requires n <= |lines|
    ensures Emitted(o, matches, lines, n) == Emitted(o.(context := c), matches, lines, n)
    ensures MatchCount(o, matches, lines, n) == MatchCount(o.(context := c), matches, lines, n)
  {
    if n > 0 {
      ContextFlagIgnored(o, c, matches, lines, n - 1);
      BlockIgnoresContext(o, c, lines, n - 1);
    }
  }

  lemma {:induction false} BlockIgnoresContext(o: Options, c: int, lines: seq<string>, i: int)
    requires 0 <= i < |lines|
    ensures Block(o, lines, i) == Block(o.(context := c), lines, i)
  {
    var o' := o.(context := c);
    assert ContextLines(o) == ContextLines(o');
    if ContextLines(o) > 0 {
      var start, end := Max(0, i - ContextLines(o)), Min(|lines|, i + ContextLines(o) + 1);
      var w, w' := Window(o, lines, start, end - start), Window(o', lines, start, end - start);
      assert |w| == |w'|;
      forall k | 0 <= k < |w| ensures w[k] == w'[k] {
        assert w[k] == Format(o, lines, start + k) && w'[k] == Format(o', lines, start + k);
      }
    }
  }

  /** In count mode grep returns one line, the decimal number of selected lines. */
  lemma {:induction false} CountResult(o: Options, matches: string -> bool, lines: seq<string>)
    requires o.count
    ensures var r := GrepResult(o, matches, lines);
      |r| == 1 && AllDigits(r[0]) && DigitsValue(r[0]) == MatchCount(o, matches, lines, |lines|)
  {
    NatToStringRoundTrip(MatchCount(o, matches, lines, |lines|));
  }

  /** What main prints, as written: in count mode the length of grep's result. */
  function PrintedAsWritten(o: Options, result: seq<string>): seq<string> {
    if o.count then [NatToString(|result|)] else result
  }

  /** ... which is always "1", whatever the number of matches: three matching lines print 1. */
  lemma {:induction false} CountPrintsOne(o: Options, matches: string -> bool, lines: seq<string>)
    requires o.count
    ensures PrintedAsWritten(o, GrepResult(o, matches, lines)) == [NatToString(1)]
  {
  }

  lemma {:induction false} CountPrintsOneExample()
    ensures var o := Options(0, 0, 0, true, false, false, false, false);
      var lines := ["a", "a", "a"];
      && MatchCount(o, _ => true, lines, 3) == 3
      && PrintedAsWritten(o, GrepResult(o, _ => true, lines)) == [NatToString(1)]
  {
  }

  /** What main evidently means to print: grep's result, which in count mode is the number. */
  function Printed(o: Options, result: seq<string>): seq<string> {
    result
  }

  lemma {:induction false} CountPrintsMatches(o: Options, matches: string -> bool, lines: seq<string>)
    requires o.count
    ensures var p := Printed(o, GrepResult(o, matches, lines));
      |p| == 1 && DigitsValue(p[0]) == MatchCount(o, matches, lines, |lines|)
  {
    CountResult(o, matches, lines);
  }
}
