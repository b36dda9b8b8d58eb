/**
 * The run-length unpacker `Unpack` of develop/dev02: a plain character followed by a digit d is
 * written d times, a backslash makes the next character literal, and malformed input is an error.
 * Digits are the ASCII digits; error positions count characters from 0.
 */
module Unpack {
  import opened Wrappers
  import opened Strings

  datatype UnpackError =
    | EscapeAfterDigit(pos: nat)   // a backslash right after a digit
    | ConsecutiveDigits(pos: nat)   // a digit right after a digit
    | LeadingDigit(pos: nat)        // a digit before any plain character
    | NegativeRepeat(pos: nat)      // digit 0: strings.Repeat is asked for -1 copies and panics
    | TrailingEscape                // the input ends inside an escape

  /** The variables of the unpacking loop: the two flags, the last plain character
      ('\0' while there is none) and the output so far. */
  datatype Scanner = Scanner(escape: bool, previousWasDigit: bool, lastRune: char, out: string)

  const Start := Scanner(false, false, '\0', "")

  function Repeat(c: char, n: nat): (r: string)
    ensures |r| == n && forall i :: 0 <= i < n ==> r[i] == c
  {
    seq(n, _ => c)
  }

  /** One iteration of the loop, on character `r` at position `pos`. */
  function Step(sc: Scanner, r: char, pos: nat): Result<Scanner, UnpackError> {
    if sc.escape then Ok(sc.(out := sc.out + [r], escape := false))
    else if r == '\\' then
      if sc.previousWasDigit then Err(EscapeAfterDigit(pos)) else Ok(sc.(escape := true))
    else if IsDigit(r) then
      if sc.previousWasDigit then Err(ConsecutiveDigits(pos))
      else if sc.lastRune == '\0' then Err(LeadingDigit(pos))
      else if DigitValue(r) == 0 then Err(NegativeRepeat(pos))
      else Ok(sc.(out := sc.out + Repeat(sc.lastRune, DigitValue(r) - 1), previousWasDigit := true))
    else Ok(sc.(out := sc.out + [r], lastRune := r, previousWasDigit := false))
  }

  /** The loop run over `s`, whose first character is at position `pos`. */
  function Scan(s: string, pos: nat, sc: Scanner): Result<Scanner, UnpackError> {
    if s == [] then Ok(sc)
    else
      match Step(sc, s[0], pos)
      case Err(e) => Err(e)
      case Ok(next) => Scan(s[1..], pos + 1, next)
  }

  /** What `Unpack` returns: the loop, then the check for a dangling escape. */
  function Unpacked(s: string): Result<string, UnpackError> {
    match Scan(s, 0, Start)
    case Err(e) => Err(e)
    case Ok(sc) => if sc.escape then Err(TrailingEscape) else Ok(sc.out)
  }

  method Unpack(input: string) returns (r: Result<string, UnpackError>)
    ensures r == Unpacked(input)
  {
    var escape, previousWasDigit := false, false;
    var lastRune := '\0';
    var result := "";
    var i := 0;
    while i < |input|
      invariant 0 <= i <= |input|
      invariant Scan(input, 0, Start) == Scan(input[i..], i, Scanner(escape, previousWasDigit, lastRune, result))
    {
      var c := input[i];
      assert input[i..][1..] == input[i + 1..];
      if escape {
        result := result + [c];
        escape := false;
      } else if c == '\\' {
        if previousWasDigit {
          return Err(EscapeAfterDigit(i));
        }
        escape := true;
      } else if IsDigit(c) {
        if previousWasDigit {
          return Err(ConsecutiveDigits(i));
        }
        if lastRune == '\0' {
          return Err(LeadingDigit(i));
        }
        var count: int := DigitValue(c);
        if count - 1 < 0 {
          return Err(NegativeRepeat(i));
        }
        result := result + Repeat(lastRune, count - 1);
        previousWasDigit := true;
      } else {
        result := result + [c];
        lastRune := c;
        previousWasDigit := false;
      }
      i := i + 1;
    }
    if escape {
      return Err(TrailingEscape);
    }
    return Ok(result);
  }

  /** Running the loop over `p + q` runs it over `p`, then over `q` from where it stopped. */
  lemma {:induction false} ScanAppend(p: string, q: string, pos: nat, sc: Scanner)
    ensures Scan(p, pos, sc).Err? ==> Scan(p + q, pos, sc) == Scan(p, pos, sc)
    ensures Scan(p, pos, sc).Ok? ==> Scan(p + q, pos, sc) == Scan(q, pos + |p|, Scan(p, pos, sc).value)
  {
    if p == [] {
      assert p + q == q;
    } else {
      assert (p + q)[0] == p[0] && (p + q)[1..] == p[1..] + q;
      match Step(sc, p[0], pos)
      case Err(e) =>
      case Ok(next) => ScanAppend(p[1..], q, pos + 1, next);
    }
  }

  lemma {:induction false} ScanSingle(c: char, pos: nat, sc: Scanner)
    ensures Scan([c], pos, sc) == match Step(sc, c, pos) case Err(e) => Err(e) case Ok(m) => Ok(m)
  {
    assert [c][1..] == [];
  }

  /** Two steps of the loop, on `c` then `d`. */
  lemma {:induction false} ScanPair(c: char, d: char, pos: nat, sc: Scanner)
    ensures Scan([c, d], pos, sc) ==
      match Step(sc, c, pos)
      case Err(e) => Err(e)
      case Ok(m) => match Step(m, d, pos + 1) case Err(e) => Err(e) case Ok(m') => Ok(m')
  {
    assert [c, d] == [c] + [d];
    ScanAppend([c], [d], pos, sc);
    ScanSingle(c, pos, sc);
    if Step(sc, c, pos).Ok? {
      ScanSingle(d, pos + 1, Step(sc, c, pos).value);
    }
  }

  /** A character the unpacker treats specially. */
  predicate Special(c: char) {
    IsDigit(c) || c == '\\'
  }

  lemma {:induction false} ScanPlain(s: string, pos: nat, sc: Scanner)
    requires !sc.escape
    requires forall i :: 0 <= i < |s| ==> !Special(s[i])
    ensures Scan(s, pos, sc).Ok? && Scan(s, pos, sc).value.out == sc.out + s
    ensures !Scan(s, pos, sc).value.escape
  {
    if s != [] {
      var next := sc.(out := sc.out + [s[0]], lastRune := s[0], previousWasDigit := false);
      ScanPlain(s[1..], pos + 1, next);
      assert sc.out + [s[0]] + s[1..] == sc.out + s;
    }
  }

  /** Input with no digits and no backslashes comes back unchanged. */
  lemma {:induction false} PlainUnchanged(s: string)
    requires forall i :: 0 <= i < |s| ==> !Special(s[i])
    ensures Unpacked(s) == Ok(s)
  {
    ScanPlain(s, 0, Start);
    assert "" + s == s;
  }

  /** `s` with a backslash in front of every digit and every backslash. */
  function Escape(s: string): (r: string)
    ensures |r| >= |s|
  {
    if s == [] then "" else (if Special(s[0]) then ['\\', s[0]] else [s[0]]) + Escape(s[1..])
  }

  lemma {:induction false} ScanEscaped(s: string, pos: nat, sc: Scanner)
    requires !sc.escape && !sc.previousWasDigit
    ensures Scan(Escape(s), pos, sc).Ok?
    ensures var m := Scan(Escape(s), pos, sc).value;
      !m.escape && !m.previousWasDigit && m.out == sc.out + s
  {
    if s != [] {
      var c := s[0];
      var head := if Special(c) then ['\\', c] else [c];
      assert Escape(s) == head + Escape(s[1..]);
      ScanAppend(head, Escape(s[1..]), pos, sc);
      var next := if Special(c) then sc.(out := sc.out + [c]) else sc.(out := sc.out + [c], lastRune := c);
      if Special(c) {
        ScanPair('\\', c, pos, sc);
      } else {
        ScanSingle(c, pos, sc);
      }
      assert Scan(head, pos, sc) == Ok(next);
      ScanEscaped(s[1..], pos + |head|, next);
      assert sc.out + [c] + s[1..] == sc.out + s;
    }
  }

  /** Escaping is undone by unpacking. Digits included, an escaped character is literal. */
  lemma {:induction false} EscapeRoundTrip(s: string)
    ensures Unpacked(Escape(s)) == Ok(s)
  {
    ScanEscaped(s, 0, Start);
    assert "" + s == s;
  }

  /** A trailing backslash that escapes nothing is an error. */
  lemma {:induction false} TrailingBackslashFails(s: string)
    ensures Unpacked(Escape(s) + "\\") == Err(TrailingEscape)
  {
    ScanEscaped(s, 0, Start);
    ScanAppend(Escape(s), "\\", 0, Start);
    ScanSingle('\\', |Escape(s)|, Scan(Escape(s), 0, Start).value);
  }

  /** `s` with a backslash in front of every character. */
  function EscapeAll(s: string): (r: string)
    ensures |r| == 2 * |s|
  {
    if s == [] then "" else ['\\', s[0]] + EscapeAll(s[1..])
  }

  lemma {:induction false} ScanEscapedAll(s: string, pos: nat, sc: Scanner)
    requires !sc.escape && !sc.previousWasDigit
    ensures Scan(EscapeAll(s), pos, sc) == Ok(sc.(out := sc.out + s))
  {
    if s == [] {
      assert sc.out + s == sc.out;
    } else {
      var head := ['\\', s[0]];
      var mid := sc.(out := sc.out + [s[0]]);
      assert EscapeAll(s) == head + EscapeAll(s[1..]);
      ScanAppend(head, EscapeAll(s[1..]), pos, sc);
      ScanPair('\\', s[0], pos, sc);
      assert Scan(head, pos, sc) == Ok(mid);
      ScanEscapedAll(s[1..], pos + 2, mid);
      assert mid.out + s[1..] == sc.out + s;
    }
  }

  /** An escaped character never becomes the one a digit repeats: a digit after only escaped
      characters has nothing to repeat, ... */
  lemma {:induction false} DigitAfterEscapesFails(s: string, d: char)
    requires IsDigit(d)
    ensures Unpacked(EscapeAll(s) + [d]) == Err(LeadingDigit(2 * |s|))
  {
    ScanEscapedAll(s, 0, Start);
    assert "" + s == s;
    DigitWithoutPlainFails(EscapeAll(s), d, Scanner(false, false, '\0', s));
  }

  lemma {:induction false} DigitWithoutPlainFails(e: string, d: char, m: Scanner)
    requires IsDigit(d) && Scan(e, 0, Start) == Ok(m)
    requires !m.escape && !m.previousWasDigit && m.lastRune == '\0'
    ensures Unpacked(e + [d]) == Err(LeadingDigit(|e|))
  {
    ScanAppend(e, [d], 0, Start);
    ScanSingle(d, |e|, m);
  }

  /** ... and a digit after escaped characters repeats the last plain character before them. */
  lemma {:induction false} DigitRepeatsLastPlain(c: char, s: string, d: char)
    requires !Special(c) && c != '\0'
    requires IsDigit(d) && d != '0'
    ensures Unpacked([c] + EscapeAll(s) + [d]) == Ok([c] + s + Repeat(c, DigitValue(d) - 1))
  {
    var sc := Scanner(false, false, c, [c]);
    var m := sc.(out := sc.out + s);
    ScanSingle(c, 0, Start);
    assert "" + [c] == [c];
    assert Scan([c], 0, Start) == Ok(sc);
    ScanEscapedAll(s, 1, sc);
    ScanAppend([c], EscapeAll(s), 0, Start);
    assert Scan([c] + EscapeAll(s), 0, Start) == Ok(m);
    ScanAppend([c] + EscapeAll(s), [d], 0, Start);
    ScanSingle(d, 1 + |EscapeAll(s)|, m);
    var final := m.(out := m.out + Repeat(c, DigitValue(d) - 1), previousWasDigit := true);
    assert Step(m, d, 1 + |EscapeAll(s)|) == Ok(final);
    assert Scan([c] + EscapeAll(s) + [d], 0, Start) == Ok(final);
  }

  /** A run of `n` copies of `c`, the unit the packed format describes. */
  datatype Run = Run(c: char, n: nat)

  predicate ValidRun(r: Run) {
    !Special(r.c) && r.c != '\0' && 1 <= r.n <= 9
  }

  /** The packed text of a run: the character, then its count when that is above one. */
  function EncodeRun(r: Run): string
    requires ValidRun(r)
  {
    if r.n == 1 then [r.c] else [r.c, DigitChar(r.n)]
  }

  function Pack(runs: seq<Run>): string
    requires forall k :: 0 <= k < |runs| ==> ValidRun(runs[k])
  {
    if runs == [] then "" else EncodeRun(runs[0]) + Pack(runs[1..])
  }

  function Expand(runs: seq<Run>): string {
    if runs == [] then "" else Repeat(runs[0].c, runs[0].n) + Expand(runs[1..])
  }

  lemma {:induction false} ScanPacked(runs: seq<Run>, pos: nat, sc: Scanner)
    requires forall k :: 0 <= k < |runs| ==> ValidRun(runs[k])
    requires !sc.escape
    ensures Scan(Pack(runs), pos, sc).Ok?
    ensures var m := Scan(Pack(runs), pos, sc).value;
      !m.escape && m.out == sc.out + Expand(runs) && (runs != [] ==> m.lastRune != '\0')
  {
    if runs != [] {
      var r, tail := runs[0], Pack(runs[1..]);
      var head := EncodeRun(r);
      assert Pack(runs) == head + tail;
      ScanAppend(head, tail, pos, sc);
      var next := ScanRun(r, pos, sc);
      ScanPacked(runs[1..], pos + |head|, next);
      assert Expand(runs) == Repeat(r.c, r.n) + Expand(runs[1..]);
      assert sc.out + Repeat(r.c, r.n) + Expand(runs[1..]) == sc.out + Expand(runs);
    }
  }

  /** The packed text of one run writes the run out. */
  lemma {:induction false} ScanRun(r: Run, pos: nat, sc: Scanner) returns (next: Scanner)
    requires ValidRun(r) && !sc.escape
    ensures next == Scanner(false, r.n > 1, r.c, sc.out + Repeat(r.c, r.n))
    ensures Scan(EncodeRun(r), pos, sc) == Ok(next)
  {
    next := Scanner(false, r.n > 1, r.c, sc.out + Repeat(r.c, r.n));
    var one := Scanner(false, false, r.c, sc.out + [r.c]);
    assert Step(sc, r.c, pos) == Ok(one);
    if r.n > 1 {
      ScanPair(r.c, DigitChar(r.n), pos, sc);
      assert Step(one, DigitChar(r.n), pos + 1) == Ok(one.(out := one.out + Repeat(r.c, r.n - 1), previousWasDigit := true));
      assert [r.c] + Repeat(r.c, r.n - 1) == Repeat(r.c, r.n);
      assert sc.out + [r.c] + Repeat(r.c, r.n - 1) == sc.out + Repeat(r.c, r.n);
    } else {
      ScanSingle(r.c, pos, sc);
      assert [r.c] == Repeat(r.c, 1);
    }
  }

  /** Unpacking a packed list of runs gives the runs written out: a digit d after a
      plain character writes it d times in all. */
  lemma {:induction false} PackRoundTrip(runs: seq<Run>)
    requires forall k :: 0 <= k < |runs| ==> ValidRun(runs[k])
    ensures Unpacked(Pack(runs)) == Ok(Expand(runs))
  {
    ScanPacked(runs, 0, Start);
    assert "" + Expand(runs) == Expand(runs);
  }

  /** After a plain character and a digit, a second digit or a backslash is an error, and the
      digit 0 is an error of its own: strings.Repeat is asked for -1 copies. */
  lemma {:induction false} DigitErrors(runs: seq<Run>, c: char, d: char, next: char, rest: string)
    requires forall k :: 0 <= k < |runs| ==> ValidRun(runs[k])
    requires !Special(c) && c != '\0' && IsDigit(d)
    ensures var p := |Pack(runs)|; var u := Unpacked(Pack(runs) + [c, d, next] + rest);
      && (d == '0' ==> u == Err(NegativeRepeat(p + 1)))
      && (d != '0' && IsDigit(next) ==> u == Err(ConsecutiveDigits(p + 2)))
      && (d != '0' && next == '\\' ==> u == Err(EscapeAfterDigit(p + 2)))
  {
    ScanPacked(runs, 0, Start);
    AfterPlainDigit(Pack(runs), Scan(Pack(runs), 0, Start).value, c, d, next, rest);
  }

  lemma {:induction false} AfterPlainDigit(p: string, m: Scanner, c: char, d: char, next: char, rest: string)
    requires Scan(p, 0, Start) == Ok(m) && !m.escape
    requires !Special(c) && c != '\0' && IsDigit(d)
    ensures var u := Unpacked(p + [c, d, next] + rest);
      && (d == '0' ==> u == Err(NegativeRepeat(|p| + 1)))
      && (d != '0' && IsDigit(next) ==> u == Err(ConsecutiveDigits(|p| + 2)))
      && (d != '0' && next == '\\' ==> u == Err(EscapeAfterDigit(|p| + 2)))
  {
    var t := [c, d, next] + rest;
    var s := p + [c, d, next] + rest;
    assert s == p + t;
    SameScan(p, t, m);
    StepsAfterPlain(m, c, d, next, rest, |p|);
    if d == '0' {
      UnpackedOfErr(s, Err(NegativeRepeat(|p| + 1)));
    } else if IsDigit(next) {
      UnpackedOfErr(s, Err(ConsecutiveDigits(|p| + 2)));
    } else if next == '\\' {
      UnpackedOfErr(s, Err(EscapeAfterDigit(|p| + 2)));
    }
  }

  lemma {:induction false} SameScan(p: string, t: string, m: Scanner)
    requires Scan(p, 0, Start) == Ok(m)
    ensures Scan(p + t, 0, Start) == Scan(t, |p|, m)
  {
    ScanAppend(p, t, 0, Start);
  }

  lemma {:induction false} UnpackedOfErr(s: string, r: Result<Scanner, UnpackError>)
    requires Scan(s, 0, Start) == r && r.Err?
    ensures Unpacked(s) == Err(r.error)
  {
  }

  lemma {:induction false} StepsAfterPlain(m: Scanner, c: char, d: char, next: char, rest: string, pos: nat)
    requires !m.escape && !Special(c) && c != '\0' && IsDigit(d)
    ensures var r := Scan([c, d, next] + rest, pos, m);
      && (d == '0' ==> r == Err(NegativeRepeat(pos + 1)))
      && (d != '0' && IsDigit(next) ==> r == Err(ConsecutiveDigits(pos + 2)))
      && (d != '0' && next == '\\' ==> r == Err(EscapeAfterDigit(pos + 2)))
  {
    assert [c, d, next] + rest == [c] + ([d] + ([next] + rest));
    var m1 := m.(out := m.out + [c], lastRune := c, previousWasDigit := false);
    ScanCons(c, [d] + ([next] + rest), pos, m);
    ScanCons(d, [next] + rest, pos + 1, m1);
    if d != '0' {
      var m2 := m1.(out := m1.out + Repeat(c, DigitValue(d) - 1), previousWasDigit := true);
      ScanCons(next, rest, pos + 2, m2);
    }
  }

  lemma {:induction false} ScanCons(x: char, s: string, pos: nat, sc: Scanner)
    ensures Step(sc, x, pos).Err? ==> Scan([x] + s, pos, sc) == Err(Step(sc, x, pos).error)
    ensures Step(sc, x, pos).Ok? ==> Scan([x] + s, pos, sc) == Scan(s, pos + 1, Step(sc, x, pos).value)
  {
    assert ([x] + s)[0] == x && ([x] + s)[1..] == s;
  }

  /** The cases of develop/dev02/task_test.go, one lemma each. */
  lemma {:induction false} TestPackedRuns()
    ensures Unpacked("a4bc2d5e") == Ok("aaaabccddddde")
  {
    var runs := [Run('a', 4), Run('b', 1), Run('c', 2), Run('d', 5), Run('e', 1)];
    PackRoundTrip(runs);
    assert Pack(runs) == "a4bc2d5e";
    ExpandSample();
  }

  lemma {:induction false} ExpandSample()
    ensures Expand([Run('a', 4), Run('b', 1), Run('c', 2), Run('d', 5), Run('e', 1)]) == "aaaabccddddde"
  {
    assert Repeat('a', 4) == "aaaa" && Repeat('b', 1) == "b" && Repeat('c', 2) == "cc";
    assert Repeat('d', 5) == "ddddd" && Repeat('e', 1) == "e";
  }

  lemma {:induction false} TestPlainText()
    ensures Unpacked("abcd") == Ok("abcd")
  {
    PlainUnchanged("abcd");
  }

  lemma {:induction false} TestLeadingDigit()
    ensures Unpacked("45") == Err(LeadingDigit(0))
  {
    ScanPair('4', '5', 0, Start);
  }

  lemma {:induction false} TestEmpty()
    ensures Unpacked("") == Ok("")
  {
  }

  lemma {:induction false} TestEscapedDigits()
    ensures Unpacked("qwe\\4\\5") == Ok("qwe45")
  {
    EscapeRoundTrip("qwe45");
    assert Escape("qwe45") == "qwe\\4\\5";
  }

  lemma {:induction false} TestTrailingEscape()
    ensures Unpacked("a\\") == Err(TrailingEscape)
  {
    TrailingBackslashFails("a");
  }

  lemma {:induction false} TestEscapeThenRepeat()
    ensures Unpacked("a4b\\cd2") == Ok("aaaabcdd")
  {
    assert "a4b\\cd2" == "a4" + ("b\\" + ("cd" + "2"));
    var m1 := Scanner(false, true, 'a', "aaaa");
    var m2 := Scanner(true, false, 'b', "aaaab");
    var m3 := Scanner(false, false, 'd', "aaaabcd");
    EscapeRepeatFirst();
    ScanAppend("a4", "b\\" + ("cd" + "2"), 0, Start);
    EscapeRepeatSecond();
    ScanAppend("b\\", "cd" + "2", 2, m1);
    EscapeRepeatThird();
    ScanAppend("cd", "2", 4, m2);
    EscapeRepeatLast();
  }

  lemma {:induction false} EscapeRepeatFirst()
    ensures Scan("a4", 0, Start) == Ok(Scanner(false, true, 'a', "aaaa"))
  {
    assert Repeat('a', 3) == "aaa";
    assert !IsDigit('a') && 'a' != '\\';
    assert Start.out + ['a'] == "a";
    assert Step(Start, 'a', 0) == Ok(Scanner(false, false, 'a', "a"));
    assert DigitValue('4') == 4;
    assert "a" + Repeat('a', 3) == "aaaa";
    assert Step(Scanner(false, false, 'a', "a"), '4', 1) == Ok(Scanner(false, true, 'a', "aaaa"));
    ScanPair('a', '4', 0, Start);
  }

  lemma {:induction false} EscapeRepeatSecond()
    ensures Scan("b\\", 2, Scanner(false, true, 'a', "aaaa")) == Ok(Scanner(true, false, 'b', "aaaab"))
  {
    var m1 := Scanner(false, true, 'a', "aaaa");
    assert !IsDigit('b') && 'b' != '\\' && m1.out + ['b'] == "aaaab";
    assert Step(m1, 'b', 2) == Ok(Scanner(false, false, 'b', "aaaab"));
    ScanPair('b', '\\', 2, m1);
  }

  lemma {:induction false} EscapeRepeatThird()
    ensures Scan("cd", 4, Scanner(true, false, 'b', "aaaab")) == Ok(Scanner(false, false, 'd', "aaaabcd"))
  {
    var m2 := Scanner(true, false, 'b', "aaaab");
    var m3 := Scanner(false, false, 'd', "aaaabcd");
    assert m2.out + ['c'] == "aaaabc" && "aaaabc" + ['d'] == "aaaabcd" && !IsDigit('d');
    assert Step(m2, 'c', 4) == Ok(Scanner(false, false, 'b', "aaaabc"));
    assert Step(Scanner(false, false, 'b', "aaaabc"), 'd', 5) == Ok(m3);
    ScanPair('c', 'd', 4, m2);
  }

  lemma {:induction false} EscapeRepeatLast()
    ensures Scan("2", 6, Scanner(false, false, 'd', "aaaabcd")) == Ok(Scanner(false, true, 'd', "aaaabcdd"))
  {
    var m3 := Scanner(false, false, 'd', "aaaabcd");
    assert Repeat('d', 1) == "d";
    assert DigitValue('2') == 2 && m3.out + Repeat('d', 1) == "aaaabcdd";
    ScanSingle('2', 6, m3);
  }
}
