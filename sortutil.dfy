/**
 * The helpers of the `sortutil` command of develop/dev03: the sort key of a line (`-k`), the
 * order of month names (`-M`), the lexicographic sort and its reverse (`-r`), the removal of
 * repeated lines (`-u`), the sortedness check (`-c`) and the trimming of trailing blanks
 * (`-b`), and the order in which `main` applies them. Lines are compared as Go compares
 * strings; byte order on UTF-8 and code-point order agree, so comparing characters suffices.
 */
module SortUtil {
  import opened Strings
  import opened Sorting

  /** The flags that reach the modelled code (`-n` and `-h` are left out). */
  datatype Options = Options(
    column: int,          // -k
    reverse: bool,        // -r
    unique: bool,         // -u
    month: bool,          // -M
    ignoreBlanks: bool,   // -b
    check: bool           // -c
  )

  /** getKey: field `column` (counted from 1) of the line, or the whole line. */
  function GetKey(line: string, column: int): string {
    if column > 0 && column - 1 < |Fields(line)| then Fields(line)[column - 1] else line
  }

  /** The key is either the whole line or one of its whitespace-separated words, which is
      non-empty and holds no white space; with no `-k` it is always the whole line. */
  lemma {:induction false} KeyIsField(line: string, column: int)
    ensures column <= 0 ==> GetKey(line, column) == line
    ensures column > |Fields(line)| ==> GetKey(line, column) == line
    ensures 0 < column <= |Fields(line)| ==>
      var k := GetKey(line, column); k == Fields(line)[column - 1] && k != [] && NoSpace(k)
  {
    FieldsAreWords(line);
  }

  const MonthNames: seq<string> :=
    ["Jan", "Feb", "Mar", "Apr", "May", "Jun", "Jul", "Aug", "Sep", "Oct", "Nov", "Dec"]

  /** The month table of compareMonths; a name not in it looks up as 0. */
  function MonthNumber(name: string): (n: nat)
    ensures n <= 12
    ensures n == 0 <==> name !in MonthNames
    ensures n > 0 ==> MonthNames[n - 1] == name
  {
    if name == "Jan" then 1 else if name == "Feb" then 2 else if name == "Mar" then 3
    else if name == "Apr" then 4 else if name == "May" then 5 else if name == "Jun" then 6
    else if name == "Jul" then 7 else if name == "Aug" then 8 else if name == "Sep" then 9
    else if name == "Oct" then 10 else if name == "Nov" then 11 else if name == "Dec" then 12
    else 0
  }

  predicate CompareMonths(month1: string, month2: string) {
    MonthNumber(month1) < MonthNumber(month2)
  }

  /** Jan < Feb < ... < Dec, and an unknown name comes before every month. */
  lemma {:induction false} MonthOrder(i: int, j: int, unknown: string)
    requires 0 <= i < j < 12 && unknown !in MonthNames
    ensures CompareMonths(MonthNames[i], MonthNames[j])
    ensures !CompareMonths(MonthNames[j], MonthNames[i])
    ensures CompareMonths(unknown, MonthNames[i]) && !CompareMonths(MonthNames[i], unknown)
  {
    MonthIndex(i);
    MonthIndex(j);
  }

  lemma {:induction false} MonthIndex(i: int)
    requires 0 <= i < 12
    ensures MonthNumber(MonthNames[i]) == i + 1
  {
  }

  /** The `less` of sortLines in the modelled branches: months or string order of the keys. */
  predicate Less(o: Options, x: string, y: string) {
    var kx, ky := GetKey(x, o.column), GetKey(y, o.column);
    if o.month then CompareMonths(kx, ky) else LexLess(kx, ky)
  }

  /** `x` may stand before `y` in the sorted output: `y` is not less than `x`, or with `-r`,
      `x` is not less than `y` (the comparator `!less`). */
  predicate InOrder(o: Options, x: string, y: string) {
    if o.reverse then !Less(o, x, y) else !Less(o, y, x)
  }

  lemma {:induction false} InOrderTotalPreorder(o: Options)
    ensures TotalPreorder((x, y) => InOrder(o, x, y))
  {
    var le := (x, y) => InOrder(o, x, y);
    LexLessEqTotalPreorder();
    forall x, y ensures le(x, y) || le(y, x) {
      var kx, ky := GetKey(x, o.column), GetKey(y, o.column);
      assert LexLessEq(kx, ky) || LexLessEq(ky, kx);
    }
    forall x, y, z | le(x, y) && le(y, z) ensures le(x, z) {
      var kx, ky, kz := GetKey(x, o.column), GetKey(y, o.column), GetKey(z, o.column);
      if !o.month {
        if o.reverse {
          assert LexLessEq(kz, ky) && LexLessEq(ky, kx);
        } else {
          assert LexLessEq(kx, ky) && LexLessEq(ky, kz);
        }
      }
    }
  }

  /** The lines sort.Slice leaves: a permutation of the input in key order. */
  function SortedLines(o: Options, lines: seq<string>): (r: seq<string>)
    ensures multiset(r) == multiset(lines)
    ensures SortedBy(r, (x, y) => InOrder(o, x, y))
  {
    InOrderTotalPreorder(o);
    SortBySorted(lines, (x, y) => InOrder(o, x, y));
    SortBy(lines, (x, y) => InOrder(o, x, y))
  }

  /** In the plain forward sort no key is ever smaller than a key before it; with `-r` no key
      is ever larger than a key before it. */
  lemma {:induction false} SortedKeys(o: Options, lines: seq<string>, i: int, j: int)
    requires !o.month && 0 <= i < j < |SortedLines(o, lines)|
    ensures var r := SortedLines(o, lines); var ki, kj := GetKey(r[i], o.column), GetKey(r[j], o.column);
      (!o.reverse ==> !LexLess(kj, ki)) && (o.reverse ==> !LexLess(ki, kj))
  {
    var r := SortedLines(o, lines);
    assert InOrder(o, r[i], r[j]);
  }

  /** sortLines: sort.Slice is a library call; the model writes its outcome into the slice. */
  method SortLines(o: Options, lines: array<string>)
    modifies lines
    ensures lines[..] == SortedLines(o, old(lines[..]))
    ensures multiset(lines[..]) == multiset(old(lines[..]))
  {
    var r := SortedLines(o, lines[..]);
    assert |r| == lines.Length by { assert |multiset(r)| == |multiset(lines[..])|; }
    forall i | 0 <= i < lines.Length {
      lines[i] := r[i];
    }
  }

  /** What uniqueLines keeps: each line whose text did not occur earlier. */
  function KeepFirst(s: seq<string>): seq<string>
    decreases |s|
  {
    if s == [] then []
    else
      var p, x := s[..|s| - 1], s[|s| - 1];
      KeepFirst(p) + (if x in p then [] else [x])
  }

  predicate NoDuplicates(s: seq<string>) {
    forall i, j :: 0 <= i < j < |s| ==> s[i] != s[j]
  }

  /** The kept lines are exactly the lines of the input ... */
  lemma {:induction false} KeepFirstElements(s: seq<string>)
    ensures forall x :: x in KeepFirst(s) <==> x in s
    decreases |s|
  {
    if s != [] {
      var p := s[..|s| - 1];
      KeepFirstElements(p);
      assert s == p + [s[|s| - 1]];
    }
  }

  /** ... each of them once ... */
  lemma {:induction false} KeepFirstNoDuplicates(s: seq<string>)
    ensures NoDuplicates(KeepFirst(s))
    decreases |s|
  {
    if s != [] {
      var p := s[..|s| - 1];
      KeepFirstNoDuplicates(p);
      KeepFirstElements(p);
    }
  }

  /** ... in the order of their first occurrences: what uniqueLines keeps from a prefix of
      the input is a prefix of what it keeps from the whole input. */
  lemma {:induction false} KeepFirstPrefix(p: seq<string>, q: seq<string>)
    ensures KeepFirst(p) <= KeepFirst(p + q)
    decreases |q|
  {
    if q == [] {
      assert p + q == p;
    } else {
      var q' := q[..|q| - 1];
      KeepFirstPrefix(p, q');
      assert (p + q)[..|p + q| - 1] == p + q';
    }
  }

  /** Input without repeated lines is left as it is. */
  lemma {:induction false} KeepFirstDistinct(s: seq<string>)
    requires NoDuplicates(s)
    ensures KeepFirst(s) == s
    decreases |s|
  {
    if s != [] {
      var p := s[..|s| - 1];
      KeepFirstDistinct(p);
      assert s[|s| - 1] !in p;
      assert s == p + [s[|s| - 1]];
    }
  }

  /** uniqueLines: one pass with a set of the lines seen so far. */
  method UniqueLines(lines: seq<string>) returns (r: seq<string>)
    ensures r == KeepFirst(lines)
  {
    var seen: set<string> := {};
    r := [];
    var i := 0;
    while i < |lines|
      invariant 0 <= i <= |lines|
      invariant r == KeepFirst(lines[..i])
      invariant forall x :: x in seen <==> x in lines[..i]
    {
      var line := lines[i];
      assert lines[..i + 1][..i] == lines[..i];
      if line !in seen {
        seen := seen + {line};
        r := r + [line];
      }
      i := i + 1;
    }
    assert lines[..i] == lines;
  }

  /** Every adjacent pair is in order: the loop of isSorted, on whole lines. */
  predicate AdjacentInOrder(lines: seq<string>) {
    forall i :: 1 <= i < |lines| ==> !LexLess(lines[i], lines[i - 1])
  }

  /** isSorted: stops at the first pair with lines[i-1] > lines[i]. */
  method IsSorted(lines: seq<string>) returns (b: bool)
    ensures b <==> AdjacentInOrder(lines)
  {
    var i := 1;
    while i < |lines|
      invariant 1 <= i <= |lines| || (|lines| == 0 && i == 1)
      invariant forall k :: 1 <= k < i && k < |lines| ==> !LexLess(lines[k], lines[k - 1])
    {
      if LexLess(lines[i], lines[i - 1]) {
        return false;
      }
      i := i + 1;
    }
    return true;
  }

  /** Checking adjacent pairs is the same as checking every pair. */
  lemma {:induction false} AdjacentInOrderSorted(lines: seq<string>)
    ensures AdjacentInOrder(lines) <==> SortedBy(lines, LexLessEq)
    decreases |lines|
  {
    if |lines| > 1 {
      var t := lines[1..];
      AdjacentInOrderSorted(t);
      if AdjacentInOrder(lines) {
        assert AdjacentInOrder(t);
        forall i, j | 0 <= i < j < |lines| ensures LexLessEq(lines[i], lines[j]) {
          if i > 0 {
            assert LexLessEq(t[i - 1], t[j - 1]);
          } else if j > 1 {
            assert LexLessEq(t[0], t[j - 1]);
            LexLessEqTotalPreorder();
          }
        }
      }
    }
  }

  /** readLines with `-b`: blanks and tabs at the end of the line go, all else stays. */
  function ReadLine(o: Options, line: string): string {
    if o.ignoreBlanks then TrimRight(line, " \t") else line
  }

  /** With `-b` a line loses only a tail of blanks and tabs; leading white space stays. */
  lemma {:induction false} ReadLineTrims(o: Options, line: string)
    ensures var r := ReadLine(o, line);
      && r == line[..|r|]
      && (!o.ignoreBlanks ==> r == line)
      && (o.ignoreBlanks ==> (r != [] ==> r[|r| - 1] != ' ' && r[|r| - 1] != '\t'))
      && (forall i :: |r| <= i < |line| ==> line[i] == ' ' || line[i] == '\t')
  {
  }

  /** What main does with the lines it read. */
  datatype Outcome = Checked(sorted: bool) | Written(lines: seq<string>)

  /** main after reading: `-c` answers and stops before any sorting; otherwise the lines are
      sorted and then, with `-u`, repeated lines are removed. */
  method Process(o: Options, raw: seq<string>) returns (out: Outcome)
    ensures var lines := seq(|raw|, i requires 0 <= i < |raw| => ReadLine(o, raw[i]));
      && (o.check ==> out == Checked(AdjacentInOrder(lines)))
      && (!o.check && !o.unique ==> out == Written(SortedLines(o, lines)))
      && (!o.check && o.unique ==> out == Written(KeepFirst(SortedLines(o, lines))))
  {
    var lines := seq(|raw|, i requires 0 <= i < |raw| => ReadLine(o, raw[i]));
    if o.check {
      var b := IsSorted(lines);
      return Checked(b);
    }
    var a := new string[|lines|](i requires 0 <= i < |lines| => lines[i]);
    assert a[..] == lines;
    SortLines(o, a);
    var r := a[..];
    if o.unique {
      r := UniqueLines(r);
    }
    return Written(r);
  }
}
