/**
 * The `cut` utility of develop/dev06: a field list such as "1,3-5" becomes zero-based column
 * indices, and each input line is split on the delimiter, the selected columns kept and joined
 * again with the delimiter.
 */
module Cut {
  import opened Wrappers
  import opened Strings

  /** One integer as fmt's %d verb reads it: white space other than a newline is skipped, then
      an optional sign and one or more digits, as many as follow. The result is the value and
      the number of characters read. */
  function ScanInt(s: string): (r: Option<(int, nat)>)
    ensures r.Some? ==> 0 < r.value.1 <= |s|
  {
    if s != [] && IsScanSpace(s[0]) then
      match ScanInt(s[1..])
      case None => None
      case Some((v, n)) => Some((v, n + 1))
    else ScanSigned(s)
  }

  /** The white space fmt's SkipSpace passes over: every space character but the newline,
      which ends a Sscanf verb with an error. */
  predicate IsScanSpace(c: char) {
    IsSpace(c) && c != '\n'
  }

  /** An optional sign, then one or more digits, as many as follow. */
  function ScanSigned(s: string): (r: Option<(int, nat)>)
    ensures r.Some? ==> 0 < r.value.1 <= |s|
  {
    var signed := s != [] && (s[0] == '-' || s[0] == '+');
    var start := if signed then 1 else 0;
    var n := DigitRun(s[start..]);
    if n == 0 then None
    else
      assert s[start..][..n] == s[start..start + n];
      var v: int := DigitsValue(s[start..start + n]);
      Some((if signed && s[0] == '-' then -v else v, start + n))
  }

  /** Leading white space other than newlines changes nothing but the number of characters
      read. */
  lemma {:induction false} ScanIntSkipsSpace(w: string, s: string)
    requires forall i :: 0 <= i < |w| ==> IsScanSpace(w[i])
    requires s == [] || !IsScanSpace(s[0])
    ensures ScanInt(w + s) == if ScanSigned(s).None? then None else Some((ScanSigned(s).value.0, |w| + ScanSigned(s).value.1))
    decreases |w|
  {
    if w == [] {
      assert w + s == s;
    } else {
      assert (w + s)[0] == w[0] && (w + s)[1..] == w[1..] + s;
      ScanIntSkipsSpace(w[1..], s);
    }
  }

  /** The number of ASCII digits at the front of `s`. */
  function DigitRun(s: string): (n: nat)
    ensures n <= |s| && AllDigits(s[..n]) && (n < |s| ==> !IsDigit(s[n]))
  {
    if s == [] || !IsDigit(s[0]) then 0
    else
      var n := DigitRun(s[1..]);
      assert s[..n + 1] == [s[0]] + s[1..][..n];
      n + 1
  }

  /** How many values fmt.Sscanf(part, "%d-%d", ...) stores. */
  datatype Scanned = Zero | One(a: int) | Two(a: int, b: int)

  /** Sscanf with "%d-%d": an integer, then, if a '-' follows, a second integer; text after
      what matched is ignored. */
  function ScanPart(part: string): Scanned {
    match ScanInt(part)
    case None => Zero
    case Some((a, n)) =>
      if n < |part| && part[n] == '-' then
        match ScanInt(part[n + 1..])
        case None => One(a)
        case Some((b, _)) => Two(a, b)
      else One(a)
  }

  /** The zero-based indices start-1, ..., end-1; empty when start > end. */
  function Range(start: int, end: int): (r: seq<int>)
    ensures |r| == if start <= end then end - start + 1 else 0
    ensures forall k :: 0 <= k < |r| ==> r[k] == start - 1 + k
    decreases end - start
  {
    if start > end then [] else [start - 1] + Range(start + 1, end)
  }

  /** The indices one part of the list contributes, or None for a part that does not scan. */
  function PartIndices(part: string): Option<seq<int>> {
    match ScanPart(part)
    case Zero => None
    case One(a) => Some([a - 1])
    case Two(a, b) => Some(Range(a, b))
  }

  /** parseFields, part by part: the indices in order, or the first part that does not scan. */
  function ParsedParts(parts: seq<string>): Result<seq<int>, string> {
    Gather(PartIndices, parts)
  }

  /** Reads every part with `parse` and concatenates the results in order; the first part
      `parse` rejects is the error. */
  function Gather(parse: string -> Option<seq<int>>, parts: seq<string>): Result<seq<int>, string> {
    if parts == [] then Ok([])
    else
      match parse(parts[0])
      case None => Err(parts[0])
      case Some(head) => Continue(head, Gather(parse, parts[1..]))
  }

  /** The indices gathered so far, followed by what the remaining parts give. */
  function Continue(indices: seq<int>, r: Result<seq<int>, string>): Result<seq<int>, string> {
    match r
    case Err(e) => Err(e)
    case Ok(tail) => Ok(indices + tail)
  }

  lemma {:induction false} ContinueAppend(indices: seq<int>, head: seq<int>, r: Result<seq<int>, string>)
    ensures Continue(indices, Continue(head, r)) == Continue(indices + head, r)
    ensures Continue([], r) == r
  {
    if r.Ok? {
      assert indices + (head + r.value) == indices + head + r.value;
      assert [] + r.value == r.value;
    }
  }

  function ParsedFields(fields: string): Result<seq<int>, string> {
    ParsedParts(Split(fields, ","))
  }

  /** parseFields: the loop over the comma-separated parts, with the inner loop of a range. */
  method ParseFields(fields: string) returns (r: Result<seq<int>, string>)
    ensures r == ParsedFields(fields)
  {
    var indices: seq<int> := [];
    var parts := Split(fields, ",");
    var i := 0;
    assert parts[0..] == parts;
    ContinueAppend([], [], ParsedParts(parts));
    while i < |parts|
      invariant 0 <= i <= |parts|
      invariant ParsedParts(parts) == Continue(indices, ParsedParts(parts[i..]))
      decreases |parts| - i
    {
      var part := parts[i];
      ParsedPartsAt(parts, i);
      if PartIndices(part).Some? {
        ContinueAppend(indices, PartIndices(part).value, ParsedParts(parts[i + 1..]));
      }
      var scanned := ScanPart(part);
      if scanned.Zero? {
        return Err(part);
      } else if scanned.One? {
        indices := indices + [scanned.a - 1];
      } else {
        indices := AppendRange(indices, scanned.a, scanned.b);
      }
      i := i + 1;
    }
    assert parts[i..] == [];
    assert indices + [] == indices;
    return Ok(indices);
  }

  /** ParsedParts from part `i` on: that part's indices, then what the rest gives. */
  lemma {:induction false} ParsedPartsAt(parts: seq<string>, i: int)
    requires 0 <= i < |parts|
    ensures ParsedParts(parts[i..]) ==
      if PartIndices(parts[i]).None? then Err(parts[i])
      else Continue(PartIndices(parts[i]).value, ParsedParts(parts[i + 1..]))
  {
    assert parts[i..][0] == parts[i] && parts[i..][1..] == parts[i + 1..];
  }

  /** The inner loop of parseFields for a part "A-B": appends A-1, ..., B-1. */
  method AppendRange(indices: seq<int>, start: int, end: int) returns (r: seq<int>)
    ensures r == indices + Range(start, end)
  {
    r := indices;
    var j := start;
    while j <= end
      invariant start <= j <= if start <= end then end + 1 else start
      invariant r == indices + Range(start, j - 1)
      decreases end - j
    {
      RangeSnoc(start, j);
      r := r + [j - 1];
      j := j + 1;
    }
  }

  lemma {:induction false} RangeSnoc(start: int, j: int)
    requires start <= j
    ensures Range(start, j) == Range(start, j - 1) + [j - 1]
  {
  }

  /** A part that scans as one integer N gives exactly [N-1]; "A-B" gives A-1, ..., B-1 in
      ascending order, nothing when A > B; a part with no integer fails. */
  lemma {:induction false} PartMeaning(part: string)
    ensures ScanPart(part).One? ==> PartIndices(part) == Some([ScanPart(part).a - 1])
    ensures ScanPart(part).Two? ==> var a, b := ScanPart(part).a, ScanPart(part).b;
      && PartIndices(part).Some?
      && |PartIndices(part).value| == (if a <= b then b - a + 1 else 0)
      && (forall k :: 0 <= k < |PartIndices(part).value| ==> PartIndices(part).value[k] == a - 1 + k)
    ensures ScanInt(part).None? ==> PartIndices(part).None?
  {
  }

  /** The parts' indices are concatenated in input order, and an error names the first part
      that does not scan. */
  lemma {:induction false} ParsedPartsConcat(p: seq<string>, q: seq<string>)
    ensures ParsedParts(p).Ok? && ParsedParts(q).Ok? ==>
      ParsedParts(p + q) == Ok(ParsedParts(p).value + ParsedParts(q).value)
    ensures ParsedParts(p).Err? ==> ParsedParts(p + q) == ParsedParts(p)
  {
    GatherConcat(PartIndices, p, q);
  }

  lemma {:induction false} GatherConcat(parse: string -> Option<seq<int>>, p: seq<string>, q: seq<string>)
    ensures Gather(parse, p).Ok? && Gather(parse, q).Ok? ==>
      Gather(parse, p + q) == Ok(Gather(parse, p).value + Gather(parse, q).value)
    ensures Gather(parse, p).Err? ==> Gather(parse, p + q) == Gather(parse, p)
    decreases |p|
  {
    if p == [] {
      assert p + q == q;
      if Gather(parse, q).Ok? {
        assert [] + Gather(parse, q).value == Gather(parse, q).value;
      }
    } else {
      var pq := p + q;
      assert pq[0] == p[0] && pq[1..] == p[1..] + q;
      GatherConcat(parse, p[1..], q);
      match parse(p[0])
      case None =>
        assert Gather(parse, pq) == Err(p[0]);
      case Some(head) =>
        assert Gather(parse, p) == Continue(head, Gather(parse, p[1..]));
        assert Gather(parse, pq) == Continue(head, Gather(parse, p[1..] + q));
        if Gather(parse, p[1..]).Ok? && Gather(parse, q).Ok? {
          var a, b := Gather(parse, p[1..]).value, Gather(parse, q).value;
          assert head + (a + b) == (head + a) + b;
        }
    }
  }

  /** The parts "1" and "3-5" of the list "1,3-5" give [0] and [2, 3, 4]. */
  lemma {:induction false} PartExamples()
    ensures PartIndices("1") == Some([0])
    ensures PartIndices("3-5") == Some([2, 3, 4])
  {
    SignedExamples();
    assert ScanInt("1") == Some((1, 1));
    assert ScanInt("3-5") == Some((3, 1));
    assert "3-5"[2..] == "5";
    assert ScanInt("5") == Some((5, 1));
    assert ScanPart("3-5") == Two(3, 5);
    assert Range(3, 5) == [2, 3, 4];
  }

  /** Sscanf skips the blank before each %d: the part " 3" of "1, 3" gives [2], and "3- 5"
      gives [2, 3, 4]. */
  lemma {:induction false} SpacedPartExamples()
    ensures PartIndices(" 3") == Some([2])
    ensures PartIndices("3- 5") == Some([2, 3, 4])
  {
    SignedExamples();
    assert " " + "3" == " 3" && " " + "5" == " 5";
    ScanIntSkipsSpace(" ", "3");
    ScanIntSkipsSpace(" ", "5");
    assert ScanInt("3- 5") == Some((3, 1));
    assert "3- 5"[2..] == " 5";
    assert ScanPart("3- 5") == Two(3, 5);
    assert Range(3, 5) == [2, 3, 4];
  }

  lemma {:induction false} SignedExamples()
    ensures ScanSigned("1") == Some((1, 1)) && ScanSigned("3-5") == Some((3, 1))
    ensures ScanSigned("3") == Some((3, 1)) && ScanSigned("5") == Some((5, 1))
    ensures ScanSigned("3- 5") == Some((3, 1))
  {
    DigitRunExample();
    assert "1"[0..] == "1" && "3-5"[0..] == "3-5";
    assert "3"[0..] == "3" && "5"[0..] == "5" && "3- 5"[0..] == "3- 5";
    assert "1"[0..][..1] == "1" && "3-5"[0..][..1] == "3";
    assert "3"[0..][..1] == "3" && "5"[0..][..1] == "5" && "3- 5"[0..][..1] == "3";
    assert DigitsValue("1") == 1 && DigitsValue("3") == 3 && DigitsValue("5") == 5;
  }

  lemma {:induction false} DigitRunExample()
    ensures DigitRun("1") == 1 && DigitRun("3-5") == 1 && DigitRun("5") == 1 && DigitRun("3- 5") == 1
    ensures DigitRun("3") == 1
  {
    assert "1"[1..] == "" && "5"[1..] == "" && "3"[1..] == "" && "3-5"[1..] == "-5" && "3- 5"[1..] == "- 5";
    assert DigitRun("") == 0 && DigitRun("-5") == 0 && DigitRun("- 5") == 0;
  }

  lemma {:induction false} SplitExample()
    ensures Split("1,3-5", ",") == ["1", "3-5"]
  {
    assert "1,3-5"[..1] == "1" && "1,3-5"[1..] == ",3-5" && ",3-5"[..1] == ",";
    assert IndexOf(",3-5", ",") == Some(0);
    assert IndexOf("1,3-5", ",") == Some(1);
    assert "1,3-5"[2..] == "3-5";
    NoComma();
  }

  lemma {:induction false} NoComma()
    ensures Split("3-5", ",") == ["3-5"]
  {
    assert "3-5"[..1] == "3" && "3-5"[1..] == "-5" && "-5"[..1] == "-" && "-5"[1..] == "5";
    assert "5"[..1] == "5" && "5"[1..] == "";
    assert IndexOf("", ",") == None;
    assert IndexOf("5", ",") == None;
    assert IndexOf("-5", ",") == None;
    assert IndexOf("3-5", ",") == None;
  }

  /** What selectColumns keeps: the in-range indices, in their order, duplicates repeated. */
  function Selected(columns: seq<string>, indices: seq<int>): seq<string> {
    if indices == [] then []
    else
      var i := indices[0];
      (if 0 <= i < |columns| then [columns[i]] else []) + Selected(columns, indices[1..])
  }

  /** selectColumns */
  method SelectColumns(columns: seq<string>, indices: seq<int>) returns (selected: seq<string>)
    ensures selected == Selected(columns, indices)
  {
    selected := [];
    var k := 0;
    while k < |indices|
      invariant 0 <= k <= |indices|
      invariant Selected(columns, indices) == selected + Selected(columns, indices[k..])
    {
      var index := indices[k];
      SelectedAt(columns, indices, k);
      if index >= 0 && index < |columns| {
        selected := selected + [columns[index]];
      }
      k := k + 1;
    }
    assert indices[k..] == [];
  }

  /** Selected from index `k` on: the column at indices[k] if it is in range, then the rest. */
  lemma {:induction false} SelectedAt(columns: seq<string>, indices: seq<int>, k: int)
    requires 0 <= k < |indices|
    ensures Selected(columns, indices[k..]) ==
      (if 0 <= indices[k] < |columns| then [columns[indices[k]]] else []) + Selected(columns, indices[k + 1..])
  {
    assert indices[k..][0] == indices[k] && indices[k..][1..] == indices[k + 1..];
  }

  /** The selection is never longer than the index list, and is the columns at the indices
      when they are all in range. */
  lemma {:induction false} SelectedBounds(columns: seq<string>, indices: seq<int>)
    ensures |Selected(columns, indices)| <= |indices|
    ensures (forall k :: 0 <= k < |indices| ==> 0 <= indices[k] < |columns|) ==>
      |Selected(columns, indices)| == |indices|
      && forall k :: 0 <= k < |indices| ==> Selected(columns, indices)[k] == columns[indices[k]]
    decreases |indices|
  {
    if indices != [] {
      SelectedBounds(columns, indices[1..]);
    }
  }

  /** Selection distributes over concatenation of index lists: order is kept. */
  lemma {:induction false} SelectedConcat(columns: seq<string>, i1: seq<int>, i2: seq<int>)
    ensures Selected(columns, i1 + i2) == Selected(columns, i1) + Selected(columns, i2)
    decreases |i1|
  {
    if i1 == [] {
      assert i1 + i2 == i2;
    } else {
      assert (i1 + i2)[0] == i1[0] && (i1 + i2)[1..] == i1[1..] + i2;
      SelectedConcat(columns, i1[1..], i2);
    }
  }

  /** The line printed for one input line, or None when `-s` drops it. */
  function CutLine(line: string, delimiter: string, onlyDelim: bool, indices: seq<int>): Option<string> {
    if onlyDelim && !Contains(line, delimiter) then None
    else Some(Join(Selected(Split(line, delimiter), indices), delimiter))
  }

  /** All columns, in order, give the line back. */
  lemma {:induction false} CutAllColumns(line: string, delimiter: string)
    ensures var n := |Split(line, delimiter)|;
      CutLine(line, delimiter, false, seq(n, k => k)) == Some(line)
  {
    var cols := Split(line, delimiter);
    var all := seq(|cols|, k => k);
    SelectedBounds(cols, all);
    assert Selected(cols, all) == cols;
    JoinSplit(line, delimiter);
  }

  /** With `-s` a line without the delimiter gives no output; without `-s` it is a single
      column, printed whenever index 0 is selected. */
  lemma {:induction false} CutWithoutDelimiter(line: string, delimiter: string, onlyDelim: bool, indices: seq<int>)
    requires delimiter != [] && !Contains(line, delimiter)
    ensures onlyDelim ==> CutLine(line, delimiter, onlyDelim, indices).None?
    ensures !onlyDelim && indices == [0] ==> CutLine(line, delimiter, onlyDelim, indices) == Some(line)
  {
    SplitNonEmpty(line, delimiter);
    assert Selected([line], [0]) == [line];
  }

  /** Why the command stops without output. */
  datatype CutError = Usage | BadField(part: string)

  /** The output of main for the given flags and input lines. */
  function CutOutput(fields: string, delimiter: string, onlyDelim: bool, lines: seq<string>)
    : Result<seq<string>, CutError>
  {
    if fields == [] then Err(Usage)
    else
      match ParsedFields(fields)
      case Err(part) => Err(BadField(part))
      case Ok(indices) => Ok(CutLines(lines, delimiter, onlyDelim, indices))
  }

  /** What the loop over the input lines prints, line by line in input order. */
  function CutLines(lines: seq<string>, delimiter: string, onlyDelim: bool, indices: seq<int>): seq<string> {
    if lines == [] then []
    else
      var before := CutLines(lines[..|lines| - 1], delimiter, onlyDelim, indices);
      match CutLine(lines[|lines| - 1], delimiter, onlyDelim, indices)
      case None => before
      case Some(out) => before + [out]
  }

  /** main: the usage check, the field list, then the loop over the input lines. */
  method CutMain(fields: string, delimiter: string, onlyDelim: bool, lines: seq<string>)
    returns (r: Result<seq<string>, CutError>)
    ensures r == CutOutput(fields, delimiter, onlyDelim, lines)
  {
    if fields == "" {
      return Err(Usage);
    }
    var parsed := ParseFields(fields);
    if parsed.Err? {
      return Err(BadField(parsed.error));
    }
    var out := CutInput(lines, delimiter, onlyDelim, parsed.value);
    return Ok(out);
  }

  /** The loop over the input lines: each line is cut on its own, and a line `-s` drops
      adds nothing. */
  method CutInput(lines: seq<string>, delimiter: string, onlyDelim: bool, fieldIndices: seq<int>)
    returns (out: seq<string>)
    ensures out == CutLines(lines, delimiter, onlyDelim, fieldIndices)
  {
    out := [];
    var i := 0;
    while i < |lines|
      invariant 0 <= i <= |lines|
      invariant out == CutLines(lines[..i], delimiter, onlyDelim, fieldIndices)
    {
      CutLinesAt(lines, i, delimiter, onlyDelim, fieldIndices);
      var cut := CutOne(lines[i], delimiter, onlyDelim, fieldIndices);
      if cut.Some? {
        out := out + [cut.value];
      }
      i := i + 1;
    }
    assert lines[..i] == lines;
  }

  /** The body of the loop for one line: nothing when `-s` drops it, else its selected
      columns joined with the delimiter. */
  method CutOne(line: string, delimiter: string, onlyDelim: bool, fieldIndices: seq<int>) returns (cut: Option<string>)
    ensures cut == CutLine(line, delimiter, onlyDelim, fieldIndices)
  {
    if onlyDelim && !Contains(line, delimiter) {
      return None;
    }
    var columns := Split(line, delimiter);
    var selectedColumns := SelectColumns(columns, fieldIndices);
    return Some(Join(selectedColumns, delimiter));
  }

  /** CutLines up to line `i` included: what the lines before it give, then line `i`'s cut
      if it has one. */
  lemma {:induction false} CutLinesAt(lines: seq<string>, i: int, delimiter: string, onlyDelim: bool, indices: seq<int>)
    requires 0 <= i < |lines|
    ensures var before := CutLines(lines[..i], delimiter, onlyDelim, indices);
      var cut := CutLine(lines[i], delimiter, onlyDelim, indices);
      && (cut.None? ==> CutLines(lines[..i + 1], delimiter, onlyDelim, indices) == before)
      && (cut.Some? ==> CutLines(lines[..i + 1], delimiter, onlyDelim, indices) == before + [cut.value])
  {
    assert lines[..i + 1][..i] == lines[..i] && lines[..i + 1][i] == lines[i];
  }
}
