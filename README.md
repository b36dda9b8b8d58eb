# deferGo2 core, modelled in Dafny

This project models the Go exercises of the deferGo2 repository. They are the utilities of
`develop/` and the design-pattern samples of `pattern/`:

- `Unpack` (develop/dev02) expands run-length strings such as "a4bc2d5e". A backslash
  escapes the next character, and malformed input is an error.
- The `sortutil` helpers (develop/dev03) cover the key column `-k`, month order `-M`,
  reverse `-r`, unique `-u`, the check `-c` and trimming `-b`.
- `findAnagrams` (develop/dev04) groups the words of a dictionary into anagram sets.
- `grep` (develop/dev05) supports `-A`/`-B`/`-C` windows, `-c`, `-i`, `-v`, `-F` and `-n`.
- `cut` (develop/dev06) parses field lists like "1,3-5" and selects columns on a delimiter.
- `go-wget` (develop/dev09) mirrors a site: pages are fetched once, saved under a path derived
  from the URL, and same-host references in HTML pages are followed and rewritten.
- The event calendar (develop/dev11) offers create, update and delete, and day, week and
  month queries.
- The patterns are: builder (pattern/02), command with undo (pattern/04), chain of
  responsibility (pattern/05), strategy with bubble sort and quicksort (pattern/07) and state
  (pattern/08).

There is one module per Go file. Support modules model the parts of Go's library that the
programs use:

- `Wrappers`: Go's `(value, error)` results.
- `Strings`: `strings.Fields`, `Split`, `Join`, `Index`/`Contains`, `TrimRight` and `%d`
  formatting.
- `Sorting`: Go's string order, and a reference sort standing for `sort.Slice` and
  `sort.Strings`.
- `FilePath`: `filepath.Clean`, `Join`, `Ext` and `Dir` on Unix.

How the source's forms carry over:

- Code that changes state in place becomes classes and methods. This covers the invoker, the
  receivers, the loggers, the request builder, the vending machine, the calendar, the
  mirror's visited set and file system, and the sorting strategies on arrays.
- Each method is proved against a specification function or states its new state outright.
  The properties the source promises are lemmas about those functions.
- Printing appends to a sequence of lines, except in the sorting strategies of pattern/07,
  whose two report lines are left out (see "## Left out").
- Regular expressions, HTTP, HTML parsing, URL resolution and `filepath.Rel` become function
  parameters. The model proves its results for every such function.

## Model

| member | source | states |
|---|---|---|
| Unpack.Unpack | develop/dev02/task.go:10-50 | The loop returns exactly what the specification function `Unpacked` gives: the expansion, or the first error at its character position. |
| Unpack.Repeat | develop/dev02/task.go:36 | `strings.Repeat` of one character gives n copies of it and nothing else. |
| Unpack.ScanAppend | develop/dev02/task.go:15-43 | Running the loop over p+q runs it over p, then over q from the state it reached; an error in p is final. |
| Unpack.ScanPlain | develop/dev02/task.go:38-41 | Characters that are neither digits nor backslashes are copied unchanged and leave no escape pending. |
| Unpack.PlainUnchanged | develop/dev02/task.go:38-41 | Input without digits and backslashes unpacks to itself. |
| Unpack.Escape | develop/dev02/task.go:17-24 | Escaping never shortens a string (a backslash goes before each digit and backslash). |
| Unpack.ScanEscaped | develop/dev02/task.go:17-24 | Scanning an escaped string succeeds and outputs the unescaped string, with no escape or digit pending. |
| Unpack.EscapeRoundTrip | develop/dev02/task.go:17-24 | Unpacking an escaped string gives the string back: escaped digits are literal. |
| Unpack.TrailingBackslashFails | develop/dev02/task.go:45-47 | A backslash that escapes nothing at the end is the trailing-escape error. |
| Unpack.EscapeAll | develop/dev02/task.go:17-19 | Escaping every character exactly doubles the length. |
| Unpack.ScanEscapedAll | develop/dev02/task.go:17-19 | Any escaped character is written literally, and it is never the character a later digit repeats. |
| Unpack.DigitAfterEscapesFails | develop/dev02/task.go:29-31 | A digit after only escaped characters is the "starts with a digit" error at the digit's position. |
| Unpack.DigitWithoutPlainFails | develop/dev02/task.go:29-31 | A digit while no plain character has been seen fails with the leading-digit error at its position. |
| Unpack.DigitRepeatsLastPlain | develop/dev02/task.go:36-40 | A digit d after escaped characters repeats the last plain character d-1 more times. |
| Unpack.ScanPacked | develop/dev02/task.go:25-41 | Scanning packed runs succeeds and outputs their expansion. |
| Unpack.ScanRun | develop/dev02/task.go:25-41 | The packed text of one run (the character, then its count above one) writes the run out and leaves the scanner after a plain character. |
| Unpack.PackRoundTrip | develop/dev02/task.go:25-41 | Unpacking a packed run list gives the runs written out: a digit d after a character writes it d times in all. |
| Unpack.DigitErrors | develop/dev02/task.go:20-36 | After a character and a digit: a second digit fails (consecutive digits) and a backslash fails (escape after digit), each at the position of the offender. Digit 0 fails as a negative repeat count. |
| Unpack.AfterPlainDigit | develop/dev02/task.go:20-36 | The same three errors after any successfully scanned prefix. |
| Unpack.TestPackedRuns | develop/dev02/task_test.go:13 | "a4bc2d5e" unpacks to "aaaabccddddde". |
| Unpack.TestPlainText | develop/dev02/task_test.go:14 | "abcd" unpacks to itself. |
| Unpack.TestLeadingDigit | develop/dev02/task_test.go:15 | "45" is an error at position 0. |
| Unpack.TestEmpty | develop/dev02/task_test.go:16 | "" unpacks to "". |
| Unpack.TestEscapedDigits | develop/dev02/task_test.go:17 | `qwe\4\5` unpacks to "qwe45". |
| Unpack.TestTrailingEscape | develop/dev02/task_test.go:18 | A trailing backslash is an error. |
| Unpack.TestEscapeThenRepeat | develop/dev02/task_test.go:19 | `a4b\cd2` unpacks to "aaaabcdd". |
| SortUtil.KeyIsField | develop/dev03/task.go:137-145 | The key is the whole line without `-k` or when the column is out of range. Otherwise it is the column-th whitespace field, which is non-empty and holds no blank. |
| SortUtil.MonthNumber | develop/dev03/task.go:171-175 | The month table maps the twelve names to 1..12 in calendar order; any other name reads as 0. |
| SortUtil.MonthOrder | develop/dev03/task.go:170-177 | Jan < Feb < ... < Dec. An unknown name is less than every month. |
| SortUtil.MonthIndex | develop/dev03/task.go:171-175 | The i-th name of the table has number i+1. |
| SortUtil.InOrderTotalPreorder | develop/dev03/task.go:109-134 | The order the sort is asked for (forward or `-r`, by string or by month) is total and transitive on lines. |
| SortUtil.SortedLines | develop/dev03/task.go:108-135 | The sorted lines are a permutation of the input, ordered by key (reversed with `-r`). |
| SortUtil.SortedKeys | develop/dev03/task.go:122-133 | In the string sort no later key is smaller than an earlier one; with `-r`, no later key is larger. |
| SortUtil.SortLines | develop/dev03/task.go:108-135 | The array is left holding the sorted permutation of what it held. |
| SortUtil.KeepFirstElements | develop/dev03/task.go:147-159 | uniqueLines keeps exactly the lines that occur in its input. |
| SortUtil.KeepFirstNoDuplicates | develop/dev03/task.go:147-159 | uniqueLines keeps each line once. |
| SortUtil.KeepFirstPrefix | develop/dev03/task.go:151-156 | Lines are kept in the order of their first occurrence: the result for a prefix is a prefix of the result. |
| SortUtil.KeepFirstDistinct | develop/dev03/task.go:147-159 | Input without repeats is returned unchanged. |
| SortUtil.UniqueLines | develop/dev03/task.go:147-159 | The loop with the seen-set returns exactly the first occurrences, in order. |
| SortUtil.IsSorted | develop/dev03/task.go:161-168 | Returns true iff no line is greater than the line after it. |
| SortUtil.AdjacentInOrderSorted | develop/dev03/task.go:161-168 | Checking adjacent pairs is equivalent to every pair being in string order. |
| SortUtil.ReadLineTrims | develop/dev03/task.go:82-84 | With `-b` a line loses only a tail of blanks and tabs, up to the last other character; without `-b` it is unchanged. |
| SortUtil.Process | develop/dev03/task.go:50-64 | `-c` reports sortedness and sorts nothing; otherwise the output is the sorted lines, then deduplicated with `-u`. |
| Anagrams.LowerRuneSpec | develop/dev04/task.go:13 | Lowering leaves no upper-case Latin or Cyrillic letter, changes nothing else and is idempotent. |
| Anagrams.ToLower | develop/dev04/task.go:13 | Lowering a word lowers each character and keeps the length. |
| Anagrams.LowerAll | develop/dev04/task.go:12-14 | The word list is lowered entry by entry. |
| Anagrams.CharLeOrder | develop/dev04/task.go:22-24 | The rune order used for signatures is a total, antisymmetric order. |
| Anagrams.SortedWord | develop/dev04/task.go:20-26 | A signature is the word's characters, each as often as in the word, in ascending order. |
| Anagrams.SameSignature | develop/dev04/task.go:20-33 | Two words have equal signatures iff they are anagrams (equal as multisets of characters). |
| Anagrams.GroupMembers | develop/dev04/task.go:31-34 | A group holds exactly the list entries with its signature. |
| Anagrams.GroupSorted | develop/dev04/task.go:17-34 | A group taken from a sorted list is sorted. |
| Anagrams.GroupMapSpec | develop/dev04/task.go:29-34 | sortedMap has a key for each signature that occurs, mapped to its group. |
| Anagrams.AnagramSetShape | develop/dev04/task.go:37-42 | Every returned set has at least two entries, starts with its key and holds words of the key's signature; when the list is sorted, so is the set. |
| Anagrams.AnagramSetCover | develop/dev04/task.go:37-42 | A word is in a returned set iff at least two entries share its signature. It is then in exactly one set, the one under the group's first word. |
| Anagrams.ResultIsSets | develop/dev04/task.go:37-42 | The key loop's result, whatever order it visits the keys in, is the specification map. |
| Anagrams.ResultWithinSets | develop/dev04/task.go:37-42 | Every entry the key loop stores is an anagram set under its first word. |
| Anagrams.SetsWithinResult | develop/dev04/task.go:37-42 | Every anagram set has been stored by the time the key loop ends. |
| Anagrams.GroupMapFirsts | develop/dev04/task.go:38-41 | Every entry of sortedMap is non-empty, and its first word has that entry's signature. |
| Anagrams.LowercaseAll | develop/dev04/task.go:12-14 | The array is lowered in place. |
| Anagrams.SortStrings | develop/dev04/task.go:17 | The array is left in string order, as a permutation of what it held. |
| Anagrams.GroupBySignature | develop/dev04/task.go:29-34 | The grouping loop builds sortedMap as specified. |
| Anagrams.CollectSets | develop/dev04/task.go:37-42 | The loop over sortedMap builds the specified result. |
| Anagrams.FindAnagrams | develop/dev04/task.go:10-45 | The array ends lowered and sorted; the result is the anagram sets of that list. |
| Grep.Min | develop/dev05/task.go:135-140 | The result is one of the arguments and no larger than either. |
| Grep.Max | develop/dev05/task.go:142-147 | The result is one of the arguments and no smaller than either. |
| Grep.QuoteMetaRoundTrip | develop/dev05/task.go:85-86 | A quoted pattern reads back as the original text, so `-F` matches it literally. |
| Grep.QuoteMetaAppend | develop/dev05/task.go:85-86 | Quoting distributes over concatenation. |
| Grep.IgnoreCaseFixedQuotesFlag | develop/dev05/task.go:81-86 | With `-i` and `-F` together, the "(?i)" flag is quoted and searched for literally. |
| Grep.WindowSnoc | develop/dev05/task.go:107-113 | Emitting one more line of a window appends that line, formatted. |
| Grep.MatchCount | develop/dev05/task.go:96-121 | The count of selected lines never exceeds the number of lines examined. |
| Grep.GrepLines | develop/dev05/task.go:76-133 | A pattern that does not compile is an error. Otherwise the result is the specified output, with every line examined although `i += contextLines` is executed. |
| Grep.OutputMatch | develop/dev05/task.go:103-120 | The inner loop appends exactly the selected line's block. |
| Grep.NoContextOutput | develop/dev05/task.go:114-120 | Without a window the lines output are exactly the selected lines (numbered with `-n`), and there are as many as the count. |
| Grep.ContextWindow | develop/dev05/task.go:104-113 | With window c > 0, a match at i outputs lines max(0,i-c) .. min(len,i+c+1)-1 in order, the match among them. |
| Grep.OverlapRepeats | develop/dev05/task.go:104-124 | Adjacent matches with a window both output the shared line: overlaps repeat. |
| Grep.InvertComplements | develop/dev05/task.go:98-101 | The counts with and without `-v` add up to the number of lines. |
| Grep.ContextFlagIgnored | develop/dev05/task.go:27-95 | The value of `-C` changes neither the output nor the count. |
| Grep.BlockIgnoresContext | develop/dev05/task.go:95-120 | The lines printed for one selected line do not depend on the value of `-C`. |
| Grep.CountResult | develop/dev05/task.go:128-130 | With `-c` grep returns one line, the decimal number of selected lines. |
| Grep.CountPrintsOne | develop/dev05/task.go:58-59 | With `-c`, main as written prints "1" whatever the number of matches. |
| Grep.CountPrintsOneExample | develop/dev05/task.go:58-59 | Three matching lines: the count is 3 but main prints "1". |
| Grep.CountPrintsMatches | develop/dev05/task.go:58-64 | Printing grep's result instead prints the number of selected lines. |
| Cut.ScanInt | develop/dev06/task.go:58 | A scanned integer, with the white space before it, consumes at least one and at most all characters. |
| Cut.ScanSigned | develop/dev06/task.go:58 | A signed integer consumes at least one and at most all characters. |
| Cut.ScanIntSkipsSpace | develop/dev06/task.go:58 | White space other than a newline before an integer is skipped and counted as consumed. What follows it decides the value. |
| Cut.SignedExamples | develop/dev06/task.go:58 | "1", "3" and "5" scan whole. "3-5" and "3- 5" scan only the 3. |
| Cut.SpacedPartExamples | develop/dev06/task.go:58-64 | " 3" gives [2] and "3- 5" gives [2, 3, 4]: the white space before each integer is skipped. |
| Cut.DigitRun | develop/dev06/task.go:58 | The digit run at the front is maximal and all digits. |
| Cut.Range | develop/dev06/task.go:62-64 | "A-B" gives the indices A-1..B-1 in ascending order, and nothing when A > B. |
| Cut.ContinueAppend | develop/dev06/task.go:56-68 | Appending the indices of the parts one part at a time is associative. |
| Cut.ParseFields | develop/dev06/task.go:53-70 | The loop returns exactly the specified index list or error. |
| Cut.ParsedPartsAt | develop/dev06/task.go:56-68 | From part i on, a part that does not scan is the error, and otherwise its indices come before the rest. |
| Cut.AppendRange | develop/dev06/task.go:62-64 | The inner loop appends Range(A, B). |
| Cut.RangeSnoc | develop/dev06/task.go:62-64 | Extending a range by one index appends that index. |
| Cut.PartMeaning | develop/dev06/task.go:58-67 | One integer N gives [N-1]; "A-B" gives A-1..B-1; a part without an integer is an error. |
| Cut.ParsedPartsConcat | develop/dev06/task.go:55-69 | Part lists concatenate their indices in order; the first bad part is the error. |
| Cut.PartExamples | develop/dev06/task.go:58-64 | "1" gives [0], "3-5" gives [2, 3, 4]. |
| Cut.SplitExample | develop/dev06/task.go:55 | "1,3-5" splits on "," into "1" and "3-5". |
| Cut.SelectColumns | develop/dev06/task.go:72-80 | The loop returns the specified selection. |
| Cut.SelectedAt | develop/dev06/task.go:74-78 | From index k on, the selection is the column at indices[k] when it is in range, followed by the rest. |
| Cut.SelectedBounds | develop/dev06/task.go:72-80 | No more columns than indices. When every index is in range, exactly the columns at the indices, in index order. |
| Cut.SelectedConcat | develop/dev06/task.go:74-78 | Selection keeps the order of the index list. |
| Cut.CutAllColumns | develop/dev06/task.go:43-45 | Selecting every column, in order, prints the line unchanged. |
| Cut.CutWithoutDelimiter | develop/dev06/task.go:39-45 | With `-s` a line without the delimiter prints nothing; without `-s` that line is one column. |
| Cut.CutMain | develop/dev06/task.go:24-51 | An empty field list and a bad field list are errors. Otherwise every input line is cut as specified. |
| Cut.CutInput | develop/dev06/task.go:37-46 | The loop over the input lines outputs, in order, the cut of every line that `-s` does not drop. |
| Cut.CutOne | develop/dev06/task.go:38-45 | One line gives nothing when `-s` drops it, and otherwise its selected columns joined with the delimiter. |
| Cut.CutLinesAt | develop/dev06/task.go:37-46 | The output up to line i is that of the lines before it followed by line i's cut, or nothing when `-s` drops the line. |
| Strings.WordLength | develop/dev03/task.go:139 | The first word ends at the first white space: the prefix holds none, and the next character is white space. |
| Strings.FieldsAreWords | develop/dev03/task.go:139 | Every field of `strings.Fields` is non-empty and free of white space. |
| Strings.FieldsFlatten | develop/dev03/task.go:139 | The fields, concatenated, are the line with its white space removed. |
| Strings.IndexOf | develop/dev06/task.go:39 | A found index is an occurrence of the separator. |
| Strings.IndexOfFirst | develop/dev06/task.go:39 | The found index is the first occurrence. None means there is no occurrence. |
| Strings.Explode | develop/dev06/task.go:43 | Splitting on "" gives each character as a string of its own. |
| Strings.SplitNonEmpty | develop/dev06/task.go:43 | Split on a non-empty separator gives at least one part; without an occurrence, the string itself. |
| Strings.JoinSplit | develop/dev06/task.go:43-45 | Joining the parts of a split with the same separator gives the input back. |
| Strings.JoinSplitSep | develop/dev06/task.go:43-45 | The same round trip for a non-empty separator. |
| Strings.SplitNoOccurrence | develop/dev06/task.go:39-45 | A line without the separator is one part, and joins back to itself. |
| Strings.JoinCons | develop/dev06/task.go:45 | Join puts the separator between the first part and the rest. |
| Strings.JoinChars | develop/dev06/task.go:43-45 | Joining a string's characters with "" gives the string. |
| Strings.TrimRight | develop/dev03/task.go:83 | The result is a prefix of the input. Only cutset characters were removed, and the result does not end in one. |
| Strings.DigitChar | develop/dev05/task.go:129 | Each digit value has a digit character that reads back as that value. |
| Strings.NatToString | develop/dev05/task.go:129 | `%d` of a non-negative number is a non-empty string of digits. |
| Strings.NatToStringRoundTrip | develop/dev05/task.go:129 | Reading back a formatted number gives the number. |
| Sorting.LexLessIrreflexive | develop/dev03/task.go:127 | No string is less than itself. |
| Sorting.LexLessTransitive | develop/dev03/task.go:127 | String order is transitive. |
| Sorting.LexLessTotal | develop/dev03/task.go:127 | Two different strings are ordered one way or the other. |
| Sorting.LexLessEqTotalPreorder | develop/dev03/task.go:163 | `<=` on strings is total and transitive. |
| Sorting.SortBy | develop/dev03/task.go:109 | The reference sort returns a permutation of its input. |
| Sorting.InsertSorted | develop/dev03/task.go:109 | Inserting into a sorted sequence keeps it sorted. |
| Sorting.SortBySorted | develop/dev03/task.go:109 | The reference sort's result is ordered. |
| Sorting.SortedByUnique | develop/dev04/task.go:17 | Under an antisymmetric order the sorted permutation is unique, so any correct sort gives the same strings. |
| Sorting.SortByLength | develop/dev03/task.go:109 | Sorting keeps the length. |
| FilePath.Segments | develop/dev09/task.go:48 | A path's slash-separated elements are at least one, none holding a slash. |
| FilePath.SegmentsJoin | develop/dev09/task.go:48 | The elements joined with "/" are the path again. |
| FilePath.ReduceGood | develop/dev09/task.go:48 | Clean keeps only non-empty names other than "."; a rooted path keeps no "..". |
| FilePath.JoinKept | develop/dev09/task.go:48 | Kept names join to a path that is empty iff there are none, and never starts or ends with "/". |
| FilePath.CleanShape | develop/dev09/task.go:48-50 | A cleaned path is non-empty and rooted iff the input is. It ends in "/" only when it is "/". |
| FilePath.JoinNoTrailingSlash | develop/dev09/task.go:48-49 | Joining onto a non-empty base gives a path ending in "/" only when it is "/". |
| FilePath.Ext | develop/dev09/task.go:51 | The extension is empty, or a suffix starting with its only dot and holding no slash. |
| FilePath.ExtOfSuffix | develop/dev09/task.go:51 | A final element "name.w" has extension ".w". |
| FilePath.ExtNone | develop/dev09/task.go:51 | A path without dots has no extension. |
| FilePath.DirPrefix | develop/dev09/task.go:117 | The directory part is the prefix up to and including the last slash. |
| FilePath.CleanNames | develop/dev09/task.go:48 | A relative path of plain names is already clean. |
| FilePath.SegmentsOfNames | develop/dev09/task.go:48 | Splitting names joined with "/" gives the names. |
| FilePath.ReduceNames | develop/dev09/task.go:48 | Clean keeps a list of plain names as it is. |
| Mirror.GetAttr | develop/dev09/task.go:132-139 | Returns the value of the first attribute with the key, and "" when none has it. |
| Mirror.PolicyCases | develop/dev09/task.go:91-105 | `img`/`script` follow `src`; `a`, and `link` with rel="stylesheet", follow `href`; another `link` is pruned; everything else is only recursed into. |
| Mirror.IndexBranchUnreachable | develop/dev09/task.go:48-53 | For a non-empty relative base directory the "index.html" branch is never taken. The path is the joined path, plus ".html" when it has no extension. |
| Mirror.DirectoryUrl | develop/dev09/task.go:48-53 | A directory URL "/d/" on host h is saved as "h/d.html". |
| Mirror.RootPage | develop/dev09/task.go:48-68 | A host with an extension saves its root page under the host name itself. That page is parsed only if the name ends in ".html". |
| Mirror.ExampleHost | develop/dev09/task.go:48-68 | "example.com" has extension ".com", so its root page is not parsed. |
| Mirror.JoinNameRoot | develop/dev09/task.go:48 | Joining a host with "" or "/" gives the host. |
| Mirror.JoinNameDir | develop/dev09/task.go:48 | Joining a host with "/d/" gives "h/d". |
| Mirror.ExtLastName | develop/dev09/task.go:51 | A final element without a dot has no extension. |
| Mirror.SkeletonMeans | develop/dev09/task.go:106-127 | Equal skeletons mean the same node types, tags, attribute keys and tree shape. |
| Mirror.SkeletonsUpdate | develop/dev09/task.go:123-127 | Replacing a child by one of the same skeleton keeps the children's skeletons. |
| Mirror.AttrsOutcomeStep | develop/dev09/task.go:106-118 | Rewriting one same-host attribute keeps "each attribute is unchanged or correctly rewritten". |
| Mirror.StopFacts | develop/dev09/task.go:108-114 | A named attribute that does not parse or leaves the host ends the attribute loop there, leaving the attributes as they are. |
| Mirror.FollowFromFacts | develop/dev09/task.go:106-119 | From attribute i on, the loop keeps "each attribute unchanged or rewritten". An error always stops it. Without a stop every named attribute is rewritten; a stop is at a first leaving attribute at or after i. |
| Mirror.FollowFromSpec | develop/dev09/task.go:106-119 | Each attribute is kept or, when named, rewritten to its same-host target relative to the page's directory. The loop stops exactly when some named attribute does not parse or leaves the host. It then stops at the first such one, returns the error exactly when that reference does not parse, and leaves the later attributes untouched. Otherwise it succeeds and every named attribute is rewritten. |
| Mirror.ChildrenFrom | develop/dev09/task.go:123-127 | From child i on, the loop either mirrors every remaining child without error or stops with the error of the first failing child. |
| Mirror.ChildrenOutcome | develop/dev09/task.go:123-127 | Either no child fails and each is replaced by its mirrored tree, or the first failing child gives the error. The children before it are mirrored, and those after it are left as they were. |
| Mirror.MirroredMeans | develop/dev09/task.go:90-130 | A pruned link comes back unchanged, without error. Every node keeps its type and tag. Only a followed tag's attributes change, as the attribute loop says. A stop there leaves the children as they were, with the loop's outcome. Otherwise the outcome and the children are those of the children loop. |
| Mirror.MirroredShape | develop/dev09/task.go:90-130 | Mirroring keeps node types, tags, attribute keys and tree shape, and its only error is a bad reference. |
| Mirror.ChildrenShape | develop/dev09/task.go:123-127 | The children loop keeps the children's skeletons, and its only error is a bad reference. |
| Mirror.NestedImageRewritten | develop/dev09/task.go:90-130 | A document whose body holds one same-host image has that image's `src` rewritten, two levels below the root. The outcome is success and nothing else changes. |
| Mirror.FetchedOnceMeans | develop/dev09/task.go:36-41 | The invariant means each URL string was requested at most once, and the visited URLs are exactly the requested ones. |
| Mirror.MarkFetched | develop/dev09/task.go:36-41 | Marking a new URL visited as it is requested keeps that invariant. |
| Mirror.FetchedOnExtend | develop/dev09/task.go:106-127 | Two consecutive stretches of requests on one host make one stretch on that host. |
| Mirror.Mirror.DownloadPage | develop/dev09/task.go:35-88 | A visited URL returns at once and changes nothing. A new one is marked visited and is the next request. A URL the web does not serve is the fetch error, and nothing else changes. Otherwise the outcome is `PageOutcome`'s and the file exists. On success the file holds the rendered mirrored tree (HTML) written over what the nested pages left in it, or the body as it came, and the last line printed is "Downloaded" with the URL. Every request on the way is on the URL's host, and no file disappears. |
| Mirror.Mirror.Save | develop/dev09/task.go:61-87 | The outcome is `PageOutcome`'s and the file exists. On success the file holds `PageOutcome`'s contents written (`Overlay`) over `left`, what the nested pages wrote to the file after `os.Create` emptied it, and the page is reported last. `left` is empty for a non-HTML body and when nothing was requested. A non-HTML body is written as it came and reported, and nothing else changes. A parse failure leaves the file empty and nothing else changed. |
| Mirror.Mirror.SaveHtml | develop/dev09/task.go:67-78 | The outcome is `PageOutcome`'s. On success the file holds `render` of the tree `Mirrored` gives, written from the start over `left`, the file as the traversal left it: a longer nested render keeps its tail. `left` is the file as it was when nothing was requested. A parse failure changes nothing. |
| Mirror.Overlay | develop/dev09/task.go:61-76 | Writing `c` from offset 0 into a file holding `f` leaves a file of length max(\|f\|, \|c\|) that starts with `c` and keeps the rest of `f`. |
| Mirror.OverlayExample | develop/dev09/task.go:61-76 | Writing "ab" over "xyz" leaves "abz", so a shorter outer page does not replace a longer nested one. |
| Mirror.Mirror.DownloadResources | develop/dev09/task.go:90-130 | The outcome and the rewritten tree are exactly `Mirrored` of the node, whose meaning `MirroredMeans` and `MirroredShape` give. Every request on the way is on the base URL's host. A pruned link requests nothing and writes no file. |
| Mirror.Mirror.FollowAttrs | develop/dev09/task.go:106-119 | The outcome, attributes and stop flag are exactly `FollowFrom` from the first attribute, whose meaning `FollowFromSpec` gives. Without a stop, every named attribute's target has been visited. |
| Mirror.Mirror.FollowAttr | develop/dev09/task.go:106-117 | It stops exactly when the attribute is named and does not parse or leaves the host. A stop requests nothing and changes no state. It errs exactly when the attribute is named and does not parse. Otherwise the loop's result is unchanged from the next attribute on, and only this attribute may change. A followed attribute's target is then visited. |
| Mirror.Mirror.VisitChildren | develop/dev09/task.go:123-127 | The outcome and the children are exactly `MirroredChildren` from the first child, whose meaning `ChildrenOutcome` gives. |
| Mirror.Mirror.VisitChild | develop/dev09/task.go:123-127 | The child at i is replaced by `Mirrored` of it and the outcome is that child's. The other children stay. |
| CalendarStore.CreateSpec | develop/dev11/task.go:148-150 | The event is stored under its id, replacing an earlier one; every other id keeps its event. |
| CalendarStore.UpdateSpec | develop/dev11/task.go:152-158 | Update succeeds iff the id is stored. It then keeps the ids and changes only that entry. |
| CalendarStore.DeleteSpec | develop/dev11/task.go:160-166 | Delete succeeds iff the id is stored, and then removes only that id. |
| CalendarStore.CreateThenDelete | develop/dev11/task.go:148-166 | Deleting a freshly created event restores the store; a second delete fails. |
| CalendarStore.InRange | develop/dev11/task.go:184-192 | The selected ids are exactly those whose date lies strictly between the bounds. |
| CalendarStore.RangeExcludesBounds | develop/dev11/task.go:187 | An event dated exactly at either bound is not selected. |
| CalendarStore.Truncate | develop/dev11/task.go:172-182 | Truncation gives the multiple of d at or below t, less than d away. |
| CalendarStore.TruncateStable | develop/dev11/task.go:172-182 | Every time in a block truncates to the block's start. |
| CalendarStore.QueryRanges | develop/dev11/task.go:168-182 | The day query excludes events at exactly the given time. The week range is 7-day aligned, contains the date and is 7 days long. The month range starts at the 30-day multiple at or below the date. |
| CalendarStore.SameWeek | develop/dev11/task.go:172-176 | Two dates in one 7-day block query the same week. |
| CalendarStore.Calendar.CreateEvent | develop/dev11/task.go:148-150 | The store becomes `Created(old, e)`. |
| CalendarStore.Calendar.UpdateEvent | develop/dev11/task.go:152-158 | An unknown id is an error and leaves the store. Otherwise the store becomes `Updated`. |
| CalendarStore.Calendar.DeleteEvent | develop/dev11/task.go:160-166 | An unknown id is an error and leaves the store. Otherwise the store becomes `Deleted`. |
| CalendarStore.Calendar.GetEventsByDateRange | develop/dev11/task.go:184-192 | Exactly the in-range events, each once, in some order of their ids. Every returned event lies strictly between the bounds, and there are as many as stored events in range. |
| CalendarStore.DistinctCard | develop/dev11/task.go:186-190 | The loop appends each in-range id once, so the result is as long as the set of in-range ids. |
| CalendarStore.Calendar.GetEventsForDay | develop/dev11/task.go:168-170 | Exactly the events for the 24 hours after the date, both ends excluded. |
| CalendarStore.Calendar.GetEventsForWeek | develop/dev11/task.go:172-176 | Exactly the events strictly after the start of the date's 7-day block and strictly before its end. |
| CalendarStore.Calendar.GetEventsForMonth | develop/dev11/task.go:178-182 | Exactly the events strictly after the 30-day multiple at or below the date and strictly before one calendar month later; both ends are excluded. |
| Strategy.Ascending | pattern/07_strategy.go:21-23 | The reference result is sorted and a permutation of the input. |
| Strategy.IntLeTotalPreorder | pattern/07_strategy.go:32-60 | `<=` on ints is a total, antisymmetric preorder. |
| Strategy.SortedIsAscending | pattern/07_strategy.go:21-23 | Any sorted permutation equals the reference result, so both strategies agree. |
| Strategy.Swapped | pattern/07_strategy.go:62-65 | A swap exchanges two cells, keeps the others and is a permutation. |
| Strategy.CompareSwapKeeps | pattern/07_strategy.go:31-35 | One comparison carries the largest value so far forward and keeps the sorted tail. |
| Strategy.PassDone | pattern/07_strategy.go:30-36 | Each pass grows the sorted tail by one cell. |
| Strategy.BubblePass | pattern/07_strategy.go:31-35 | One pass moves the largest of the unsorted cells to the end of them, growing the sorted tail by one cell, and permutes the array. |
| Strategy.BubbleSort | pattern/07_strategy.go:28-38 | The array ends sorted and a permutation of what it held. |
| Strategy.PartitionStep | pattern/07_strategy.go:59-64 | One loop step keeps the values below the pivot at low..i and the others up to j, swapping a smaller value to the end of the first group. |
| Strategy.Partition | pattern/07_strategy.go:56-67 | The old last value lands at p, smaller values before it, the others after it. Nothing outside the range changes, and the array is a permutation. |
| Strategy.PartitionScan | pattern/07_strategy.go:57-64 | The loop leaves the values below the pivot at low..i and the others at i+1..high-1; the pivot stays at high, nothing outside the range changes, and the array is a permutation. |
| Strategy.PivotPlaced | pattern/07_strategy.go:65-66 | The closing swap puts the pivot at i+1, between the smaller and the other values. |
| Strategy.Swap | pattern/07_strategy.go:62 | The swap exchanges exactly the two cells. |
| Strategy.SwapInside | pattern/07_strategy.go:62 | A swap inside low..high keeps the cells outside the range and the multiset of the array. |
| Strategy.QuickSortCombine | pattern/07_strategy.go:48-54 | Sorting both sides of the pivot sorts the whole range. |
| Strategy.QuickSort | pattern/07_strategy.go:48-54 | The range low..high ends sorted and the rest is untouched; a range with low >= high is left alone. |
| Strategy.QuickSortAll | pattern/07_strategy.go:43-46 | The array ends sorted and a permutation of what it held. |
| Strategy.Run | pattern/07_strategy.go:21-46 | Either strategy leaves the same reference result. |
| Strategy.Context.SetStrategy | pattern/07_strategy.go:78-80 | The strategy is replaced. |
| Strategy.Context.ExecuteStrategy | pattern/07_strategy.go:82-84 | The array becomes the reference result, whichever strategy is set. |
| VendingMachine.NextChanges | pattern/08_state.go:60-107 | Exactly three presses change the state: coin without a coin, button with a coin, dispense while dispensing. |
| VendingMachine.DispensingOnlyFromHasCoin | pattern/08_state.go:82-85 | Dispensing is entered only by pressing the button with a coin in. |
| VendingMachine.Trace | pattern/08_state.go:43-53 | A sequence of presses prints one line per press. |
| VendingMachine.FullRound | pattern/08_state.go:60-107 | Coin, button, dispense is one round back to NoCoin, with its three messages. |
| VendingMachine.CoinsBalance | pattern/08_state.go:60-107 | Coins accepted equal items dispensed plus one exactly when the machine is away from NoCoin. |
| VendingMachine.Machine.InsertCoin | pattern/08_state.go:43-98 | The state and output follow the transition table for a coin. |
| VendingMachine.Machine.PressButton | pattern/08_state.go:47-102 | The state and output follow the transition table for the button. |
| VendingMachine.Machine.Dispense | pattern/08_state.go:51-107 | The state and output follow the transition table for dispensing. |
| RemoteControl.LightReceiver.On | pattern/04_command.go:29-32 | The light is on and one line is printed. |
| RemoteControl.LightReceiver.Off | pattern/04_command.go:34-37 | The light is off and one line is printed. |
| RemoteControl.TVReceiver.On | pattern/04_command.go:44-47 | The TV is on and one line is printed. |
| RemoteControl.TVReceiver.Off | pattern/04_command.go:49-52 | The TV is off and one line is printed. |
| RemoteControl.Opposite | pattern/04_command.go:55-104 | Each command's undo is the opposite command on the same receiver. |
| RemoteControl.UndoIsOpposite | pattern/04_command.go:59-104 | Taking the opposite twice is the identity. Undo prints what the opposite's Execute prints, and on and off lines differ. |
| RemoteControl.Execute | pattern/04_command.go:59-100 | The receiver ends in the command's direction and prints its line. |
| RemoteControl.Undo | pattern/04_command.go:63-104 | The receiver ends in the opposite direction and prints that line. |
| RemoteControl.RemoteControlInvoker.SetCommand | pattern/04_command.go:120-123 | Only the given slot of each side changes. |
| RemoteControl.RemoteControlInvoker.PressOnButton | pattern/04_command.go:125-128 | The slot's on command runs and becomes the undo command. |
| RemoteControl.RemoteControlInvoker.PressOffButton | pattern/04_command.go:130-133 | The slot's off command runs and becomes the undo command. |
| RemoteControl.RemoteControlInvoker.PressUndoButton | pattern/04_command.go:135-137 | The last command is undone and kept, so undo can repeat. |
| RemoteControl.OnThenUndoTwice | pattern/04_command.go:125-137 | Light on and then undo twice leaves the light off, with the lines on, off, off. |
| Builder.ApplyChangesOne | pattern/02_builder.go:57-75 | Each setter changes only its own field, and AddHeader only its own key. |
| Builder.LastWriteWins | pattern/02_builder.go:57-75 | A later call to the same setter erases the earlier one. |
| Builder.DifferentFieldsCommute | pattern/02_builder.go:57-75 | Setters of different fields commute. |
| Builder.ApplyAllAppend | pattern/02_builder.go:57-75 | A chain of setter calls can be applied in two parts. |
| Builder.MethodIsLast | pattern/02_builder.go:57-60 | The built method is the last SetMethod's argument, or the initial "" without one. |
| Builder.RequestBuilder.SetMethod | pattern/02_builder.go:57-60 | Sets the method and returns the builder itself. |
| Builder.RequestBuilder.SetURL | pattern/02_builder.go:62-65 | Sets the URL and returns the builder itself. |
| Builder.RequestBuilder.AddHeader | pattern/02_builder.go:67-70 | Sets one header and returns the builder itself. |
| Builder.RequestBuilder.SetBody | pattern/02_builder.go:72-75 | Sets the body and returns the builder itself. |
| Builder.RequestBuilder.Build | pattern/02_builder.go:77-79 | Returns the builder's own request object, not a copy. |
| Builder.ChangeAfterBuild | pattern/02_builder.go:57-79 | A setter called after Build still changes the built request. |
| Logging.KindFor | pattern/05_chain_of_resp.go:22-26 | Each known level has the logger that reacts to it. |
| Logging.OutputShape | pattern/05_chain_of_resp.go:54-83 | A chain prints one line per logger of the message's level, each "LEVEL: message"; an unknown level prints nothing. |
| Logging.OutputAppend | pattern/05_chain_of_resp.go:39-47 | Linking a chain behind another prints the first chain's lines, then the second's. |
| Logging.StandardChain | pattern/05_chain_of_resp.go:54-83 | The chain INFO, WARN, ERROR prints each known level exactly once. |
| Logging.Kinds | pattern/05_chain_of_resp.go:50-76 | The kinds of a chain are those of its loggers, in order. |
| Logging.Logger.SetNext | pattern/05_chain_of_resp.go:39-41 | Replaces the successor. |
| Logging.Logger.LogNext | pattern/05_chain_of_resp.go:43-47 | Prints what the rest of the chain prints; at the end of the chain, nothing. |
| Logging.Logger.LogMessage | pattern/05_chain_of_resp.go:54-83 | Prints the specified output of the chain from this logger on: matching loggers in chain order. |
| Logging.NewStandardChain | pattern/05_chain_of_resp.go:35-47 | A usage example of `SetNext`; the source builds no chain itself. Linking three fresh loggers gives the acyclic chain INFO, WARN, ERROR. |
| Logging.LogThroughStandardChain | pattern/05_chain_of_resp.go:54-83 | A usage example like `NewStandardChain`: a message sent through that chain prints exactly one line when its level is known, and none otherwise. |

## Left out

- All I/O:
  - command-line flag parsing;
  - reading files and standard input, writing files;
  - `log.Fatal` exits;
  - printing, which becomes appending lines to a sequence, except for the two lines of
    pattern/07 below.
  Usage errors in `main` are kept only where they decide the output (`cut` without `-f`).
- The HTTP server of develop/dev11: handlers, JSON, middleware, `parseEvent` and
  `parseDate`. Only the `Calendar` methods are modelled.
- `Request.Send` of pattern/02 performs HTTP and is not modelled.
- Regular expressions:
  - `regexp.Compile` and `MatchString` are parameters of `Grep.GrepLines`;
  - only `QuoteMeta` is modelled, on its set of special characters.
- `net/http`, `golang.org/x/net/html` and `net/url` in develop/dev09 are parameters of the
  `Mirror` class:
  - the web is a finite map from URL text to body;
  - parsing, rendering and reference resolution are functions;
  - `filepath.Rel` is a function too, and its error is ignored, as in the source.
- `os.MkdirAll` and `os.Create` in develop/dev09 are taken to succeed. Their failure paths are
  not modelled.
- Mirror.Mirror.DownloadResources: the rewritten tree is returned as a value rather than
  updated in place through `*html.Node` pointers. Aliasing between nodes is not modelled.
- Mirror.Mirror.DownloadPage: when mirroring an HTML page's resources fails, the file of that
  page was created empty, but a nested page saved under the same local path may have written
  to it since. The model states the contents of the file only on success, and as empty only
  after a parse failure.
- Mirror.Mirror.Save: on success the file holds the page's contents written over `left`. The
  contract ties `left` to nothing beyond being empty when nothing was requested. It does not
  say which nested page under the same local path (for example "/a" linking "/a.html") wrote
  it.
- Mirror.Mirror.SaveHtml: `left` is the file as the resource traversal left it. The contract
  says which nested page wrote it only in the case where nothing was requested, when it is the
  file as it was before.
- Strategy.BubbleSort, Strategy.QuickSortAll, Strategy.Run and
  Strategy.Context.ExecuteStrategy print nothing: the `fmt.Println` of the sorted array at
  pattern/07_strategy.go:37 and :45 is not modelled. Their contracts state the array only.
- Strategy.Context.ExecuteStrategy: the model has no nil strategy. `NewContext(nil)` or
  `SetStrategy(nil)` followed by `ExecuteStrategy` panics at pattern/07_strategy.go:83, and
  that panic is not modelled.
- SortUtil: `-n` and `-h` compare `float64` values from `strconv.ParseFloat` and are not
  modelled. Floating point is outside the model.
- SortUtil.SortLines: with `-r` the source hands `sort.Slice` the comparator `!less`, which is
  not a strict order, so Go promises no particular result. The model states what a correct
  sort by the reversed key order would give.
- SortUtil.SortLines: among lines with equal keys, the model's order is that of its reference
  insertion sort. Go's unstable `sort.Slice` may order them otherwise.
- Anagrams.LowerRuneSpec: `strings.ToLower` is modelled on the Latin and Russian alphabets
  only, not the full Unicode case mapping.
- Unpack: `unicode.IsDigit` is modelled on ASCII digits only. Error positions count
  characters, while Go's `range` reports byte offsets in UTF-8. The error texts are
  constructors, not the formatted messages.
- Unpack.Unpack: the digit 0 makes `strings.Repeat` panic on a count of -1. The model returns
  the error `NegativeRepeat` at the digit's position instead.
- Cut.ScanInt: `fmt.Sscanf("%d-%d")` is modelled as follows. White space other than a
  newline is skipped before each integer. An integer is an optional sign and a digit run. The
  first integer must be followed directly by "-" and then the second integer. Go's other
  number syntaxes (underscores, base prefixes) and integer overflow are not modelled.
- CalendarStore: a date is a whole number of seconds since Go's zero time, in UTC. Time zones,
  daylight saving and nanoseconds are not modelled. `AddDate(0, 1, 0)` is a function given to
  `GetEventsForMonth`. `AddDate(0, 0, 1)` and `AddDate(0, 0, 7)` are taken as exactly 24 hours
  and 7 days.
- CalendarStore.Calendar.GetEventsByDateRange: Go visits a map in an unspecified order; the
  model proves the result for every order and exposes the order as a ghost value.
- Integers are unbounded. Go's `int` overflow is out of reach of these programs' inputs.
- Logging.Logger.LogMessage: the chain must be acyclic. A chain with a cycle recurses forever
  in the source.
- RemoteControl.RemoteControlInvoker.PressOnButton: pressing an empty slot or a slot outside
  0..1 panics in the source (pattern/04_command.go:126). The model requires a set command in
  a valid slot.
- RemoteControl.RemoteControlInvoker.PressOffButton: pressing an empty slot or a slot outside
  0..1 panics in the source (pattern/04_command.go:131). The model requires a set command in
  a valid slot.
- RemoteControl.RemoteControlInvoker.PressUndoButton: pressing undo before any command has
  run calls a method on a nil command and panics in the source (pattern/04_command.go:136).
  The model requires an undo command.
- RemoteControl.RemoteControlInvoker.SetCommand: a slot outside 0..1 panics in the source
  (pattern/04_command.go:121-122). The model requires a valid slot.
- The context files (develop/dev01, dev07, dev08, dev10 and pattern/01, 03, 06) are not part
  of this model.

## Notes on the source

- The "index.html" branch of develop/dev09 (lines 49-50) reads as if a directory URL "/dir/"
  were saved as "dir/index.html". The code gives "dir.html", because `filepath.Join` has
  already removed the trailing slash (`Mirror.IndexBranchUnreachable`, `Mirror.DirectoryUrl`). The model
  follows the code.
- The `-C` flag of develop/dev05 is parsed but never read (`Grep.ContextFlagIgnored`).
- `i += contextLines` in develop/dev05 changes only the loop's copy of the index, so every
  line is still examined (`Grep.GrepLines`).

## Findings

| source | as written | input that shows it | evidently intended | confidence | as-written member | corrected member |
|---|---|---|---|---|---|---|
| develop/dev05/task.go:58-59 | with `-c`, main prints `len(matches)`; grep has already replaced its result by a one-line slice holding the count, so this always prints 1 | `-c` with three lines that all match: grep returns ["3"] and main prints 1 | print the count grep computed, i.e. the result line itself | not executed | Grep.CountPrintsOne | Grep.CountPrintsMatches |
