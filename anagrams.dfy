/**
 * `findAnagrams` of develop/dev04: the words are lowercased and sorted in place, grouped by
 * their signature (the word's characters in ascending order), and every group of two or more
 * entries is returned under its first word.
 */
module Anagrams {
  import opened Sorting

  /** Upper-case letters of the Latin and Russian alphabets. */
  predicate IsUpper(c: char) {
    ('A' <= c <= 'Z') || ('А' <= c <= 'Я') || c == 'Ё'
  }

  /** strings.ToLower on one character, for the Latin and Russian alphabets: A-Z and А-Я move
      up by 0x20, Ё (U+0401) becomes ё (U+0451); all other characters are kept. */
  function LowerRune(c: char): char {
    if 'A' <= c <= 'Z' || 'А' <= c <= 'Я' then (c as int + 0x20) as char
    else if c == 'Ё' then 'ё'
    else c
  }

  /** Lowering leaves no upper-case letter, changes nothing but upper-case letters, and doing it
      twice is doing it once. */
  lemma {:induction false} LowerRuneSpec(c: char)
    ensures !IsUpper(LowerRune(c))
    ensures !IsUpper(c) ==> LowerRune(c) == c
    ensures LowerRune(LowerRune(c)) == LowerRune(c)
  {
  }

  function ToLower(s: string): (r: string)
    ensures |r| == |s| && forall i :: 0 <= i < |s| ==> r[i] == LowerRune(s[i])
  {
    seq(|s|, i requires 0 <= i < |s| => LowerRune(s[i]))
  }

  function LowerAll(ws: seq<string>): (r: seq<string>)
    ensures |r| == |ws| && forall i :: 0 <= i < |ws| ==> r[i] == ToLower(ws[i])
  {
    seq(|ws|, i requires 0 <= i < |ws| => ToLower(ws[i]))
  }

  predicate CharLe(x: char, y: char) {
    x <= y
  }

  lemma {:induction false} CharLeOrder()
    ensures TotalPreorder(CharLe) && Antisymmetric(CharLe)
  {
  }

  /** sortedWord: the characters of the word in ascending order. */
  function SortedWord(word: string): (r: string)
    ensures multiset(r) == multiset(word) && SortedBy(r, CharLe)
  {
    CharLeOrder();
    SortBySorted(word, CharLe);
    SortBy(word, CharLe)
  }

  /** Two words have the same signature exactly when they are anagrams of each other. */
  lemma {:induction false} SameSignature(a: string, b: string)
    ensures SortedWord(a) == SortedWord(b) <==> multiset(a) == multiset(b)
  {
    if multiset(a) == multiset(b) {
      CharLeOrder();
      SortedByUnique(SortedWord(a), SortedWord(b), CharLe);
    }
  }

  /** The entries of `ws` with signature `sig`, duplicates included, in the order of `ws`. */
  function Group(ws: seq<string>, sig: string): seq<string>
    decreases |ws|
  {
    if ws == [] then []
    else
      var p, x := ws[..|ws| - 1], ws[|ws| - 1];
      Group(p, sig) + (if SortedWord(x) == sig then [x] else [])
  }

  lemma {:induction false} GroupMembers(ws: seq<string>, sig: string)
    ensures forall x :: x in Group(ws, sig) <==> x in ws && SortedWord(x) == sig
    decreases |ws|
  {
    if ws != [] {
      var p := ws[..|ws| - 1];
      GroupMembers(p, sig);
      assert ws == p + [ws[|ws| - 1]];
    }
  }

  /** A group of an ascending list is ascending. */
  lemma {:induction false} GroupSorted(ws: seq<string>, sig: string)
    requires SortedBy(ws, LexLessEq)
    ensures SortedBy(Group(ws, sig), LexLessEq)
    decreases |ws|
  {
    if ws != [] {
      var p, x := ws[..|ws| - 1], ws[|ws| - 1];
      assert SortedBy(p, LexLessEq);
      GroupSorted(p, sig);
      GroupMembers(p, sig);
      var g := Group(p, sig);
      forall k | 0 <= k < |g| ensures LexLessEq(g[k], x) {
        assert g[k] in p;
      }
    }
  }

  /** sortedMap after the grouping loop over `ws`. */
  function GroupMap(ws: seq<string>): map<string, seq<string>>
    decreases |ws|
  {
    if ws == [] then map[]
    else
      var g, x := GroupMap(ws[..|ws| - 1]), ws[|ws| - 1];
      var k := SortedWord(x);
      g[k := (if k in g then g[k] else []) + [x]]
  }

  /** sortedMap holds, under each signature that occurs, the group of that signature. */
  lemma {:induction false} GroupMapSpec(ws: seq<string>)
    ensures forall k :: k in GroupMap(ws) <==> Group(ws, k) != []
    ensures forall k :: k in GroupMap(ws) ==> GroupMap(ws)[k] == Group(ws, k)
    decreases |ws|
  {
    if ws != [] {
      GroupMapSpec(ws[..|ws| - 1]);
    }
  }

  /** `w` is the first entry of a group of two or more. */
  predicate IsKey(ws: seq<string>, w: string) {
    var g := Group(ws, SortedWord(w));
    |g| >= 2 && g[0] == w
  }

  /** The result of findAnagrams for the prepared list `ws`. */
  function AnagramSets(ws: seq<string>): map<string, seq<string>> {
    map w | w in ws && IsKey(ws, w) :: Group(ws, SortedWord(w))
  }

  /** Every set has two or more entries, starts with its key, and holds entries of the list that
      share the key's signature; when the list is ascending, so is every set. */
  lemma {:induction false} AnagramSetShape(ws: seq<string>, key: string)
    requires key in AnagramSets(ws)
    ensures var g := AnagramSets(ws)[key];
      && |g| >= 2 && g[0] == key
      && (forall x :: x in g ==> x in ws && SortedWord(x) == SortedWord(key))
      && (SortedBy(ws, LexLessEq) ==> SortedBy(g, LexLessEq))
  {
    GroupMembers(ws, SortedWord(key));
    if SortedBy(ws, LexLessEq) {
      GroupSorted(ws, SortedWord(key));
    }
  }

  /** An entry of the list is in some set exactly when at least two entries, itself included,
      share its signature, and it is then in exactly one set. */
  lemma {:induction false} AnagramSetCover(ws: seq<string>, w: string)
    requires w in ws
    ensures var sets := AnagramSets(ws); var g := Group(ws, SortedWord(w));
      && (|g| >= 2 ==> g[0] in sets && w in sets[g[0]])
      && (forall key :: key in sets && w in sets[key] ==> |g| >= 2 && key == g[0])
  {
    var sig := SortedWord(w);
    var g := Group(ws, sig);
    GroupMembers(ws, sig);
    assert w in g;
    forall key | key in AnagramSets(ws) && w in AnagramSets(ws)[key]
      ensures |g| >= 2 && key == g[0]
    {
      GroupMembers(ws, SortedWord(key));
    }
    if |g| >= 2 {
      assert g[0] in g;
      assert SortedWord(g[0]) == sig;
    }
  }

  /** The key loop of findAnagrams, finished: every group of two or more sits under its first
      word, and nothing else is there. */
  lemma {:induction false} ResultIsSets(ws: seq<string>, m: map<string, seq<string>>, result: map<string, seq<string>>)
    requires m == GroupMap(ws)
    requires forall w :: w in result ==>
      var k := SortedWord(w); k in m && |m[k]| > 1 && m[k][0] == w && result[w] == m[k]
    requires forall k :: k in m && |m[k]| > 1 ==> m[k][0] in result
    ensures result == AnagramSets(ws)
  {
    ResultWithinSets(ws, m, result);
    SetsWithinResult(ws, m, result);
    assert result.Keys == AnagramSets(ws).Keys;
  }

  /** Every entry the key loop stores is one of the anagram sets. */
  lemma {:induction false} ResultWithinSets(ws: seq<string>, m: map<string, seq<string>>, result: map<string, seq<string>>)
    requires m == GroupMap(ws)
    requires forall w :: w in result ==>
      var k := SortedWord(w); k in m && |m[k]| > 1 && m[k][0] == w && result[w] == m[k]
    ensures forall w :: w in result ==> w in AnagramSets(ws) && AnagramSets(ws)[w] == result[w]
  {
    GroupMapSpec(ws);
    forall w | w in result ensures w in AnagramSets(ws) && AnagramSets(ws)[w] == result[w] {
      var k := SortedWord(w);
      GroupMembers(ws, k);
      assert m[k][0] in m[k];
    }
  }

  /** Every anagram set is stored by the key loop. */
  lemma {:induction false} SetsWithinResult(ws: seq<string>, m: map<string, seq<string>>, result: map<string, seq<string>>)
    requires m == GroupMap(ws)
    requires forall k :: k in m && |m[k]| > 1 ==> m[k][0] in result
    ensures forall w :: w in AnagramSets(ws) ==> w in result
  {
    GroupMapSpec(ws);
    forall w | w in AnagramSets(ws) ensures w in result {
      var k := SortedWord(w);
      assert Group(ws, k) != [];
    }
  }

  /** The loops of findAnagrams keep these facts about sortedMap once it is built. */
  lemma {:induction false} GroupMapFirsts(ws: seq<string>)
    ensures forall k :: k in GroupMap(ws) ==> GroupMap(ws)[k] != [] && SortedWord(GroupMap(ws)[k][0]) == k
  {
    GroupMapSpec(ws);
    forall k | k in GroupMap(ws) ensures GroupMap(ws)[k] != [] && SortedWord(GroupMap(ws)[k][0]) == k {
      GroupMembers(ws, k);
      assert GroupMap(ws)[k][0] in Group(ws, k);
    }
  }

  /** The first loop of findAnagrams: every entry is lowercased in place. */
  method LowercaseAll(words: array<string>)
    modifies words
    ensures words[..] == LowerAll(old(words[..]))
  {
    var i := 0;
    while i < words.Length
      invariant 0 <= i <= words.Length
      invariant forall k :: 0 <= k < i ==> words[k] == ToLower(old(words[k]))
      invariant forall k :: i <= k < words.Length ==> words[k] == old(words[k])
    {
      words[i] := ToLower(words[i]);
      i := i + 1;
    }
  }

  /** sort.Strings is a library call; the model writes its outcome into the slice. */
  method SortStrings(words: array<string>)
    modifies words
    ensures words[..] == SortBy(old(words[..]), LexLessEq)
  {
    var sorted := SortBy(words[..], LexLessEq);
    assert |sorted| == words.Length by { SortByLength(words[..], LexLessEq); }
    forall k | 0 <= k < words.Length {
      words[k] := sorted[k];
    }
  }

  /** The grouping loop: each word is appended to the list under its signature. */
  method GroupBySignature(ws: seq<string>) returns (sortedMap: map<string, seq<string>>)
    ensures sortedMap == GroupMap(ws)
  {
    sortedMap := map[];
    var i := 0;
    while i < |ws|
      invariant 0 <= i <= |ws|
      invariant sortedMap == GroupMap(ws[..i])
    {
      var word := ws[i];
      var sig := SortedWord(word);
      var before := if sig in sortedMap then sortedMap[sig] else [];
      sortedMap := sortedMap[sig := before + [word]];
      assert ws[..i + 1][..i] == ws[..i];
      i := i + 1;
    }
    assert ws[..i] == ws;
  }

  /** The loop over sortedMap: each list of two or more goes under its first word. Go visits
      the keys in no fixed order; the model picks each next key arbitrarily. */
  method CollectSets(ghost ws: seq<string>, sortedMap: map<string, seq<string>>)
    returns (result: map<string, seq<string>>)
    requires sortedMap == GroupMap(ws)
    ensures result == AnagramSets(ws)
  {
    GroupMapFirsts(ws);
    result := map[];
    var rest := sortedMap.Keys;
    while rest != {}
      invariant rest <= sortedMap.Keys
      invariant forall w :: w in result ==>
        var k := SortedWord(w);
        k in sortedMap && k !in rest && |sortedMap[k]| > 1 && sortedMap[k][0] == w
        && result[w] == sortedMap[k]
      invariant forall k :: k in sortedMap && k !in rest && |sortedMap[k]| > 1 ==>
        sortedMap[k][0] in result
      decreases rest
    {
      var k :| k in rest;
      var group := sortedMap[k];
      if |group| > 1 {
        result := result[group[0] := group];
      }
      rest := rest - {k};
    }
    ResultIsSets(ws, sortedMap, result);
  }

  /** findAnagrams: lowercases and sorts `words` in place, then groups them. */
  method FindAnagrams(words: array<string>) returns (result: map<string, seq<string>>)
    modifies words
    ensures words[..] == SortBy(LowerAll(old(words[..])), LexLessEq)
    ensures result == AnagramSets(words[..])
  {
    LowercaseAll(words);
    SortStrings(words);
    var sortedMap := GroupBySignature(words[..]);
    result := CollectSets(words[..], sortedMap);
  }
}
