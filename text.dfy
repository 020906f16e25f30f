/** The Python and JavaScript string operations the core relies on:
    `str.split()` with no argument, `' '.join`, `str.strip()`, `in` on
    strings, `startswith`/`startsWith` and `str.lower()`. */
module Text {

  /** The code points Python's `str.isspace()` accepts, which is the set
      `str.split()` and `str.strip()` split or strip on. */
  predicate IsSpace(c: char)
  {
    var n := c as int;
    (9 <= n <= 13) || (28 <= n <= 32) || n == 0x85 || n == 0xA0 || n == 0x1680
    || (0x2000 <= n <= 0x200A) || n == 0x2028 || n == 0x2029 || n == 0x202F
    || n == 0x205F || n == 0x3000
  }

  predicate NoSpace(w: string)
  {
    forall i :: 0 <= i < |w| ==> !IsSpace(w[i])
  }

  predicate AllSpace(w: string)
  {
    forall i :: 0 <= i < |w| ==> IsSpace(w[i])
  }

  /** What `str.split()` produces: non-empty words without whitespace. */
  predicate ValidWords(ws: seq<string>)
  {
    forall i :: 0 <= i < |ws| ==> ws[i] != [] && NoSpace(ws[i])
  }

  /** A string whose only whitespace is single spaces between two
      non-whitespace characters: no leading, trailing or repeated blanks. */
  predicate IsClean(s: string)
  {
    forall i :: 0 <= i < |s| && IsSpace(s[i]) ==>
      s[i] == ' ' && 0 < i < |s| - 1 && !IsSpace(s[i - 1]) && !IsSpace(s[i + 1])
  }

  /** The number of leading whitespace characters. */
  function LeadingSpaces(s: string): (n: nat)
    ensures n <= |s|
    ensures forall i :: 0 <= i < n ==> IsSpace(s[i])
    ensures n == |s| || !IsSpace(s[n])
  {
    if s != [] && IsSpace(s[0]) then 1 + LeadingSpaces(s[1..]) else 0
  }

  /** Where the trailing whitespace begins. */
  function TrailingStart(s: string): (m: nat)
    ensures m <= |s|
    ensures forall i :: m <= i < |s| ==> IsSpace(s[i])
    ensures m == 0 || !IsSpace(s[m - 1])
  {
    if s != [] && IsSpace(s[|s| - 1]) then TrailingStart(s[..|s| - 1]) else |s|
  }

  /** The length of the longest whitespace-free prefix. */
  function WordLength(s: string): (k: nat)
    ensures k <= |s|
    ensures forall i :: 0 <= i < k ==> !IsSpace(s[i])
    ensures k == |s| || IsSpace(s[k])
  {
    if s == [] || IsSpace(s[0]) then 0 else 1 + WordLength(s[1..])
  }

  /** Leading whitespace removed. */
  function DropSpaces(s: string): string
  {
    s[LeadingSpaces(s)..]
  }

  /** Trailing whitespace removed. */
  function DropTrailingSpaces(s: string): string
  {
    s[..TrailingStart(s)]
  }

  /** The longest whitespace-free prefix. */
  function TakeWord(s: string): string
  {
    s[..WordLength(s)]
  }

  /** Python's `str.split()` without a separator: runs of whitespace
      separate words, and leading or trailing whitespace yields no word. */
  function Split(s: string): (ws: seq<string>)
    ensures ValidWords(ws)
    decreases |s|
  {
    var t := DropSpaces(s);
    if t == [] then []
    else
      var w := TakeWord(t);
      assert w != [] by { assert !IsSpace(t[0]); }
      var ws := Split(t[|w|..]);
      ValidWordsCons(w, ws);
      [w] + ws
  }

  lemma ValidWordsCons(w: string, ws: seq<string>)
    requires w != [] && NoSpace(w) && ValidWords(ws)
    ensures ValidWords([w] + ws)
  {
    forall i | 0 <= i < |[w] + ws|
      ensures ([w] + ws)[i] != [] && NoSpace(([w] + ws)[i])
    {
      if i > 0 {
        assert ([w] + ws)[i] == ws[i - 1];
      }
    }
  }

  /** Python's `sep.join(parts)`. */
  function Join(sep: string, parts: seq<string>): string
  {
    if parts == [] then ""
    else if |parts| == 1 then parts[0]
    else parts[0] + sep + Join(sep, parts[1..])
  }

  /** `r` sits at offset `i` of `s` with only whitespace before and after it. */
  predicate StrippedAt(s: string, r: string, i: nat)
  {
    && i + |r| <= |s|
    && (forall j :: 0 <= j < |r| ==> r[j] == s[i + j])
    && (forall j :: 0 <= j < i ==> IsSpace(s[j]))
    && (forall j :: i + |r| <= j < |s| ==> IsSpace(s[j]))
  }

  /** Python's `str.strip()` without an argument. */
  function Strip(s: string): (r: string)
    ensures r == [] || (!IsSpace(r[0]) && !IsSpace(r[|r| - 1]))
    ensures exists i: nat :: StrippedAt(s, r, i)
  {
    StripShape(s);
    DropTrailingSpaces(DropSpaces(s))
  }

  /** Cutting the leading and then the trailing whitespace leaves `s`
      stripped on both sides, at the offset of its first non-whitespace
      character. */
  lemma StripShape(s: string)
    ensures var r := DropTrailingSpaces(DropSpaces(s));
      && (r == [] || (!IsSpace(r[0]) && !IsSpace(r[|r| - 1])))
      && StrippedAt(s, r, LeadingSpaces(s))
  {
    var n := LeadingSpaces(s);
    var t := s[n..];
    var m := TrailingStart(t);
    TrailingOfSuffix(s, n, m);
    StrippedSlice(s, n, m);
    if m > 0 {
      assert t[..m][0] == s[n] && t[..m][m - 1] == t[m - 1];
    }
  }

  /** Trailing blanks of a suffix are trailing blanks of the whole. */
  lemma TrailingOfSuffix(s: string, n: nat, m: nat)
    requires n <= |s| && m <= |s| - n
    requires forall j :: m <= j < |s[n..]| ==> IsSpace(s[n..][j])
    ensures forall j :: n + m <= j < |s| ==> IsSpace(s[j])
  {
    forall j | n + m <= j < |s| ensures IsSpace(s[j]) {
      assert s[j] == s[n..][j - n];
    }
  }

  /** The middle `s[n..][..m]` of a string blank outside it is stripped at `n`. */
  lemma StrippedSlice(s: string, n: nat, m: nat)
    requires n + m <= |s|
    requires forall j :: 0 <= j < n ==> IsSpace(s[j])
    requires forall j :: n + m <= j < |s| ==> IsSpace(s[j])
    ensures StrippedAt(s, s[n..][..m], n)
  {
  }

  /** The non-whitespace characters of `s`, in order. */
  function NonSpace(s: string): string
  {
    if s == [] then []
    else (if IsSpace(s[0]) then [] else [s[0]]) + NonSpace(s[1..])
  }

  function Concat(ws: seq<string>): string
  {
    if ws == [] then [] else ws[0] + Concat(ws[1..])
  }

  /** `sep.join(parts)` is the parts with one separator between each two. */
  lemma {:induction false} JoinLength(sep: string, parts: seq<string>)
    requires parts != []
    ensures |Join(sep, parts)| == |Concat(parts)| + (|parts| - 1) * |sep|
  {
    if |parts| > 1 {
      JoinLength(sep, parts[1..]);
    } else {
      assert Concat(parts) == parts[0] + Concat([]);
    }
  }

  /** JavaScript's `startsWith` and Python's `startswith`. */
  predicate StartsWith(s: string, prefix: string)
  {
    |prefix| <= |s| && s[..|prefix|] == prefix
  }

  /** `s` starts with `prefix` exactly when it is `prefix` followed by the
      rest of `s`. */
  lemma StartsWithShape(s: string, prefix: string)
    ensures StartsWith(s, prefix) <==> |prefix| <= |s| && s == prefix + s[|prefix|..]
  {
    if |prefix| <= |s| {
      SplitAt(s, |prefix|);
    }
  }

  /** Python's `pattern in s` for strings: `pattern` occurs in `s`. */
  predicate Contains(s: string, pattern: string)
    decreases |s|
  {
    StartsWith(s, pattern) || (s != [] && Contains(s[1..], pattern))
  }

  /** `pattern in s` holds exactly when `pattern` occurs at some index. */
  lemma {:induction false} ContainsOccurs(s: string, pattern: string)
    ensures Contains(s, pattern) <==> exists i: nat :: OccursAt(s, pattern, i)
    decreases |s|
  {
    OccursAtStart(s, pattern);
    if s != [] {
      ContainsOccurs(s[1..], pattern);
      OccursShift(s, pattern);
      if exists i: nat :: OccursAt(s, pattern, i) {
        var i: nat :| OccursAt(s, pattern, i);
        if i == 0 {
          assert StartsWith(s, pattern);
        } else {
          assert exists j: nat :: 1 <= j && OccursAt(s, pattern, j);
        }
      }
    } else if exists i: nat :: OccursAt(s, pattern, i) {
      var i: nat :| OccursAt(s, pattern, i);
      assert i == 0;
    }
  }

  /** `pattern` occurs in `s` starting at index `i`. */
  predicate OccursAt(s: string, pattern: string, i: nat)
  {
    i + |pattern| <= |s| && s[i..i + |pattern|] == pattern
  }

  lemma OccursAtStart(s: string, pattern: string)
    ensures OccursAt(s, pattern, 0) <==> StartsWith(s, pattern)
  {
  }

  /** Occurrences in `s[1..]` are the occurrences in `s` after index 0. */
  lemma OccursShift(s: string, pattern: string)
    requires s != []
    ensures (exists i: nat :: OccursAt(s[1..], pattern, i)) <==> (exists i: nat :: 1 <= i && OccursAt(s, pattern, i))
  {
    forall i: nat | OccursAt(s[1..], pattern, i) ensures OccursAt(s, pattern, i + 1) {
      assert s[1..][i..i + |pattern|] == s[i + 1..i + 1 + |pattern|];
    }
    forall i: nat | 1 <= i && OccursAt(s, pattern, i) ensures OccursAt(s[1..], pattern, i - 1) {
      assert s[1..][i - 1..i - 1 + |pattern|] == s[i..i + |pattern|];
    }
  }

  function LowerChar(c: char): char
  {
    if 'A' <= c <= 'Z' then (c as int + 32) as char else c
  }

  predicate NoUpper(s: string)
  {
    forall i :: 0 <= i < |s| ==> !('A' <= s[i] <= 'Z')
  }

  /** `str.lower()` on the ASCII letters. */
  function Lower(s: string): (r: string)
    ensures |r| == |s|
    ensures forall i :: 0 <= i < |s| ==> r[i] == LowerChar(s[i])
  {
    if s == [] then [] else [LowerChar(s[0])] + Lower(s[1..])
  }

  // ---------------------------------------------------------------------
  // Lemmas about splitting and joining

  lemma SplitSkipsLeadingSpaces(s: string)
    ensures Split(s) == Split(DropSpaces(s))
  {
    var t := DropSpaces(s);
    assert DropSpaces(t) == t;
  }

  lemma {:induction false} DropSpacesOfSpacePrefix(c: char, rest: string)
    requires IsSpace(c)
    ensures DropSpaces([c] + rest) == DropSpaces(rest)
  {
    assert ([c] + rest)[1..] == rest;
  }

  lemma {:induction false} TakeWordOfWord(w: string, rest: string)
    requires NoSpace(w)
    requires rest == [] || IsSpace(rest[0])
    ensures TakeWord(w + rest) == w
  {
    if w != [] {
      assert (w + rest)[0] == w[0];
      assert (w + rest)[1..] == w[1..] + rest;
      TakeWordOfWord(w[1..], rest);
    } else {
      assert w + rest == rest;
    }
  }

  lemma SplitOfWord(w: string)
    requires w != [] && NoSpace(w)
    ensures Split(w) == [w]
  {
    assert DropSpaces(w) == w;
    TakeWordOfWord(w, []);
    assert w + [] == w;
    assert w[|w|..] == [];
  }

  /** A word followed by a space and a split-able rest splits into the word
      and the rest's words. */
  lemma SplitOfWordSpace(w: string, rest: string)
    requires w != [] && NoSpace(w)
    ensures Split(w + " " + rest) == [w] + Split(rest)
  {
    var tail := " " + rest;
    assert tail[0] == ' ';
    SplitOfWordThen(w, tail);
    SplitOfSpacePrefix(' ', rest);
    assert w + " " + rest == w + tail;
  }

  /** A word followed by whitespace splits into the word and what follows. */
  lemma SplitOfWordThen(w: string, tail: string)
    requires w != [] && NoSpace(w)
    requires tail != [] && IsSpace(tail[0])
    ensures Split(w + tail) == [w] + Split(tail)
  {
    var s := w + tail;
    assert s[0] == w[0];
    assert LeadingSpaces(s) == 0;
    TakeWordOfWord(w, tail);
    assert s[|w|..] == tail;
  }

  /** Leading whitespace does not change the split. */
  lemma SplitOfSpacePrefix(c: char, rest: string)
    requires IsSpace(c)
    ensures Split([c] + rest) == Split(rest)
  {
    DropSpacesOfSpacePrefix(c, rest);
    SplitSkipsLeadingSpaces([c] + rest);
    SplitSkipsLeadingSpaces(rest);
  }

  /** Joining valid words with one space and splitting again gives the words
      back. */
  lemma JoinCons(w: string, rest: seq<string>)
    requires rest != []
    ensures Join(" ", [w] + rest) == w + " " + Join(" ", rest)
  {
    assert ([w] + rest)[1..] == rest;
  }

  lemma {:induction false} SplitJoin(ws: seq<string>)
    requires ValidWords(ws)
    ensures Split(Join(" ", ws)) == ws
  {
    if ws == [] {
    } else if |ws| == 1 {
      SplitOfWord(ws[0]);
    } else {
      var w, rest := ws[0], ws[1..];
      assert ws == [w] + rest;
      assert ValidWords(rest);
      SplitJoin(rest);
      JoinCons(w, rest);
      SplitOfWordSpace(w, Join(" ", rest));
    }
  }

  lemma {:induction false} JoinOfValidWordsEnds(ws: seq<string>)
    requires ValidWords(ws) && ws != []
    ensures var j := Join(" ", ws); j != [] && !IsSpace(j[0]) && !IsSpace(j[|j| - 1])
  {
    if |ws| > 1 {
      assert ValidWords(ws[1..]);
      JoinOfValidWordsEnds(ws[1..]);
    }
  }

  /** Words joined by single spaces form a clean string. */
  lemma {:induction false} JoinIsClean(ws: seq<string>)
    requires ValidWords(ws)
    ensures IsClean(Join(" ", ws))
  {
    if |ws| > 1 {
      var w := ws[0];
      assert ValidWords(ws[1..]);
      var j := Join(" ", ws[1..]);
      JoinIsClean(ws[1..]);
      JoinOfValidWordsEnds(ws[1..]);
      var s := w + " " + j;
      assert Join(" ", ws) == s;
      forall i | 0 <= i < |w| ensures !IsSpace(s[i]) {
        assert s[i] == w[i];
      }
      forall i | |w| <= i < |s| && IsSpace(s[i])
        ensures s[i] == ' ' && 0 < i < |s| - 1 && !IsSpace(s[i - 1]) && !IsSpace(s[i + 1])
      {
        if i == |w| {
          assert s[i - 1] == w[|w| - 1];
          assert s[i + 1] == j[0];
        } else {
          var k := i - |w| - 1;
          assert s[i] == j[k];
          if k > 0 { assert s[i - 1] == j[k - 1]; }
          assert s[i + 1] == j[k + 1];
        }
      }
    }
  }

  lemma {:induction false} CleanSuffixIsClean(s: string, k: nat)
    requires IsClean(s) && k <= |s|
    requires k > 0 ==> IsSpace(s[k - 1])
    ensures IsClean(s[k..])
  {
    var t := s[k..];
    assert t != [] && k > 0 ==> !IsSpace(t[0]) by {
      if t != [] && k > 0 { assert t[0] == s[k]; }
    }
    forall i | 0 <= i < |t| && IsSpace(t[i])
      ensures t[i] == ' ' && 0 < i < |t| - 1 && !IsSpace(t[i - 1]) && !IsSpace(t[i + 1])
    {
      assert t[i] == s[k + i];
      assert i > 0 ==> t[i - 1] == s[k + i - 1];
      assert t[i + 1] == s[k + i + 1];
    }
  }

  /** A clean string that is not a single word is a word, one space and a
      clean, non-empty rest. */
  lemma CleanSplit(s: string) returns (w: string, rest: string)
    requires IsClean(s) && s != [] && |TakeWord(s)| < |s|
    ensures w != [] && NoSpace(w)
    ensures s == w + " " + rest && IsClean(rest) && rest != [] && !IsSpace(rest[0])
  {
    w := TakeWord(s);
    assert !IsSpace(s[0]);
    assert s[|w|] == ' ' && |w| + 1 < |s| && !IsSpace(s[|w| + 1]);
    rest := s[|w| + 1..];
    assert s == w + " " + rest;
    CleanSuffixIsClean(s, |w| + 1);
  }

  lemma SplitNonEmpty(s: string)
    requires s != [] && !IsSpace(s[0])
    ensures Split(s) != []
  {
    assert DropSpaces(s) == s;
  }

  /** A clean string is its own normalisation. */
  lemma {:induction false} JoinSplitOfClean(s: string)
    requires IsClean(s)
    ensures Join(" ", Split(s)) == s
    decreases |s|
  {
    if s != [] {
      if |TakeWord(s)| == |s| {
        assert TakeWord(s) == s;
        assert !IsSpace(s[0]);
        SplitOfWord(s);
      } else {
        var w, rest := CleanSplit(s);
        SplitOfWordSpace(w, rest);
        JoinSplitOfClean(rest);
        SplitNonEmpty(rest);
        JoinCons(w, Split(rest));
      }
    }
  }

  // ---------------------------------------------------------------------
  // Lemmas about the non-whitespace characters

  lemma {:induction false} NonSpaceAppend(a: string, b: string)
    ensures NonSpace(a + b) == NonSpace(a) + NonSpace(b)
  {
    if a != [] {
      assert (a + b)[0] == a[0];
      assert (a + b)[1..] == a[1..] + b;
      NonSpaceAppend(a[1..], b);
    } else {
      assert a + b == b;
    }
  }

  lemma {:induction false} NonSpaceOfAllSpace(a: string)
    requires AllSpace(a)
    ensures NonSpace(a) == []
  {
    if a != [] {
      NonSpaceOfAllSpace(a[1..]);
    }
  }

  lemma {:induction false} NonSpaceOfWord(w: string)
    requires NoSpace(w)
    ensures NonSpace(w) == w
  {
    if w != [] {
      NonSpaceOfWord(w[1..]);
      assert w == [w[0]] + w[1..];
    }
  }

  lemma ConcatCons(w: string, ws: seq<string>)
    ensures Concat([w] + ws) == w + Concat(ws)
  {
    assert ([w] + ws)[1..] == ws;
  }

  /** The first step of splitting: leading whitespace, a word, and the rest
      that is split further. */
  lemma SplitStep(s: string) returns (lead: string, w: string, rest: string)
    requires DropSpaces(s) != []
    ensures s == lead + (w + rest) && AllSpace(lead) && w != [] && NoSpace(w) && |rest| < |s|
    ensures rest == [] || IsSpace(rest[0])
    ensures Split(s) == [w] + Split(rest)
  {
    var n := LeadingSpaces(s);
    var t := s[n..];
    lead := s[..n];
    w := TakeWord(t);
    assert w != [] by { assert !IsSpace(t[0]); }
    rest := t[|w|..];
    SplitAt(s, n);
    SplitAt(t, |w|);
  }

  lemma SplitAt(s: string, i: nat)
    requires i <= |s|
    ensures s == s[..i] + s[i..]
  {
  }

  /** Whitespace in front adds exactly its length to the leading run. */
  lemma {:induction false} LeadingSpacesAppend(p: string, x: string)
    requires AllSpace(p)
    ensures LeadingSpaces(p + x) == |p| + LeadingSpaces(x)
  {
    if p != [] {
      var q := p[1..];
      assert AllSpace(q) by {
        forall i | 0 <= i < |q| ensures IsSpace(q[i]) {
          assert q[i] == p[i + 1];
        }
      }
      assert (p + x)[0] == p[0];
      assert (p + x)[1..] == q + x;
      LeadingSpacesAppend(q, x);
    } else {
      assert p + x == x;
    }
  }

  /** Leading whitespace of any length does not change the split. */
  lemma SplitOfSpacesThen(p: string, x: string)
    requires AllSpace(p)
    ensures Split(p + x) == Split(x)
  {
    DropSpacesOfSpaces(p, x);
    SplitSkipsLeadingSpaces(p + x);
    SplitSkipsLeadingSpaces(x);
  }

  lemma DropSpacesOfSpaces(p: string, x: string)
    requires AllSpace(p)
    ensures DropSpaces(p + x) == DropSpaces(x)
  {
    LeadingSpacesAppend(p, x);
    var n := LeadingSpaces(x);
    assert (p + x)[|p| + n..] == x[n..];
  }

  /** Whitespace, a word, and then whitespace or nothing split into that
      word and the split of what follows. */
  lemma SplitLeadWord(lead: string, w: string, x: string)
    requires AllSpace(lead) && w != [] && NoSpace(w)
    requires x != [] && IsSpace(x[0])
    ensures Split(lead + (w + x)) == [w] + Split(x)
  {
    SplitOfSpacesThen(lead, w + x);
    SplitOfWordThen(w, x);
  }

  /** `str.split()`'s separation rule: a non-empty run of whitespace between
      two strings separates their words, whatever the run is made of. */
  lemma {:induction false} SplitSeparated(a: string, sp: string, b: string)
    requires sp != [] && AllSpace(sp)
    ensures Split(a + sp + b) == Split(a) + Split(b)
    decreases |a|
  {
    if DropSpaces(a) == [] {
      SplitSeparatedBase(a, sp, b);
    } else {
      var lead, w, rest := SplitStep(a);
      SplitSeparated(rest, sp, b);
      SplitSeparatedStep(a, sp, b, lead, w, rest);
    }
  }

  /** Whitespace only before the run: the words are those after it. */
  lemma SplitSeparatedBase(a: string, sp: string, b: string)
    requires DropSpaces(a) == [] && AllSpace(sp)
    ensures Split(a + sp + b) == Split(a) + Split(b)
  {
    assert Split(a) == [];
    assert AllSpace(a + sp) by {
      forall i | 0 <= i < |a + sp| ensures IsSpace((a + sp)[i]) {
        if i >= |a| { assert (a + sp)[i] == sp[i - |a|]; }
      }
    }
    SplitOfSpacesThen(a + sp, b);
    assert [] + Split(b) == Split(b);
  }

  /** A first word in front: it heads both sides. */
  lemma SplitSeparatedStep(a: string, sp: string, b: string, lead: string, w: string, rest: string)
    requires sp != [] && AllSpace(sp)
    requires a == lead + (w + rest) && AllSpace(lead) && w != [] && NoSpace(w)
    requires rest == [] || IsSpace(rest[0])
    requires Split(a) == [w] + Split(rest)
    requires Split(rest + sp + b) == Split(rest) + Split(b)
    ensures Split(a + sp + b) == Split(a) + Split(b)
  {
    var x := rest + sp + b;
    assert x[0] == if rest == [] then sp[0] else rest[0];
    AppendRegroup(lead, w, rest, sp, b);
    SplitLeadWord(lead, w, x);
    SeqAssoc([w], Split(rest), Split(b));
  }

  lemma SeqAssoc<T>(xs: seq<T>, ys: seq<T>, zs: seq<T>)
    ensures xs + (ys + zs) == (xs + ys) + zs
  {
  }

  lemma AppendRegroup(lead: string, w: string, rest: string, sp: string, b: string)
    ensures lead + (w + rest) + sp + b == lead + (w + (rest + sp + b))
  {
  }

  /** Splitting drops exactly the whitespace. */
  lemma {:induction false} ConcatSplit(s: string)
    ensures Concat(Split(s)) == NonSpace(s)
    decreases |s|
  {
    if DropSpaces(s) == [] {
      NonSpaceOfAllSpace(s);
    } else {
      var lead, w, rest := SplitStep(s);
      ConcatSplit(rest);
      ConcatCons(w, Split(rest));
      NonSpaceAppend(lead, w + rest);
      NonSpaceAppend(w, rest);
      NonSpaceOfAllSpace(lead);
      NonSpaceOfWord(w);
    }
  }

  /** Joining words with a space adds only whitespace. */
  lemma {:induction false} NonSpaceOfJoin(ws: seq<string>)
    requires ValidWords(ws)
    ensures NonSpace(Join(" ", ws)) == Concat(ws)
  {
    if ws == [] {
    } else if |ws| == 1 {
      NonSpaceOfWord(ws[0]);
      assert Concat(ws) == ws[0] + Concat([]);
    } else {
      assert ValidWords(ws[1..]);
      NonSpaceOfJoin(ws[1..]);
      NonSpaceOfWord(ws[0]);
      NonSpaceAppend(ws[0] + " ", Join(" ", ws[1..]));
      NonSpaceAppend(ws[0], " ");
      assert NonSpace(" ") == [];
    }
  }

  // ---------------------------------------------------------------------
  // Lemmas about strip, lower and substrings

  /** Stripping twice strips nothing more. */
  lemma StripIdempotent(s: string)
    ensures Strip(Strip(s)) == Strip(s)
  {
    StripOfTrimmed(Strip(s));
  }

  /** A string with no whitespace at either end is its own strip. */
  lemma StripOfTrimmed(r: string)
    requires r == [] || (!IsSpace(r[0]) && !IsSpace(r[|r| - 1]))
    ensures Strip(r) == r
  {
    assert LeadingSpaces(r) == 0;
    assert r[0..] == r;
    assert TrailingStart(r) == |r|;
    assert r[..|r|] == r;
  }

  lemma LowerOfNoUpper(s: string)
    requires NoUpper(s)
    ensures Lower(s) == s
  {
    assert forall i :: 0 <= i < |s| ==> Lower(s)[i] == s[i];
  }

  /** Lowercasing keeps an already-lowercase pattern findable. */
  lemma {:induction false} ContainsLower(s: string, pattern: string)
    requires Lower(pattern) == pattern
    requires Contains(s, pattern)
    ensures Contains(Lower(s), pattern)
    decreases |s|
  {
    if StartsWith(s, pattern) {
      var n := |pattern|;
      assert Lower(s)[..n] == Lower(s[..n]);
    } else {
      assert Lower(s)[1..] == Lower(s[1..]);
      ContainsLower(s[1..], pattern);
    }
  }
}
