/**
 The parts of Go's `strings` package that the parsers and the reference
 resolvers are written with, plus the facts about them that round trips need.
 */
module GoStrings {

  datatype Option<+T> = None | Some(value: T) {
    function GetOr(default: T): T {
      if Some? then value else default
    }
  }

  // ---- whitespace ------------------------------------------------------

  /** unicode.IsSpace. */
  predicate IsSpace(c: char) {
    var n := c as int;
    || 0x09 <= n <= 0x0D || n == 0x20 || n == 0x85 || n == 0xA0 || n == 0x1680
    || 0x2000 <= n <= 0x200A || n == 0x2028 || n == 0x2029 || n == 0x202F
    || n == 0x205F || n == 0x3000
  }

  predicate AllSpace(s: string) {
    forall i | 0 <= i < |s| :: IsSpace(s[i])
  }

  /** Neither end of `s` is a space, so trimming leaves it alone. */
  predicate Trimmed(s: string) {
    s != "" ==> !IsSpace(s[0]) && !IsSpace(s[|s| - 1])
  }

  function TrimLeft(s: string): string {
    if s != "" && IsSpace(s[0]) then TrimLeft(s[1..]) else s
  }

  function TrimRight(s: string): string {
    if s != "" && IsSpace(s[|s| - 1]) then TrimRight(s[..|s| - 1]) else s
  }

  /** strings.TrimSpace. */
  function TrimSpace(s: string): string {
    TrimRight(TrimLeft(s))
  }

  lemma {:induction false} TrimLeftDropsPad(pad: string, s: string)
    requires AllSpace(pad)
    ensures TrimLeft(pad + s) == TrimLeft(s)
  {
    if pad == "" {
      assert pad + s == s;
    } else {
      assert (pad + s)[1..] == pad[1..] + s;
      TrimLeftDropsPad(pad[1..], s);
    }
  }

  lemma {:induction false} TrimRightDropsPad(s: string, pad: string)
    requires AllSpace(pad)
    ensures TrimRight(s + pad) == TrimRight(s)
  {
    if pad == "" {
      assert s + pad == s;
    } else {
      assert (s + pad)[..|s + pad| - 1] == s + pad[..|pad| - 1];
      TrimRightDropsPad(s, pad[..|pad| - 1]);
    }
  }

  lemma TrimSpaceDropsPads(before: string, s: string, after: string)
    requires AllSpace(before) && AllSpace(after) && Trimmed(s)
    ensures TrimSpace(before + s + after) == s
  {
    assert before + s + after == before + (s + after);
    TrimLeftDropsPad(before, s + after);
    if s == "" {
      assert s + after == after + "";
      TrimLeftDropsPad(after, "");
    } else {
      assert TrimLeft(s + after) == s + after;
      TrimRightDropsPad(s, after);
    }
  }

  lemma {:induction false} TrimLeftSuffix(s: string) returns (k: nat)
    ensures k <= |s| && TrimLeft(s) == s[k..] && AllSpace(s[..k])
    ensures k < |s| ==> !IsSpace(s[k])
  {
    k := 0;
    if s != "" && IsSpace(s[0]) {
      var j := TrimLeftSuffix(s[1..]);
      k := j + 1;
      forall i | 0 <= i < k ensures IsSpace(s[i]) {
        if i > 0 { assert s[i] == s[1..][..j][i - 1]; }
      }
    }
  }

  lemma {:induction false} TrimRightPrefix(s: string) returns (k: nat)
    ensures k <= |s| && TrimRight(s) == s[..k] && AllSpace(s[k..])
    ensures k > 0 ==> !IsSpace(s[k - 1])
  {
    k := |s|;
    if s != "" && IsSpace(s[|s| - 1]) {
      var t := s[..|s| - 1];
      k := TrimRightPrefix(t);
      forall i | k <= i < |s| ensures IsSpace(s[i]) {
        if i < |t| { assert s[i] == t[k..][i - k]; }
      }
    }
  }

  /** What TrimSpace returns is trimmed, and is the input without a pad on either side. */
  lemma TrimSpaceShape(s: string) returns (before: string, after: string)
    ensures Trimmed(TrimSpace(s))
    ensures AllSpace(before) && AllSpace(after) && s == before + TrimSpace(s) + after
  {
    var k := TrimLeftSuffix(s);
    var l := TrimLeft(s);
    var j := TrimRightPrefix(l);
    before, after := s[..k], l[j..];
  }

  lemma TrimSpaceKeepsChars(s: string, c: char)
    ensures c in TrimSpace(s) ==> c in s
  {
    var before, after := TrimSpaceShape(s);
  }

  // ---- splitting and joining -------------------------------------------

  function IndexOf(s: string, c: char): (i: nat)
    requires c in s
    ensures i < |s| && s[i] == c && c !in s[..i]
  {
    if s[0] == c then 0 else 1 + IndexOf(s[1..], c)
  }

  /** The first occurrence is where a separator-free prefix ends. */
  lemma {:induction false} IndexOfAfterPrefix(pre: string, c: char, rest: string)
    requires c !in pre
    ensures c in pre + [c] + rest && IndexOf(pre + [c] + rest, c) == |pre|
  {
    var s := pre + [c] + rest;
    assert s[|pre|] == c;
    if pre != "" {
      assert s[1..] == pre[1..] + [c] + rest;
      IndexOfAfterPrefix(pre[1..], c, rest);
    }
  }

  /** strings.Split with a one-character separator. */
  function Split(s: string, sep: char): (parts: seq<string>)
    ensures |parts| >= 1
    decreases |s|
  {
    if sep in s then
      var i := IndexOf(s, sep);
      [s[..i]] + Split(s[i + 1..], sep)
    else [s]
  }

  /** strings.Join with a one-character separator. */
  function Join(parts: seq<string>, sep: char): string {
    if |parts| == 0 then ""
    else if |parts| == 1 then parts[0]
    else parts[0] + [sep] + Join(parts[1..], sep)
  }

  lemma SplitAt(pre: string, sep: char, rest: string)
    requires sep !in pre
    ensures Split(pre + [sep] + rest, sep) == [pre] + Split(rest, sep)
  {
    IndexOfAfterPrefix(pre, sep, rest);
    var s := pre + [sep] + rest;
    assert s[..|pre|] == pre && s[|pre| + 1..] == rest;
  }

  lemma {:induction false} SplitJoin(parts: seq<string>, sep: char)
    requires |parts| >= 1
    requires forall i | 0 <= i < |parts| :: sep !in parts[i]
    ensures Split(Join(parts, sep), sep) == parts
  {
    if |parts| > 1 {
      SplitJoin(parts[1..], sep);
      SplitAt(parts[0], sep, Join(parts[1..], sep));
      assert parts == [parts[0]] + parts[1..];
    } else {
      assert parts == [parts[0]];
    }
  }

  lemma {:induction false} JoinSplit(s: string, sep: char)
    ensures Join(Split(s, sep), sep) == s
    decreases |s|
  {
    SplitOnce(s, sep);
    hide Split, Join, IndexOf;
    if sep in s {
      var i := IndexOf(s, sep);
      JoinSplit(s[i + 1..], sep);
      JoinFirst(s[..i], Split(s[i + 1..], sep), sep);
      Around(s, i);
    } else {
      JoinOne(s, sep);
    }
  }

  lemma SplitOnce(s: string, sep: char)
    ensures Split(s, sep) == if sep in s then [s[..IndexOf(s, sep)]] + Split(s[IndexOf(s, sep) + 1..], sep) else [s]
  {
    hide IndexOf;
  }

  lemma Around(s: string, i: nat)
    requires i < |s|
    ensures s == s[..i] + [s[i]] + s[i + 1..]
  {
  }

  lemma JoinOne(s: string, sep: char)
    ensures Join([s], sep) == s
  {
  }

  lemma JoinFirst(first: string, rest: seq<string>, sep: char)
    requires rest != []
    ensures Join([first] + rest, sep) == first + [sep] + Join(rest, sep)
  {
    assert ([first] + rest)[1..] == rest;
  }

  lemma {:induction false} SplitPartsFree(s: string, sep: char)
    ensures forall i | 0 <= i < |Split(s, sep)| :: sep !in Split(s, sep)[i]
    decreases |s|
  {
    if sep in s {
      SplitPartsFree(s[IndexOf(s, sep) + 1..], sep);
    }
  }

  /** strings.Cut around the first `sep`; None when it does not occur. */
  function Cut(s: string, sep: char): Option<(string, string)> {
    if sep in s then
      var i := IndexOf(s, sep);
      Some((s[..i], s[i + 1..]))
    else None
  }

  lemma CutAt(pre: string, sep: char, rest: string)
    requires sep !in pre
    ensures Cut(pre + [sep] + rest, sep) == Some((pre, rest))
  {
    IndexOfAfterPrefix(pre, sep, rest);
    var s := pre + [sep] + rest;
    assert s[..|pre|] == pre && s[|pre| + 1..] == rest;
  }

  lemma CutShape(s: string, sep: char)
    ensures sep in s ==>
      Cut(s, sep).Some? && sep !in Cut(s, sep).value.0 && s == Cut(s, sep).value.0 + [sep] + Cut(s, sep).value.1
  {
  }

  /** strings.HasPrefix. */
  predicate HasPrefix(s: string, prefix: string) {
    prefix <= s
  }

  /** strings.TrimPrefix. */
  function TrimPrefix(s: string, prefix: string): string {
    if prefix <= s then s[|prefix|..] else s
  }

  /** strings.CutPrefix; None is Go's ok == false. */
  function CutPrefix(s: string, prefix: string): Option<string> {
    if prefix <= s then Some(s[|prefix|..]) else None
  }

  lemma CutPrefixOf(prefix: string, rest: string)
    ensures CutPrefix(prefix + rest, prefix) == Some(rest)
  {
    assert prefix <= prefix + rest;
    assert (prefix + rest)[|prefix|..] == rest;
  }

  // ---- case and containment --------------------------------------------

  /**
   unicode.ToLower, as far as its results are compared with ASCII words: the
   ASCII capitals and the two other code points whose lower case is an ASCII
   letter. Every remaining code point lowers to a non-ASCII one, as it does here.
   */
  function LowerChar(c: char): char {
    if 'A' <= c <= 'Z' then (c as int + 32) as char
    else if c as int == 0x212A then 'k'
    else if c as int == 0x130 then 'i'
    else c
  }

  function ToLower(s: string): (r: string)
    ensures |r| == |s| && forall i | 0 <= i < |s| :: r[i] == LowerChar(s[i])
  {
    seq(|s|, i requires 0 <= i < |s| => LowerChar(s[i]))
  }

  /** strings.Contains. */
  predicate Contains(s: string, sub: string) {
    exists i | 0 <= i <= |s| :: HasPrefix(s[i..], sub)
  }

  /** `c` is the letter `l` in either case, or one of the two code points that Go lowers to it. */
  predicate IsLetter(c: char, l: char) {
    || c == l
    || ('a' <= l <= 'z' && c as int == l as int - 32)
    || (l == 'k' && c as int == 0x212A)
    || (l == 'i' && c as int == 0x130)
  }

  /** The word, in whatever letter case, is in `s` from position `i` on. */
  predicate SpelledAt(s: string, i: nat, word: string) {
    i + |word| <= |s| && forall j | 0 <= j < |word| :: IsLetter(s[i + j], word[j])
  }

  predicate IsWord(s: string, word: string) {
    |s| == |word| && SpelledAt(s, 0, word)
  }

  predicate Mentions(s: string, word: string) {
    exists i | 0 <= i <= |s| :: SpelledAt(s, i, word)
  }

  predicate LowerCase(word: string) {
    forall i | 0 <= i < |word| :: ' ' <= word[i] <= '~' && !('A' <= word[i] <= 'Z')
  }

  lemma LowerExactly(s: string, word: string)
    requires LowerCase(word)
    ensures ToLower(s) == word <==> IsWord(s, word)
  {
    if |s| == |word| {
      SpelledExactly(s, 0, word);
      assert s[0..] == s && ToLower(s)[0..] == ToLower(s);
      hide SpelledAt, ToLower;
    }
  }

  lemma SpelledExactly(s: string, i: nat, word: string)
    requires LowerCase(word) && i <= |s|
    ensures HasPrefix(ToLower(s)[i..], word) <==> SpelledAt(s, i, word)
  {
    forall j | 0 <= j < |word| && i + j < |s|
      ensures ToLower(s)[i..][j] == word[j] <==> IsLetter(s[i + j], word[j])
    {
      assert ToLower(s)[i..][j] == LowerChar(s[i + j]);
    }
    hide IsLetter, LowerChar;
  }

  lemma ContainsExactly(s: string, word: string)
    requires LowerCase(word)
    ensures Contains(ToLower(s), word) <==> Mentions(s, word)
  {
    forall i: nat | i <= |s|
      ensures HasPrefix(ToLower(s)[i..], word) <==> SpelledAt(s, i, word)
    {
      SpelledExactly(s, i, word);
    }
    hide HasPrefix, IsLetter, ToLower;
  }

  /** Go's `<` on strings: lexicographic, a proper prefix first. */
  predicate Less(a: string, b: string) {
    b != "" && (a == "" || a[0] < b[0] || (a[0] == b[0] && Less(a[1..], b[1..])))
  }

  /** `a` ends, or has the smaller character, where the two part. */
  predicate PartsAt(a: string, b: string, i: nat) {
    i <= |a| && i < |b| && a[..i] == b[..i] && (i == |a| || a[i] < b[i])
  }

  lemma {:induction false} LessExactly(a: string, b: string)
    ensures Less(a, b) <==> exists i: nat :: PartsAt(a, b, i)
  {
    if a == "" || b == "" || a[0] != b[0] {
      assert PartsAt(a, b, 0) <==> Less(a, b);
    } else {
      LessExactly(a[1..], b[1..]);
      forall i: nat
        ensures PartsAt(a, b, i + 1) <==> PartsAt(a[1..], b[1..], i)
      {
        if i <= |a| - 1 && i < |b| - 1 {
          assert a[..i + 1] == [a[0]] + a[1..][..i] && b[..i + 1] == [b[0]] + b[1..][..i];
          assert a[1..][..i] == a[..i + 1][1..] && b[1..][..i] == b[..i + 1][1..];
        }
      }
      if i: nat :| PartsAt(a, b, i) {
        assert i > 0 && PartsAt(a, b, (i - 1) + 1);
        assert PartsAt(a[1..], b[1..], i - 1);
      }
      if i: nat :| PartsAt(a[1..], b[1..], i) {
        assert PartsAt(a, b, i + 1);
      }
    }
  }

  lemma {:induction false} LessTotal(a: string, b: string)
    ensures a == b || Less(a, b) || Less(b, a)
    ensures !(Less(a, b) && Less(b, a)) && !Less(a, a)
  {
    if a != "" && b != "" {
      LessTotal(a[1..], b[1..]);
      LessTotal(a[1..], a[1..]);
      assert a == [a[0]] + a[1..] && b == [b[0]] + b[1..];
    } else if a != "" {
      LessTotal(a[1..], a[1..]);
    }
  }

  lemma {:induction false} LessTransitive(a: string, b: string, c: string)
    requires Less(a, b) && Less(b, c)
    ensures Less(a, c)
  {
    if a != "" && b != "" && c != "" && a[0] == b[0] == c[0] {
      LessTransitive(a[1..], b[1..], c[1..]);
    }
  }

  // ---- sorted string slices --------------------------------------------

  predicate Sorted(s: seq<string>) {
    forall i, j | 0 <= i < j < |s| :: !Less(s[j], s[i])
  }

  /** Insertion into a sorted slice; the building block of SortStrings. */
  function Insert(x: string, s: seq<string>): (r: seq<string>)
    ensures multiset(r) == multiset(s) + multiset{x}
    ensures |r| == |s| + 1
  {
    if s == [] then [x]
    else if Less(s[0], x) then
      assert s == [s[0]] + s[1..];
      [s[0]] + Insert(x, s[1..])
    else [x] + s
  }

  /** sort.Strings: the sorted rearrangement, which is unique (SortUnique). */
  function SortStrings(s: seq<string>): (r: seq<string>)
    ensures multiset(r) == multiset(s)
  {
    if s == [] then []
    else
      assert s == [s[0]] + s[1..];
      Insert(s[0], SortStrings(s[1..]))
  }

  lemma {:induction false} InsertSorted(x: string, s: seq<string>)
    requires Sorted(s)
    ensures Sorted(Insert(x, s))
  {
    if s != [] && Less(s[0], x) {
      InsertSorted(x, s[1..]);
      var r := Insert(x, s[1..]);
      forall j | 0 <= j < |r|
        ensures !Less(r[j], s[0])
      {
        assert r[j] in multiset(r);
        LessTotal(s[0], x);
        if r[j] != x {
          assert r[j] in s[1..];
        }
      }
    } else {
      forall j | 0 <= j < |s|
        ensures !Less(s[j], x)
      {
        if Less(s[j], x) {
          LessTotal(s[0], x);
          LessTotal(s[j], s[0]);
          if j > 0 && Less(s[0], s[j]) { LessTransitive(s[0], s[j], x); }
        }
      }
    }
  }

  lemma {:induction false} SortStringsSorted(s: seq<string>)
    ensures Sorted(SortStrings(s))
  {
    if s != [] {
      SortStringsSorted(s[1..]);
      InsertSorted(s[0], SortStrings(s[1..]));
    }
  }

  lemma TailMultiset(a: seq<string>)
    requires a != []
    ensures a == [a[0]] + a[1..] && multiset(a[1..]) == multiset(a) - multiset{a[0]}
  {
    assert a == [a[0]] + a[1..];
  }

  lemma SortedHead(a: seq<string>, b: seq<string>)
    requires Sorted(a) && Sorted(b) && multiset(a) == multiset(b) && a != []
    ensures b != [] && a[0] == b[0]
  {
    assert a[0] in multiset(b);
    var j :| 0 <= j < |b| && b[j] == a[0];
    assert b[0] in multiset(a);
    var i :| 0 <= i < |a| && a[i] == b[0];
    LessTotal(a[0], b[0]);
  }

  /** Two sorted rearrangements of the same strings are the same slice. */
  lemma {:induction false} SortUnique(a: seq<string>, b: seq<string>)
    requires Sorted(a) && Sorted(b) && multiset(a) == multiset(b)
    ensures a == b
  {
    if a == [] {
      assert |b| == |multiset(b)| == |multiset(a)| == 0;
    } else {
      SortedHead(a, b);
      TailMultiset(a);
      TailMultiset(b);
      SortUnique(a[1..], b[1..]);
    }
  }
}
