/** Character classes and the handful of string operations the parsers use
    (Foundation's trimming, prefix tests, `components(separatedBy:)` and
    `joined(separator:)`). Characters are modelled as `char`; the whitespace
    classes are restricted to ASCII. */
module Text {

  /** `CharacterSet.whitespaces`, restricted to ASCII. */
  const Whitespaces: set<char> := {' ', '\t'}

  /** `CharacterSet.whitespacesAndNewlines`, restricted to ASCII. */
  const WhitespacesAndNewlines: set<char> := {' ', '\t', '\n', '\r', '\U{B}', '\U{C}'}

  predicate IsDigit(c: char) { '0' <= c <= '9' }

  /** `s.drop(while: { cs.contains($0) })` */
  function DropWhileIn(s: string, cs: set<char>): (r: string)
    ensures |r| <= |s|
  {
    if |s| > 0 && s[0] in cs then DropWhileIn(s[1..], cs) else s
  }

  /** Removes the longest suffix made of characters of `cs`. */
  function DropLastWhileIn(s: string, cs: set<char>): (r: string)
    ensures |r| <= |s|
  {
    if |s| > 0 && s[|s| - 1] in cs then DropLastWhileIn(s[..|s| - 1], cs) else s
  }

  lemma {:induction false} DropWhileInSpec(s: string, cs: set<char>)
    ensures var r := DropWhileIn(s, cs);
      && r == s[|s| - |r|..]
      && (r == [] || r[0] !in cs)
      && (forall i :: 0 <= i < |s| - |r| ==> s[i] in cs)
  {
    if |s| > 0 && s[0] in cs {
      DropWhileInSpec(s[1..], cs);
    }
  }

  lemma {:induction false} DropLastWhileInSpec(s: string, cs: set<char>)
    ensures var r := DropLastWhileIn(s, cs);
      && r == s[..|r|]
      && (r == [] || r[|r| - 1] !in cs)
      && (forall i :: |r| <= i < |s| ==> s[i] in cs)
  {
    if |s| > 0 && s[|s| - 1] in cs {
      DropLastWhileInSpec(s[..|s| - 1], cs);
    }
  }

  /** `s.trimmingCharacters(in: cs)` */
  function Trim(s: string, cs: set<char>): string
  {
    DropLastWhileIn(DropWhileIn(s, cs), cs)
  }

  /** True when every character of `s` belongs to `cs`. */
  predicate AllIn(s: string, cs: set<char>)
  {
    forall i :: 0 <= i < |s| ==> s[i] in cs
  }

  lemma TrimEmptyIffAllIn(s: string, cs: set<char>)
    ensures Trim(s, cs) == [] <==> AllIn(s, cs)
  {
    var d := DropWhileIn(s, cs);
    DropWhileInSpec(s, cs);
    DropLastWhileInSpec(d, cs);
    if d != [] {
      assert s[|s| - |d|] == d[0];
    }
  }

  lemma DropLastEmptyIffAllIn(s: string, cs: set<char>)
    ensures DropLastWhileIn(s, cs) == [] <==> AllIn(s, cs)
  {
    DropLastWhileInSpec(s, cs);
  }

  lemma TrimIsInfix(s: string, cs: set<char>)
    ensures exists a, b :: 0 <= a <= b <= |s| && Trim(s, cs) == s[a..b]
  {
    var d := DropWhileIn(s, cs);
    var t := DropLastWhileIn(d, cs);
    DropWhileInSpec(s, cs);
    DropLastWhileInSpec(d, cs);
    assert t == s[|s| - |d|..|s| - |d| + |t|];
  }

  /** A trim starts and ends outside the trimmed class. */
  lemma TrimEnds(s: string, cs: set<char>)
    ensures var t := Trim(s, cs); t == [] || (t[0] !in cs && t[|t| - 1] !in cs)
  {
    var d := DropWhileIn(s, cs);
    DropWhileInSpec(s, cs);
    DropLastWhileInSpec(d, cs);
    var t := Trim(s, cs);
    if t != [] {
      assert t[0] == d[0];
    }
  }

  /** A text that starts and ends outside the class is its own trim. */
  lemma TrimOfEnds(s: string, cs: set<char>)
    requires s == [] || (s[0] !in cs && s[|s| - 1] !in cs)
    ensures Trim(s, cs) == s
  {
  }

  /** `s.hasPrefix(p)` */
  predicate HasPrefix(s: string, p: string)
  {
    |p| <= |s| && s[..|p|] == p
  }

  /** Index of the first occurrence of `c`, or `|s|` when there is none. */
  function IndexOf(s: string, c: char): (r: nat)
    ensures r <= |s|
  {
    if |s| == 0 then 0
    else if s[0] == c then 0
    else 1 + IndexOf(s[1..], c)
  }

  lemma {:induction false} IndexOfSpec(s: string, c: char)
    ensures var r := IndexOf(s, c);
      && c !in s[..r]
      && (r < |s| ==> s[r] == c)
      && (r == |s| <==> c !in s)
  {
    if |s| > 0 && s[0] != c {
      IndexOfSpec(s[1..], c);
      assert s[..IndexOf(s, c)] == [s[0]] + s[1..][..IndexOf(s[1..], c)];
    }
  }

  /** The first position holding `c` is what `IndexOf` finds. */
  lemma {:induction false} IndexOfFirst(s: string, c: char, k: nat)
    requires k < |s| && s[k] == c && c !in s[..k]
    ensures IndexOf(s, c) == k
  {
    if k > 0 {
      assert s[..k][0] == s[0];
      assert s[1..][..k - 1] == s[..k][1..];
      IndexOfFirst(s[1..], c, k - 1);
    }
  }

  /** The number of leading copies of `c` in `s`. */
  function LeadingCount(s: string, c: char): (r: nat)
    ensures r <= |s|
    ensures forall i :: 0 <= i < r ==> s[i] == c
    ensures r < |s| ==> s[r] != c
  {
    if |s| > 0 && s[0] == c then 1 + LeadingCount(s[1..], c) else 0
  }

  /** `String(repeating: piece, count: n)` */
  function Repeat(piece: string, n: nat): (r: string)
    ensures |r| == n * |piece|
  {
    if n == 0 then [] else piece + Repeat(piece, n - 1)
  }

  lemma RepeatAt(c: char, n: nat, i: nat)
    requires i < n
    ensures Repeat([c], n)[i] == c
  {
    if i > 0 { RepeatAt(c, n - 1, i - 1); }
  }

  /** ASCII `lowercased()`. */
  function Lower(s: string): (r: string)
    ensures |r| == |s|
    ensures forall i :: 0 <= i < |s| ==> !('A' <= r[i] <= 'Z')
  {
    if |s| == 0 then []
    else [if 'A' <= s[0] <= 'Z' then (s[0] as int + 32) as char else s[0]] + Lower(s[1..])
  }

  /** `s.contains(sub)` */
  predicate Contains(s: string, sub: string)
  {
    exists i :: 0 <= i <= |s| - |sub| && OccursAt(s, sub, i)
  }

  predicate OccursAt(s: string, sub: string, i: int)
  {
    0 <= i <= |s| - |sub| && s[i..i + |sub|] == sub
  }

  /** A text lacking the first character of `sub` does not contain `sub`. */
  lemma NotContainsWithoutHead(s: string, sub: string)
    requires |sub| > 0 && sub[0] !in s
    ensures !Contains(s, sub)
  {
    forall i | 0 <= i <= |s| - |sub|
      ensures !OccursAt(s, sub, i)
    {
      assert s[i] in s;
      assert s[i..i + |sub|][0] == s[i];
    }
  }

  /** A text in which the first two characters of `sub` never appear side by
      side does not contain `sub`. */
  lemma NotContainsWithoutHeadPair(s: string, sub: string)
    requires |sub| >= 2
    requires forall j :: 0 <= j < |s| - 1 ==> !(s[j] == sub[0] && s[j + 1] == sub[1])
    ensures !Contains(s, sub)
  {
    forall i | 0 <= i <= |s| - |sub|
      ensures !OccursAt(s, sub, i)
    {
      assert s[i..i + |sub|][0] == s[i];
      assert s[i..i + |sub|][1] == s[i + 1];
    }
  }

  // ---------------------------------------------------------------------
  // components(separatedBy:) and joined(separator:)
  // ---------------------------------------------------------------------

  /** `s.components(separatedBy: [sep])`, which is also
      `s.split(separator: sep, omittingEmptySubsequences: false)`. */
  function Split(s: string, sep: char): (r: seq<string>)
    ensures |r| >= 1
    ensures forall k :: 0 <= k < |r| ==> sep !in r[k]
  {
    if |s| == 0 then [[]]
    else
      var rest := Split(s[1..], sep);
      if s[0] == sep then [[]] + rest else [[s[0]] + rest[0]] + rest[1..]
  }

  /** `parts.joined(separator: String(sep))` */
  function Join(parts: seq<string>, sep: char): string
  {
    if |parts| == 0 then []
    else if |parts| == 1 then parts[0]
    else parts[0] + [sep] + Join(parts[1..], sep)
  }

  lemma AppendAssoc<T>(a: seq<T>, b: seq<T>, c: seq<T>)
    ensures (a + b) + c == a + (b + c)
  {
  }

  lemma SliceSnoc<T>(s: seq<T>, a: nat, b: nat)
    requires a <= b < |s|
    ensures s[a..b + 1] == s[a..b] + [s[b]]
  {
  }

  /** A join begins with its first piece. */
  lemma {:induction false} JoinStartsWithFirst(parts: seq<string>, sep: char)
    requires |parts| >= 1
    ensures HasPrefix(Join(parts, sep), parts[0])
  {
    if |parts| > 1 {
      assert Join(parts, sep)[..|parts[0]|] == (parts[0] + [sep] + Join(parts[1..], sep))[..|parts[0]|];
    }
  }

  function CountChar(s: string, c: char): nat
  {
    if |s| == 0 then 0 else (if s[0] == c then 1 else 0) + CountChar(s[1..], c)
  }

  /** Joining the pieces of a split gives back the text. */
  lemma {:induction false} JoinSplit(s: string, sep: char)
    ensures Join(Split(s, sep), sep) == s
  {
    if |s| > 0 {
      var rest := Split(s[1..], sep);
      JoinSplit(s[1..], sep);
      if s[0] == sep {
        assert Split(s, sep) == [[]] + rest;
      } else {
        var r := Split(s, sep);
        if |rest| == 1 {
          assert r == [[s[0]] + rest[0]];
        } else {
          assert r[1..] == rest[1..];
          assert Join(rest, sep) == rest[0] + [sep] + Join(rest[1..], sep);
        }
      }
    }
  }

  /** There is one more piece than there are separators. */
  lemma {:induction false} SplitCount(s: string, sep: char)
    ensures |Split(s, sep)| == CountChar(s, sep) + 1
  {
    if |s| > 0 { SplitCount(s[1..], sep); }
  }

  lemma {:induction false} JoinConsLines(first: string, parts: seq<string>, sep: char)
    requires |parts| >= 1
    ensures Join([first] + parts, sep) == first + [sep] + Join(parts, sep)
  {
    assert ([first] + parts)[1..] == parts;
  }

  /** Splitting a join of separator-free pieces gives back the pieces. */
  lemma {:induction false} SplitJoin(parts: seq<string>, sep: char)
    requires |parts| >= 1
    requires forall k :: 0 <= k < |parts| ==> sep !in parts[k]
    ensures Split(Join(parts, sep), sep) == parts
  {
    if |parts| == 1 {
      SplitOfSepFree(parts[0], sep);
    } else {
      SplitJoin(parts[1..], sep);
      SplitPrefix(parts[0], Join(parts[1..], sep), sep);
      assert parts == [parts[0]] + parts[1..];
    }
  }

  lemma {:induction false} SplitOfSepFree(s: string, sep: char)
    requires sep !in s
    ensures Split(s, sep) == [s]
  {
    if |s| > 0 {
      SplitOfSepFree(s[1..], sep);
      assert [s[0]] + s[1..] == s;
    }
  }

  lemma {:induction false} SplitPrefix(a: string, b: string, sep: char)
    requires sep !in a
    ensures Split(a + [sep] + b, sep) == [a] + Split(b, sep)
  {
    if |a| == 0 {
      assert a + [sep] + b == [sep] + b;
      assert ([sep] + b)[1..] == b;
    } else {
      SplitPrefix(a[1..], b, sep);
      assert (a + [sep] + b)[1..] == a[1..] + [sep] + b;
      assert [a[0]] + a[1..] == a;
    }
  }
}
