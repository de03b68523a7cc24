/** Line-ending normalisation shared by the input adapters
    (Sources/UMAFCore/Inputs/TextNormalization.swift). */
module TextNormalization {
  import opened Text

  /** `s.replacingOccurrences(of: target, with: replacement)`: a left-to-right
      scan that replaces non-overlapping occurrences. */
  function ReplaceOccurrences(s: string, target: string, replacement: string): (r: string)
    requires |target| > 0
    decreases |s|
  {
    if |s| == 0 then []
    else if HasPrefix(s, target) then replacement + ReplaceOccurrences(s[|target|..], target, replacement)
    else [s[0]] + ReplaceOccurrences(s[1..], target, replacement)
  }

  /** `normalizeLineEndings`: CRLF first, then lone CR. */
  function NormalizeLineEndings(text: string): string
  {
    ReplaceOccurrences(ReplaceOccurrences(text, "\r\n", "\n"), "\r", "\n")
  }

  /** One-pass reference: a CRLF pair or a lone CR each become one LF. */
  function OnePass(s: string): string
    decreases |s|
  {
    if |s| == 0 then []
    else if s[0] == '\r' && |s| >= 2 && s[1] == '\n' then "\n" + OnePass(s[2..])
    else if s[0] == '\r' then "\n" + OnePass(s[1..])
    else [s[0]] + OnePass(s[1..])
  }

  lemma {:induction false} ReplaceCRPrepend(c: char, s: string)
    ensures ReplaceOccurrences([c] + s, "\r", "\n")
         == (if c == '\r' then "\n" else [c]) + ReplaceOccurrences(s, "\r", "\n")
  {
    assert ([c] + s)[1..] == s;
  }

  /** The two chained replacements compute the one-pass reference. */
  lemma {:induction false} NormalizeIsOnePass(s: string)
    ensures NormalizeLineEndings(s) == OnePass(s)
    decreases |s|
  {
    if |s| == 0 {
    } else if s[0] == '\r' && |s| >= 2 && s[1] == '\n' {
      NormalizeIsOnePass(s[2..]);
      assert ReplaceOccurrences(s, "\r\n", "\n") == "\n" + ReplaceOccurrences(s[2..], "\r\n", "\n");
      ReplaceCRPrepend('\n', ReplaceOccurrences(s[2..], "\r\n", "\n"));
    } else {
      NormalizeIsOnePass(s[1..]);
      assert !HasPrefix(s, "\r\n");
      assert ReplaceOccurrences(s, "\r\n", "\n") == [s[0]] + ReplaceOccurrences(s[1..], "\r\n", "\n");
      ReplaceCRPrepend(s[0], ReplaceOccurrences(s[1..], "\r\n", "\n"));
    }
  }

  lemma {:induction false} OnePassNoCR(s: string)
    ensures '\r' !in OnePass(s)
    decreases |s|
  {
    if |s| > 0 {
      if s[0] == '\r' && |s| >= 2 && s[1] == '\n' { OnePassNoCR(s[2..]); }
      else { OnePassNoCR(s[1..]); }
    }
  }

  lemma {:induction false} OnePassIdentity(s: string)
    requires '\r' !in s
    ensures OnePass(s) == s
    decreases |s|
  {
    if |s| > 0 {
      assert s[0] in s;
      assert forall c :: c in s[1..] ==> c in s;
      OnePassIdentity(s[1..]);
    }
  }

  /** The output never contains a carriage return. */
  lemma NormalizeHasNoCR(s: string)
    ensures '\r' !in NormalizeLineEndings(s)
  {
    NormalizeIsOnePass(s);
    OnePassNoCR(s);
  }

  /** Text without a carriage return is returned unchanged. */
  lemma NormalizeUnchangedWithoutCR(s: string)
    requires '\r' !in s
    ensures NormalizeLineEndings(s) == s
  {
    NormalizeIsOnePass(s);
    OnePassIdentity(s);
  }

  /** Normalising twice is normalising once. */
  lemma NormalizeIdempotent(s: string)
    ensures NormalizeLineEndings(NormalizeLineEndings(s)) == NormalizeLineEndings(s)
  {
    NormalizeHasNoCR(s);
    NormalizeUnchangedWithoutCR(NormalizeLineEndings(s));
  }

  lemma {:induction false} OnePassConcat(a: string, b: string)
    requires !(|a| > 0 && a[|a| - 1] == '\r' && |b| > 0 && b[0] == '\n')
    ensures OnePass(a + b) == OnePass(a) + OnePass(b)
    decreases |a|
  {
    if |a| == 0 {
      assert a + b == b;
    } else if a[0] == '\r' && |a| >= 2 && a[1] == '\n' {
      OnePassConcat(a[2..], b);
      OnePassConcatPair(a, b);
    } else if a[0] == '\r' && |a| == 1 {
      assert (a + b)[1..] == b;
      assert OnePass(a) == "\n";
    } else {
      OnePassConcat(a[1..], b);
      OnePassConcatSingle(a, b);
    }
  }

  /** The step of `OnePassConcat` past a leading CRLF. */
  lemma OnePassConcatPair(a: string, b: string)
    requires |a| >= 2 && a[0] == '\r' && a[1] == '\n'
    requires OnePass(a[2..] + b) == OnePass(a[2..]) + OnePass(b)
    ensures OnePass(a + b) == OnePass(a) + OnePass(b)
  {
    assert (a + b)[2..] == a[2..] + b;
    ConcatStep("\n", OnePass(a[2..]), OnePass(b), OnePass(a), OnePass(a + b));
  }

  /** The step of `OnePassConcat` past a leading character that does not
      start a CRLF pair. */
  lemma OnePassConcatSingle(a: string, b: string)
    requires |a| >= 2 || (|a| == 1 && a[0] != '\r')
    requires !(|a| >= 2 && a[0] == '\r' && a[1] == '\n')
    requires OnePass(a[1..] + b) == OnePass(a[1..]) + OnePass(b)
    ensures OnePass(a + b) == OnePass(a) + OnePass(b)
  {
    assert (a + b)[1..] == a[1..] + b;
    ConcatStep(if a[0] == '\r' then "\n" else [a[0]], OnePass(a[1..]), OnePass(b), OnePass(a), OnePass(a + b));
  }

  /** The output of the head is written before the rest's. */
  lemma ConcatStep(out: string, rest: string, tail: string, whole: string, joined: string)
    requires whole == out + rest && joined == out + (rest + tail)
    ensures joined == whole + tail
  {
  }

  /** Every CRLF pair becomes exactly one LF, whatever surrounds it. */
  lemma CRLFBecomesOneLF(a: string, b: string)
    ensures NormalizeLineEndings(a + "\r\n" + b)
         == NormalizeLineEndings(a) + "\n" + NormalizeLineEndings(b)
  {
    NormalizeIsOnePass(a + "\r\n" + b);
    NormalizeIsOnePass(a);
    NormalizeIsOnePass(b);
    assert a + "\r\n" + b == a + ("\r\n" + b);
    OnePassConcat(a, "\r\n" + b);
    assert ("\r\n" + b)[2..] == b;
  }
}
