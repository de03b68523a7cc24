/** `StableIDGenerator` (Sources/UMAFCore/Walker/UMAFWalker.swift): a counter
    per prefix; the n-th id of a prefix is the prefix, a colon and n in
    decimal, zero-padded to three digits (`"%@:%03d"`). */
module WalkerIds {
  import opened Wrappers
  import opened Text

  // ---------------------------------------------------------------------
  // Decimal digits
  // ---------------------------------------------------------------------

  predicate AllDigits(s: string)
  {
    forall i :: 0 <= i < |s| ==> IsDigit(s[i])
  }

  function DigitChar(d: nat): (c: char)
    requires d < 10
    ensures IsDigit(c)
  {
    ('0' as int + d) as char
  }

  function DigitValue(c: char): nat
    requires IsDigit(c)
  {
    c as int - '0' as int
  }

  /** `n` in decimal, without leading zeros. */
  function Decimal(n: nat): (r: string)
    ensures r != [] && AllDigits(r)
    ensures n < 10 ==> |r| == 1
    ensures n >= 10 ==> |r| >= 2
    decreases n
  {
    if n < 10 then [DigitChar(n)] else Decimal(n / 10) + [DigitChar(n % 10)]
  }

  /** `%03d`: the decimal digits of `n`, left-padded with `0` to three. */
  function Pad3(n: nat): (r: string)
    ensures r != [] && AllDigits(r)
  {
    var d := Decimal(n);
    if |d| < 3 then
      ZerosAreDigits(3 - |d|);
      AppendDigits(Repeat("0", 3 - |d|), d);
      Repeat("0", 3 - |d|) + d
    else d
  }

  lemma AppendDigits(a: string, b: string)
    requires AllDigits(a) && AllDigits(b)
    ensures AllDigits(a + b)
  {
    assert forall i :: 0 <= i < |a + b| ==> (a + b)[i] == if i < |a| then a[i] else b[i - |a|];
  }

  /** The number a digit string denotes, read left to right from `acc`. */
  function ValueFrom(s: string, acc: nat): nat
    requires AllDigits(s)
  {
    if s == [] then acc else ValueFrom(s[1..], acc * 10 + DigitValue(s[0]))
  }

  function Value(s: string): nat
    requires AllDigits(s)
  {
    ValueFrom(s, 0)
  }

  lemma {:induction false} ValueSnoc(a: string, c: char, acc: nat)
    requires AllDigits(a) && IsDigit(c)
    ensures AllDigits(a + [c])
    ensures ValueFrom(a + [c], acc) == ValueFrom(a, acc) * 10 + DigitValue(c)
    decreases |a|
  {
    if a != [] {
      assert (a + [c])[1..] == a[1..] + [c];
      ValueSnoc(a[1..], c, acc * 10 + DigitValue(a[0]));
    }
  }

  /** Reading the decimal digits of `n` gives `n` back. */
  lemma {:induction false} ValueOfDecimal(n: nat)
    ensures Value(Decimal(n)) == n
    decreases n
  {
    if n >= 10 {
      ValueOfDecimal(n / 10);
      ValueSnoc(Decimal(n / 10), DigitChar(n % 10), 0);
      assert DigitValue(DigitChar(n % 10)) == n % 10;
      assert Decimal(n) == Decimal(n / 10) + [DigitChar(n % 10)];
    } else {
      var c := DigitChar(n);
      assert DigitValue(c) == n;
      assert Decimal(n) == [c];
      assert [c][1..] == [];
      assert ValueFrom([c], 0) == ValueFrom([], DigitValue(c));
    }
  }

  lemma {:induction false} ZerosAreDigits(k: nat)
    ensures AllDigits(Repeat("0", k))
  {
    forall i | 0 <= i < k
      ensures Repeat("0", k)[i] == '0'
    {
      RepeatAt('0', k, i);
    }
  }

  /** Leading zeros do not change the value. */
  lemma {:induction false} ValueLeadingZeros(k: nat, s: string)
    requires AllDigits(s)
    ensures AllDigits(Repeat("0", k) + s)
    ensures Value(Repeat("0", k) + s) == Value(s)
    decreases k
  {
    ZerosAreDigits(k);
    if k > 0 {
      ValueLeadingZeros(k - 1, s);
      var rest := Repeat("0", k - 1) + s;
      assert Repeat("0", k) + s == "0" + rest;
      AppendDigits("0", rest);
      assert ("0" + rest)[1..] == rest;
      assert ("0" + rest)[0] == '0';
      assert ValueFrom("0" + rest, 0) == ValueFrom(rest, 0);
    } else {
      assert Repeat("0", k) + s == s;
    }
  }

  /** Padding keeps the number and gives at least three digits, exactly
      three below one thousand. */
  lemma Pad3Spec(n: nat)
    ensures Value(Pad3(n)) == n
    ensures |Pad3(n)| >= 3
    ensures n < 1000 ==> |Pad3(n)| == 3
  {
    var d := Decimal(n);
    ValueOfDecimal(n);
    if |d| < 3 {
      ValueLeadingZeros(3 - |d|, d);
      assert Pad3(n) == Repeat("0", 3 - |d|) + d;
    } else {
      assert Pad3(n) == d;
    }
    if n < 1000 {
      DecimalLength(n);
    }
  }

  lemma {:induction false} DecimalLength(n: nat)
    requires n < 1000
    ensures |Decimal(n)| <= 3
  {
    if n >= 10 {
      assert n / 10 < 100;
      if n / 10 >= 10 {
        assert n / 100 < 10;
        assert (n / 10) / 10 == n / 100;
      }
    }
  }

  // ---------------------------------------------------------------------
  // Ids
  // ---------------------------------------------------------------------

  /** The `count`-th id of `prefix`. */
  function MakeId(prefix: string, count: nat): string
  {
    prefix + ":" + Pad3(count)
  }

  /** Index of the last `:`, or -1. */
  function LastColon(s: string): (r: int)
    ensures -1 <= r < |s|
    ensures r >= 0 ==> s[r] == ':'
    ensures forall i :: r < i < |s| ==> s[i] != ':'
  {
    if s == [] then -1
    else if s[|s| - 1] == ':' then |s| - 1
    else LastColon(s[..|s| - 1])
  }

  /** The prefix and the number an id was made from, when it has that
      shape. */
  function ParseId(id: string): Option<(string, nat)>
  {
    var c := LastColon(id);
    if c < 0 then None
    else
      var digits := id[c + 1..];
      if digits == [] || !AllDigits(digits) then None
      else Some((id[..c], Value(digits)))
  }

  lemma {:induction false} LastColonAfter(p: string, d: string)
    requires forall i :: 0 <= i < |d| ==> d[i] != ':'
    ensures LastColon(p + ":" + d) == |p|
    decreases |d|
  {
    var s := p + ":" + d;
    if d != [] {
      assert s[..|s| - 1] == p + ":" + d[..|d| - 1];
      LastColonAfter(p, d[..|d| - 1]);
    } else {
      assert s[|s| - 1] == ':';
    }
  }

  /** An id reads back as the prefix and number it was made from. */
  lemma ParseMakeId(prefix: string, count: nat)
    ensures ParseId(MakeId(prefix, count)) == Some((prefix, count))
  {
    var d := Pad3(count);
    var id := MakeId(prefix, count);
    assert forall i :: 0 <= i < |d| ==> d[i] != ':' by {
      assert forall i :: 0 <= i < |d| ==> IsDigit(d[i]);
    }
    LastColonAfter(prefix, d);
    assert id[|prefix| + 1..] == d;
    assert id[..|prefix|] == prefix;
    Pad3Spec(count);
  }

  /** Different prefixes or counts never give the same id. */
  lemma MakeIdInjective(p: string, n: nat, q: string, m: nat)
    requires MakeId(p, n) == MakeId(q, m)
    ensures p == q && n == m
  {
    ParseMakeId(p, n);
    ParseMakeId(q, m);
  }

  /** An id ends with a digit, so it is never one of the fixed root ids. */
  lemma MadeIdEndsWithDigit(prefix: string, count: nat)
    ensures IsDigit(MakeId(prefix, count)[|MakeId(prefix, count)| - 1])
  {
    var d := Pad3(count);
    assert MakeId(prefix, count)[|MakeId(prefix, count)| - 1] == d[|d| - 1];
  }

  // ---------------------------------------------------------------------
  // The generator
  // ---------------------------------------------------------------------

  /** How many ids `prefix` has been given so far. */
  function CountOf(counts: map<string, nat>, prefix: string): nat
  {
    if prefix in counts then counts[prefix] else 0
  }

  /** `StableIDGenerator`: `nextSpan` and `nextBlock` are both `makeId`. */
  class IdGenerator {
    var counts: map<string, nat>

    constructor()
      ensures counts == map[]
    {
      counts := map[];
    }

    /** `makeId(prefix:)` */
    method Next(prefix: string) returns (id: string)
      modifies this
      ensures counts == old(counts)[prefix := CountOf(old(counts), prefix) + 1]
      ensures id == MakeId(prefix, CountOf(old(counts), prefix) + 1)
    {
      var next := (if prefix in counts then counts[prefix] else 0) + 1;
      counts := counts[prefix := next];
      id := MakeId(prefix, next);
    }
  }

  /** The generator never repeats an id: each id it gives is numbered above
      every id it gave before for the same prefix. */
  lemma NextIsFresh(counts: map<string, nat>, prefix: string, earlier: string)
    requires ParseId(earlier).Some? && ParseId(earlier).value.1 <= CountOf(counts, ParseId(earlier).value.0)
    ensures earlier != MakeId(prefix, CountOf(counts, prefix) + 1)
  {
    ParseMakeId(prefix, CountOf(counts, prefix) + 1);
  }
}
