/** The walker's structural items (`StructuralItemKind` in
    Sources/UMAFCore/Walker/UMAFWalker.swift) and their ordering: items are
    sorted by start line, then kind priority, then end line. Swift's `sort`
    is not stable, so the order among items with equal keys is whatever the
    library leaves; the model promises only a sorted permutation, and proves
    that every sorted permutation has the same sequence of keys. */
module WalkerItems {
  import opened WalkerPlacements
  import opened WalkerSections

  datatype Item =
    | FrontItem(front: FrontMatterPlacement)
    | SectionItem(section: SectionPlacement)
    | TableItem(table: TablePlacement)
    | CodeItem(code: CodePlacement)
    | BulletItem(bullet: BulletPlacement)

  function StartLine(item: Item): int
  {
    match item
    case FrontItem(p) => p.range.lower
    case SectionItem(p) => p.startLine
    case TableItem(p) => p.range.lower
    case CodeItem(p) => p.range.lower
    case BulletItem(p) => p.range.lower
  }

  function EndLine(item: Item): int
  {
    match item
    case FrontItem(p) => p.range.upper
    case SectionItem(p) => p.endLine
    case TableItem(p) => p.range.upper
    case CodeItem(p) => p.range.upper
    case BulletItem(p) => p.range.upper
  }

  /** Front matter first, then sections, tables, code and bullets. */
  function Priority(item: Item): (p: int)
    ensures 0 <= p <= 4
    ensures p == 0 <==> item.FrontItem?
    ensures p == 1 <==> item.SectionItem?
    ensures p == 2 <==> item.TableItem?
    ensures p == 3 <==> item.CodeItem?
    ensures p == 4 <==> item.BulletItem?
  {
    match item
    case FrontItem(_) => 0
    case SectionItem(_) => 1
    case TableItem(_) => 2
    case CodeItem(_) => 3
    case BulletItem(_) => 4
  }

  datatype Key = Key(start: int, priority: int, end: int)

  function KeyOf(item: Item): Key
  {
    Key(StartLine(item), Priority(item), EndLine(item))
  }

  /** The comparator handed to `sort`: lexicographic on the key. */
  predicate Less(a: Key, b: Key)
  {
    if a.start != b.start then a.start < b.start
    else if a.priority != b.priority then a.priority < b.priority
    else a.end < b.end
  }

  predicate Before(x: Item, y: Item)
  {
    Less(KeyOf(x), KeyOf(y))
  }

  /** No item comes after a later one. */
  predicate Sorted(s: seq<Item>)
  {
    forall i, j :: 0 <= i < j < |s| ==> !Before(s[j], s[i])
  }

  /** The comparator is a strict total order on keys. */
  lemma LessIsStrictTotal(a: Key, b: Key, c: Key)
    ensures !Less(a, a)
    ensures Less(a, b) && Less(b, c) ==> Less(a, c)
    ensures a == b || Less(a, b) || Less(b, a)
  {
  }

  /** `x` placed into sorted `s` after every item not after it. */
  function Insert(s: seq<Item>, x: Item): (r: seq<Item>)
    requires Sorted(s)
    ensures multiset(r) == multiset(s) + multiset{x}
    ensures Sorted(r)
  {
    if s == [] then [x]
    else if Before(x, s[0]) then
      PrependSorted(x, s);
      [x] + s
    else
      var rest := Insert(s[1..], x);
      ConsSorted(s, x, rest);
      [s[0]] + rest
  }

  lemma PrependSorted(x: Item, s: seq<Item>)
    requires Sorted(s) && s != [] && Before(x, s[0])
    ensures Sorted([x] + s)
  {
    forall j | 0 < j < |s| ensures !Before(s[j], x) {
      assert !Before(s[j], s[0]);
      LessIsStrictTotal(KeyOf(s[j]), KeyOf(x), KeyOf(s[0]));
    }
    SortedCons(x, s);
  }

  lemma ConsSorted(s: seq<Item>, x: Item, rest: seq<Item>)
    requires Sorted(s) && s != [] && !Before(x, s[0])
    requires Sorted(rest) && multiset(rest) == multiset(s[1..]) + multiset{x}
    ensures multiset([s[0]] + rest) == multiset(s) + multiset{x}
    ensures Sorted([s[0]] + rest)
  {
    assert s == [s[0]] + s[1..];
    forall j | 0 <= j < |rest| ensures !Before(rest[j], s[0]) {
      assert rest[j] in multiset(rest);
      if rest[j] != x {
        assert rest[j] in multiset(s[1..]);
        var k :| 0 <= k < |s[1..]| && s[1..][k] == rest[j];
        assert s[k + 1] == rest[j];
      }
    }
    SortedCons(s[0], rest);
  }

  lemma SortedCons(h: Item, t: seq<Item>)
    requires Sorted(t)
    requires forall j :: 0 <= j < |t| ==> !Before(t[j], h)
    ensures Sorted([h] + t)
  {
    var r := [h] + t;
    forall a, b | 0 <= a < b < |r| ensures !Before(r[b], r[a]) {
      assert r[b] == t[b - 1];
      if a > 0 { assert r[a] == t[a - 1]; }
    }
  }

  /** `items.sort { … }` with the walker's comparator. */
  method SortItems(items: seq<Item>) returns (sorted: seq<Item>)
    ensures multiset(sorted) == multiset(items)
    ensures Sorted(sorted)
  {
    sorted := [];
    var k := 0;
    while k < |items|
      invariant 0 <= k <= |items|
      invariant multiset(sorted) == multiset(items[..k])
      invariant Sorted(sorted)
    {
      assert items[..k + 1] == items[..k] + [items[k]];
      sorted := Insert(sorted, items[k]);
      k := k + 1;
    }
    assert items[..k] == items;
  }

  // ---------------------------------------------------------------------
  // Any two sorted permutations agree on keys
  // ---------------------------------------------------------------------

  function Keys(s: seq<Item>): (r: seq<Key>)
    ensures |r| == |s|
    ensures forall i :: 0 <= i < |s| ==> r[i] == KeyOf(s[i])
  {
    if s == [] then [] else [KeyOf(s[0])] + Keys(s[1..])
  }

  lemma SortedPart(s: seq<Item>, j: nat)
    requires Sorted(s) && j < |s|
    ensures Sorted(s[..j] + s[j + 1..])
  {
    var t := s[..j] + s[j + 1..];
    forall a, b | 0 <= a < b < |t| ensures !Before(t[b], t[a]) {
      var a' := if a < j then a else a + 1;
      var b' := if b < j then b else b + 1;
      assert t[a] == s[a'] && t[b] == s[b'];
    }
  }

  /** Two orders of the same items that both satisfy the comparator list
      the same keys in the same order, so the sort leaves open only the
      relative order of items whose keys are all equal. */
  lemma {:induction false} SortedKeysDetermined(a: seq<Item>, b: seq<Item>)
    requires Sorted(a) && Sorted(b)
    requires multiset(a) == multiset(b)
    ensures Keys(a) == Keys(b)
    decreases |a|
  {
    assert |a| == |multiset(a)| == |multiset(b)| == |b|;
    if a != [] {
      var j := FirstKeyEqual(a, b);
      var rest := b[..j] + b[j + 1..];
      RemoveFirst(a, b, j);
      SortedPart(b, j);
      SortedPart(a, 0);
      assert a[..0] + a[1..] == a[1..];
      SortedKeysDetermined(a[1..], rest);
      forall m | 0 <= m < |a| ensures KeyOf(a[m]) == KeyOf(b[m]) {
        if m > 0 {
          assert KeyOf(a[m]) == KeyOf(rest[m - 1]) by {
            assert Keys(a[1..])[m - 1] == Keys(rest)[m - 1];
          }
          if m - 1 < j {
            assert rest[m - 1] == b[m - 1];
            SqueezedKey(b, j, m - 1);
            SqueezedKey(b, j, m);
          } else {
            assert rest[m - 1] == b[m];
          }
        }
      }
    }
  }

  /** The first items of two sorted orders of the same items share a key,
      and the first one occurs in the second order at `j`. */
  lemma FirstKeyEqual(a: seq<Item>, b: seq<Item>) returns (j: nat)
    requires Sorted(a) && Sorted(b) && a != []
    requires multiset(a) == multiset(b)
    ensures j < |b| && b[j] == a[0]
    ensures KeyOf(a[0]) == KeyOf(b[0])
  {
    assert a[0] in multiset(b);
    j :| 0 <= j < |b| && b[j] == a[0];
    assert b[0] in multiset(a);
    var i :| 0 <= i < |a| && a[i] == b[0];
    if 0 < i { assert !Before(a[i], a[0]); }
    if 0 < j { assert !Before(b[j], b[0]); }
    LessIsStrictTotal(KeyOf(a[0]), KeyOf(b[0]), KeyOf(a[0]));
  }

  lemma RemoveFirst(a: seq<Item>, b: seq<Item>, j: nat)
    requires a != [] && j < |b| && b[j] == a[0]
    requires multiset(a) == multiset(b)
    ensures multiset(b[..j] + b[j + 1..]) == multiset(a[1..])
  {
    assert b == b[..j] + [b[j]] + b[j + 1..];
    assert multiset(b) == multiset(b[..j]) + multiset{b[j]} + multiset(b[j + 1..]);
    assert a == [a[0]] + a[1..];
    assert multiset(a) == multiset{a[0]} + multiset(a[1..]);
    assert multiset(b[..j] + b[j + 1..]) == multiset(b[..j]) + multiset(b[j + 1..]);
    assert multiset(b[..j] + b[j + 1..]) == multiset(b) - multiset{b[j]};
  }

  /** In a sorted sequence, everything up to an item with the first key has
      that key. */
  lemma SqueezedKey(b: seq<Item>, j: nat, m: nat)
    requires Sorted(b) && j < |b| && m <= j
    requires KeyOf(b[j]) == KeyOf(b[0])
    ensures KeyOf(b[m]) == KeyOf(b[0])
  {
    if 0 < m < j {
      assert !Before(b[m], b[0]) && !Before(b[j], b[m]);
      LessIsStrictTotal(KeyOf(b[m]), KeyOf(b[0]), KeyOf(b[m]));
    }
  }
}
