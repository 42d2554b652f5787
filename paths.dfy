/**
 * Keys of the hierarchical store: the parent of a key, the order the store
 * sorts keys by, and the names the store assigns to in-order keys.
 */
module Paths {

  /** A slash-separated key such as "/a/b/c". */
  type Key = string

  const Root: Key := "/"

  /** Index of the last '/' in p, or -1 when p has none. */
  function LastSlash(p: Key): (i: int)
    ensures -1 <= i < |p|
    ensures i >= 0 ==> p[i] == '/'
    ensures forall j :: i < j < |p| ==> p[j] != '/'
  {
    if |p| == 0 then -1
    else if p[|p| - 1] == '/' then |p| - 1
    else LastSlash(p[..|p| - 1])
  }

  /** Measure for walking up the hierarchy: 0 for the root, the length plus one otherwise. */
  function Depth(p: Key): nat {
    if p == Root then 0 else |p| + 1
  }

  /** The directory holding p: everything before its last '/', or the root. */
  function Parent(p: Key): (d: Key)
    ensures p != Root ==> Depth(d) < Depth(p) && d != p
    ensures d == Root || (0 < |d| < |p| && d == p[..|d|] && p[|d|] == '/')
  {
    var i := LastSlash(p);
    if i <= 0 then Root else p[..i]
  }

  /** The key of child `name` inside directory `dir`. */
  function Join(dir: Key, name: string): Key {
    if dir == Root then Root + name else dir + "/" + name
  }

  /** A child joined onto a directory has that directory as parent. */
  lemma ParentOfJoin(dir: Key, name: string)
    requires dir != "" && '/' !in name
    ensures Parent(Join(dir, name)) == dir
  {
    var k := Join(dir, name);
    var i := LastSlash(k);
    if dir == Root {
      assert k[0] == '/';
      assert forall j :: 0 < j < |k| ==> k[j] == name[j - 1];
    } else {
      assert k[|dir|] == '/';
      assert forall j :: |dir| < j < |k| ==> k[j] == name[j - |dir| - 1];
      assert k[..|dir|] == dir;
    }
  }

  // ---------------------------------------------------------------------------
  // Key order: the store compares keys as Go compares strings, byte by byte.
  // On UTF-8 that is the order of code points, which is the order of Dafny chars.
  // ---------------------------------------------------------------------------

  /** a sorts strictly before b. */
  predicate KeyLess(a: Key, b: Key) {
    |b| > 0 && (|a| == 0 || a[0] < b[0] || (a[0] == b[0] && KeyLess(a[1..], b[1..])))
  }

  lemma {:induction false} KeyLessAsymmetric(a: Key, b: Key)
    requires KeyLess(a, b)
    ensures !KeyLess(b, a)
  {
    if |a| > 0 && a[0] == b[0] {
      KeyLessAsymmetric(a[1..], b[1..]);
    }
  }

  /** Sorted: no key is followed by a smaller one. */
  predicate Sorted(s: seq<Key>) {
    forall i :: 0 < i < |s| ==> !KeyLess(s[i], s[i - 1])
  }

  /** Inserts x into the sorted s before the first key not smaller than x. */
  function InsertKey(x: Key, s: seq<Key>): (r: seq<Key>)
    requires Sorted(s)
    ensures Sorted(r)
    ensures multiset(r) == multiset(s) + multiset{x}
    ensures r[0] == x || (|s| > 0 && r[0] == s[0])
  {
    if |s| == 0 || !KeyLess(s[0], x) then
      [x] + s
    else
      KeyLessAsymmetric(s[0], x);
      var rest := InsertKey(x, s[1..]);
      assert s == [s[0]] + s[1..];
      [s[0]] + rest
  }

  /** The keys of s in the store's sorted order (insertion sort). */
  function SortKeys(s: seq<Key>): (r: seq<Key>)
    ensures Sorted(r)
    ensures multiset(r) == multiset(s)
  {
    if |s| == 0 then []
    else
      assert s == [s[0]] + s[1..];
      InsertKey(s[0], SortKeys(s[1..]))
  }

  // ---------------------------------------------------------------------------
  // Names of in-order keys: the store names the child it creates for the n-th
  // write after its index, written in decimal and zero-padded to 20 digits.
  // ---------------------------------------------------------------------------

  const OrderedWidth: nat := 20

  function Pow10(n: nat): (p: nat)
    ensures p > 0
  {
    if n == 0 then 1 else 10 * Pow10(n - 1)
  }

  predicate IsDigit(c: char) {
    '0' <= c <= '9'
  }

  function DigitChar(d: nat): (c: char)
    requires d < 10
    ensures IsDigit(c)
  {
    (48 + d) as char
  }

  /** The last `width` decimal digits of n, most significant first. */
  function Digits(n: nat, width: nat): (r: string)
    ensures |r| == width
    ensures forall i :: 0 <= i < width ==> IsDigit(r[i])
  {
    if width == 0 then "" else Digits(n / 10, width - 1) + [DigitChar(n % 10)]
  }

  /** n in decimal, without leading zeros. */
  function Decimal(n: nat): (r: string)
    ensures |r| >= 1
    ensures forall i :: 0 <= i < |r| ==> IsDigit(r[i])
  {
    if n < 10 then [DigitChar(n)] else Decimal(n / 10) + [DigitChar(n % 10)]
  }

  function Zeros(k: nat): (r: string)
    ensures |r| == k && forall i :: 0 <= i < k ==> r[i] == '0'
  {
    seq(k, _ => '0')
  }

  /** s with '0's in front up to width characters; a longer s is kept whole. */
  function ZeroPad(s: string, width: nat): (r: string)
    ensures |r| >= width && |r| >= |s|
    ensures r[|r| - |s|..] == s
    ensures forall i :: 0 <= i < |r| - |s| ==> r[i] == '0'
  {
    if |s| < width then Zeros(width - |s|) + s else s
  }

  /** The name of the child created at index n: n in decimal, zero-padded to 20 characters. */
  function OrderedName(n: nat): (r: string)
    ensures |r| >= OrderedWidth && '/' !in r
  {
    var r := ZeroPad(Decimal(n), OrderedWidth);
    assert forall i :: 0 <= i < |r| ==> IsDigit(r[i]) by {
      forall i | 0 <= i < |r|
        ensures IsDigit(r[i])
      {
        var k := |r| - |Decimal(n)|;
        if i >= k {
          assert r[i] == r[k..][i - k];
        }
      }
    }
    r
  }

  /** The key the store assigns in directory dir at index n. */
  function OrderedKey(dir: Key, n: nat): Key {
    Join(dir, OrderedName(n))
  }

  lemma {:induction false} KeyLessExtend(a: Key, b: Key, x: Key, y: Key)
    requires |a| == |b| && KeyLess(a, b)
    ensures KeyLess(a + x, b + y)
  {
    if a[0] == b[0] {
      assert (a + x)[1..] == a[1..] + x;
      assert (b + y)[1..] == b[1..] + y;
      KeyLessExtend(a[1..], b[1..], x, y);
    }
  }

  lemma {:induction false} KeyLessLast(a: Key, c: char, d: char)
    requires c < d
    ensures KeyLess(a + [c], a + [d])
  {
    if |a| > 0 {
      assert (a + [c])[1..] == a[1..] + [c];
      assert (a + [d])[1..] == a[1..] + [d];
      KeyLessLast(a[1..], c, d);
    }
  }

  lemma {:induction false} KeyLessPrefix(p: Key, a: Key, b: Key)
    requires KeyLess(a, b)
    ensures KeyLess(p + a, p + b)
  {
    if |p| > 0 {
      assert (p + a)[1..] == p[1..] + a;
      assert (p + b)[1..] == p[1..] + b;
      KeyLessPrefix(p[1..], a, b);
    } else {
      assert p + a == a && p + b == b;
    }
  }

  /** Fixed-width decimal names sort in numeric order. */
  lemma {:induction false} DigitsOrdered(n: nat, m: nat, width: nat)
    requires n < m < Pow10(width)
    ensures KeyLess(Digits(n, width), Digits(m, width))
  {
    var w := width - 1;
    if n / 10 < m / 10 {
      DigitsOrdered(n / 10, m / 10, w);
      KeyLessExtend(Digits(n / 10, w), Digits(m / 10, w), [DigitChar(n % 10)], [DigitChar(m % 10)]);
    } else {
      KeyLessLast(Digits(n / 10, w), DigitChar(n % 10), DigitChar(m % 10));
    }
  }

  /** An in-order key is a new child of its directory. */
  lemma OrderedKeyInDir(dir: Key, n: nat)
    requires dir != ""
    ensures Parent(OrderedKey(dir, n)) == dir && OrderedKey(dir, n) != dir
  {
    ParentOfJoin(dir, OrderedName(n));
  }

  lemma {:induction false} DigitsOfZero(width: nat)
    ensures Digits(0, width) == Zeros(width)
  {
    if width > 0 {
      DigitsOfZero(width - 1);
      assert Zeros(width) == Zeros(width - 1) + ['0'];
    }
  }

  lemma {:induction false} DecimalFits(n: nat, width: nat)
    requires 1 <= width && n < Pow10(width)
    ensures |Decimal(n)| <= width
  {
    if n >= 10 {
      DecimalFits(n / 10, width - 1);
    }
  }

  /** Below 10^width, the padded decimal is the fixed-width digit string. */
  lemma {:induction false} PaddedDecimal(n: nat, width: nat)
    requires 1 <= width && n < Pow10(width)
    ensures ZeroPad(Decimal(n), width) == Digits(n, width)
  {
    var d := [DigitChar(n % 10)];
    if n < 10 {
      DigitsOfZero(width - 1);
      assert Zeros(width - 1) + d == Zeros(width - 1 + 1 - 1) + d;
    } else {
      DecimalFits(n, width);
      DecimalFits(n / 10, width - 1);
      PaddedDecimal(n / 10, width - 1);
      var h := Decimal(n / 10);
      assert Decimal(n) == h + d;
      assert ZeroPad(h + d, width) == Zeros(width - 1 - |h|) + h + d by {
        if |h| + 1 < width {
          assert ZeroPad(h + d, width) == Zeros(width - |h| - 1) + (h + d);
        }
      }
      assert ZeroPad(h, width - 1) == Zeros(width - 1 - |h|) + h;
    }
  }

  /** Keys the store assigns later in the same directory sort after earlier ones. */
  lemma OrderedKeysIncrease(dir: Key, n: nat, m: nat)
    requires n < m < Pow10(OrderedWidth)
    ensures KeyLess(OrderedKey(dir, n), OrderedKey(dir, m))
  {
    PaddedDecimal(n, OrderedWidth);
    PaddedDecimal(m, OrderedWidth);
    DigitsOrdered(n, m, OrderedWidth);
    var prefix := if dir == Root then Root else dir + "/";
    KeyLessPrefix(prefix, OrderedName(n), OrderedName(m));
    assert OrderedKey(dir, n) == prefix + OrderedName(n);
    assert OrderedKey(dir, m) == prefix + OrderedName(m);
  }
}
