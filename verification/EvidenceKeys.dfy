/** Database keys of evidence: the height in padded hexadecimal, then the hash (evidence/pool.go). */
module EvidenceKeys {

  /** An upper bound of 64-bit heights: sixteen hexadecimal digits. */
  const HEIGHT_LIMIT: nat := 0x1_0000_0000_0000_0000

  const DIGITS := "0123456789ABCDEF"

  datatype Evidence = Evidence(height: nat, time: int, hash: string, isLight: bool)

  /** The order in which the database iterates. */
  predicate LexLess(a: string, b: string) {
    b != [] && (a == [] || a[0] < b[0] || (a[0] == b[0] && LexLess(a[1..], b[1..])))
  }

  function Pad(h: nat, n: nat): (s: string)
    ensures |s| == n
  {
    if n == 0 then [] else Pad(h / 16, n - 1) + [DIGITS[h % 16]]
  }

  function Pow16(n: nat): nat {
    if n == 0 then 1 else 16 * Pow16(n - 1)
  }

  function KeySuffix(ev: Evidence): string {
    Pad(ev.height, 16) + "/" + ev.hash
  }

  lemma DigitsIncrease(i: nat, j: nat)
    requires i < j < 16
    ensures DIGITS[i] < DIGITS[j]
  {
  }

  lemma {:induction false} LexPrefix(p: string, a: string, b: string)
    requires LexLess(a, b)
    ensures LexLess(p + a, p + b)
  {
    if p != [] {
      assert (p + a)[1..] == p[1..] + a && (p + b)[1..] == p[1..] + b;
      LexPrefix(p[1..], a, b);
    } else {
      assert p + a == a && p + b == b;
    }
  }

  lemma DigitStep(i: nat, j: nat, x: string, y: string)
    requires i < j < 16
    ensures LexLess([DIGITS[i]] + x, [DIGITS[j]] + y)
  {
    DigitsIncrease(i, j);
  }

  lemma PadSplits(h: nat, n: nat, x: string)
    requires 0 < n
    ensures Pad(h, n) + x == Pad(h / 16, n - 1) + ([DIGITS[h % 16]] + x)
  {
  }

  /** Padded numbers order as numbers, whatever follows them. */
  lemma {:induction false} PadOrders(h: nat, k: nat, n: nat, x: string, y: string)
    requires h < k < Pow16(n)
    ensures LexLess(Pad(h, n) + x, Pad(k, n) + y)
  {
    hide LexLess, Pad;
    PadSplits(h, n, x);
    PadSplits(k, n, y);
    if h / 16 < k / 16 {
      PadOrders(h / 16, k / 16, n - 1, [DIGITS[h % 16]] + x, [DIGITS[k % 16]] + y);
    } else {
      DigitStep(h % 16, k % 16, x, y);
      LexPrefix(Pad(h / 16, n - 1), [DIGITS[h % 16]] + x, [DIGITS[k % 16]] + y);
    }
  }

  lemma {:induction false} PadInjective(h: nat, k: nat, n: nat)
    requires h < Pow16(n) && k < Pow16(n) && Pad(h, n) == Pad(k, n)
    ensures h == k
  {
    if n > 0 {
      var a, b := Pad(h / 16, n - 1), Pad(k / 16, n - 1);
      assert Pad(h, n)[..n - 1] == a && Pad(k, n)[..n - 1] == b;
      assert Pad(h, n)[n - 1] == DIGITS[h % 16] && Pad(k, n)[n - 1] == DIGITS[k % 16];
      PadInjective(h / 16, k / 16, n - 1);
      if h % 16 < k % 16 {
        DigitsIncrease(h % 16, k % 16);
      } else if k % 16 < h % 16 {
        DigitsIncrease(k % 16, h % 16);
      }
    }
  }

  lemma Pow16Is()
    ensures Pow16(16) == HEIGHT_LIMIT
  {
    assert Pow16(4) == 0x1_0000;
    assert Pow16(8) == 0x1_0000 * 0x1_0000;
    assert Pow16(12) == 0x1_0000 * 0x1_0000 * 0x1_0000;
  }

  /** Iteration visits evidence in the order of heights. */
  lemma KeysOrderByHeight(a: Evidence, b: Evidence)
    requires a.height < b.height < HEIGHT_LIMIT
    ensures LexLess(KeySuffix(a), KeySuffix(b))
  {
    Pow16Is();
    PadOrders(a.height, b.height, 16, "/" + a.hash, "/" + b.hash);
    assert KeySuffix(a) == Pad(a.height, 16) + ("/" + a.hash) && KeySuffix(b) == Pad(b.height, 16) + ("/" + b.hash);
  }

  /** Keys tell evidence apart by height and hash. */
  lemma KeysAreInjective(a: Evidence, b: Evidence)
    requires a.height < HEIGHT_LIMIT && b.height < HEIGHT_LIMIT
    ensures KeySuffix(a) == KeySuffix(b) <==> a.height == b.height && a.hash == b.hash
  {
    if KeySuffix(a) == KeySuffix(b) {
      assert KeySuffix(a)[..16] == Pad(a.height, 16) && KeySuffix(b)[..16] == Pad(b.height, 16);
      assert KeySuffix(a)[17..] == a.hash && KeySuffix(b)[17..] == b.hash;
      Pow16Is();
      PadInjective(a.height, b.height, 16);
    }
  }

  // ----- the order is total --------------------------------------------------------------------

  lemma {:induction false} LexAsymmetric(a: string, b: string)
    requires LexLess(a, b)
    ensures !LexLess(b, a) && a != b
  {
    if a != [] && a[0] == b[0] {
      LexAsymmetric(a[1..], b[1..]);
    }
  }

  lemma {:induction false} LexTransitive(a: string, b: string, c: string)
    requires LexLess(a, b) && LexLess(b, c)
    ensures LexLess(a, c)
  {
    if a != [] && a[0] == b[0] == c[0] {
      LexTransitive(a[1..], b[1..], c[1..]);
    }
  }

  lemma {:induction false} LexTotal(a: string, b: string)
    ensures a == b || LexLess(a, b) || LexLess(b, a)
  {
    if a != [] && b != [] && a[0] == b[0] {
      LexTotal(a[1..], b[1..]);
      assert a == [a[0]] + a[1..] && b == [b[0]] + b[1..];
    }
  }

  predicate IsFirst(k: string, keys: set<string>) {
    k in keys && forall x <- keys :: x == k || LexLess(k, x)
  }

  lemma {:induction false} FirstExists(keys: set<string>)
    requires keys != {}
    ensures exists k :: IsFirst(k, keys)
  {
    var x :| x in keys;
    var rest := keys - {x};
    if rest == {} {
      assert forall y <- keys :: y == x || y in rest;
      assert IsFirst(x, keys);
    } else {
      FirstExists(rest);
      var k :| IsFirst(k, rest);
      LexTotal(x, k);
      if LexLess(k, x) {
        assert IsFirst(k, keys);
      } else {
        forall y <- keys
          ensures y == x || LexLess(x, y)
        {
          if y != x && y != k {
            LexTransitive(x, k, y);
          }
        }
        assert IsFirst(x, keys);
      }
    }
  }
}
