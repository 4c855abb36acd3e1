/**
 Text the runtime uses as keys: decimal numbers, the (publisher, boot) key of
 src/attribution.cpp:132-137, identity tokens, and the ordering of std::map
 over strings.
 */
module Text {
  import opened Machine

  function Digit(d: nat): (c: char)
    requires d < 10
  {
    "0123456789"[d]
  }

  function Decimal(n: nat): (s: string)
    ensures s != []
  {
    if n < 10 then [Digit(n)] else Decimal(n / 10) + [Digit(n % 10)]
  }

  lemma DigitInjective(a: nat, b: nat)
    requires a < 10 && b < 10 && Digit(a) == Digit(b)
    ensures a == b
  {}

  lemma {:induction false} DecimalDigits(n: nat)
    ensures forall i :: 0 <= i < |Decimal(n)| ==> Decimal(n)[i] != '#'
  {
    assert forall d: nat :: d < 10 ==> Digit(d) != '#';
    if n >= 10 { DecimalDigits(n / 10); }
  }

  lemma {:induction false} DecimalInjective(a: nat, b: nat)
    requires Decimal(a) == Decimal(b)
    ensures a == b
  {
    var s, t := Decimal(a), Decimal(b);
    assert s[|s| - 1] == Digit(a % 10) && t[|t| - 1] == Digit(b % 10);
    DigitInjective(a % 10, b % 10);
    if a >= 10 && b >= 10 {
      assert Decimal(a / 10) == s[..|s| - 1] && Decimal(b / 10) == t[..|t| - 1];
      DecimalInjective(a / 10, b / 10);
    }
  }

  /** The key of one publisher boot. Identity tokens may themselves contain '#'. */
  function BootKey(publisher: string, boot: U64): (key: string)
  {
    publisher + "#" + Decimal(boot)
  }

  /** The key determines publisher and boot, whatever characters the publisher's name has. */
  lemma BootKeyInjective(p: string, a: U64, q: string, b: U64)
    requires BootKey(p, a) == BootKey(q, b)
    ensures p == q && a == b
  {
    var key, d, e := BootKey(p, a), Decimal(a), Decimal(b);
    DecimalDigits(a);
    DecimalDigits(b);
    assert key[|key| - |d| - 1] == '#' && key[|key| - |e| - 1] == '#';
    assert |d| == |e|;
    assert d == key[|key| - |d|..] && e == key[|key| - |e|..];
    assert p == key[..|key| - |d| - 1] && q == key[..|key| - |e| - 1];
    DecimalInjective(a, b);
  }

  const MAX_NAME_LENGTH: nat := 64

  predicate TokenChar(c: char)
  {
    || '0' <= c <= '9' || 'A' <= c <= 'Z' || 'a' <= c <= 'z'
    || c in "._-:@#+"
  }

  predicate ValidToken(s: string)
  {
    1 <= |s| <= MAX_NAME_LENGTH && forall i :: 0 <= i < |s| ==> TokenChar(s[i])
  }

  // ---- Lexicographic order ---------------------------------------------

  predicate Less(a: string, b: string)
  {
    b != [] && (a == [] || a[0] < b[0] || (a[0] == b[0] && Less(a[1..], b[1..])))
  }

  lemma {:induction false} LessTotal(a: string, b: string)
    ensures a == b || Less(a, b) || Less(b, a)
  {
    if a != [] && b != [] && a[0] == b[0] {
      LessTotal(a[1..], b[1..]);
      assert a == [a[0]] + a[1..] && b == [b[0]] + b[1..];
    }
  }

  lemma {:induction false} LessTransitive(a: string, b: string, c: string)
    requires Less(a, b) && Less(b, c)
    ensures Less(a, c)
  {
    if a != [] && a[0] == b[0] && b[0] == c[0] { LessTransitive(a[1..], b[1..], c[1..]); }
  }

  lemma {:induction false} LessIrreflexive(a: string)
    ensures !Less(a, a)
  {
    if a != [] { LessIrreflexive(a[1..]); }
  }

  ghost predicate IsSmallest(k: string, keys: set<string>)
  {
    k in keys && forall x :: x in keys && x != k ==> Less(k, x)
  }

  lemma SmallestUnique(j: string, k: string, keys: set<string>)
    requires IsSmallest(j, keys) && IsSmallest(k, keys)
    ensures j == k
  {
    if j != k {
      LessTransitive(j, k, j);
      LessIrreflexive(j);
    }
  }

  /** The key at the front of an ordered map. */
  method FindSmallest(keys: set<string>) returns (k: string)
    requires keys != {}
    ensures IsSmallest(k, keys)
  {
    k :| k in keys;
    var rest := keys - {k};
    while rest != {}
      invariant k in keys && rest <= keys - {k}
      invariant forall x :: x in keys - rest && x != k ==> Less(k, x)
      decreases |rest|
    {
      var x :| x in rest;
      rest := rest - {x};
      if Less(x, k) {
        forall y | y in keys - rest && y != x
          ensures Less(x, y)
        {
          if y != k { LessTransitive(x, k, y); }
        }
        k := x;
      } else {
        LessTotal(x, k);
      }
    }
  }

  lemma {:induction false} SmallestExists(keys: set<string>)
    requires keys != {}
    ensures exists k :: IsSmallest(k, keys)
  {
    var x :| x in keys;
    if keys != {x} {
      SmallestExists(keys - {x});
      var k :| IsSmallest(k, keys - {x});
      LessTotal(x, k);
      if Less(x, k) {
        forall y | y in keys && y != x
          ensures Less(x, y)
        {
          if y != k { LessTransitive(x, k, y); }
        }
        assert IsSmallest(x, keys);
      } else {
        assert IsSmallest(k, keys);
      }
    } else {
      assert IsSmallest(x, keys);
    }
  }

  ghost function Smallest(keys: set<string>): (k: string)
    requires keys != {}
    ensures IsSmallest(k, keys)
  {
    SmallestExists(keys);
    var k :| IsSmallest(k, keys);
    k
  }
}
