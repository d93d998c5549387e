// The file names of extracted frames, `frame_{index:06d}.png`, and their order as
// strings (apps/desktop/camera_timeline.py, packages/quality/colmap.py).
module FrameNames {
  import opened Wrappers

  function Digit(n: nat): char
    requires n < 10
  {
    "0123456789"[n]
  }

  function Power(n: nat): nat { if n == 0 then 1 else 10 * Power(n - 1) }

  // The number of decimal digits.
  function Digits(n: nat): nat { if n < 10 then 1 else 1 + Digits(n / 10) }

  // The last w decimal digits.
  function Padded(n: nat, w: nat): string {
    if w == 0 then "" else Padded(n / 10, w - 1) + [Digit(n % 10)]
  }

  function Width(n: nat): nat { if Digits(n) < 6 then 6 else Digits(n) }

  function FrameName(n: nat): string { "frame_" + (Padded(n, Width(n)) + ".png") }

  // The order of strings by code points.
  predicate Less(a: string, b: string) {
    b != [] && (a == [] || a[0] < b[0] || (a[0] == b[0] && Less(a[1..], b[1..])))
  }

  lemma {:induction false} LessPrefix(p: string, a: string, b: string)
    ensures Less(p + a, p + b) <==> Less(a, b)
  {
    if p == [] {
      assert p + a == a && p + b == b;
    } else {
      assert (p + a)[1..] == p[1..] + a && (p + b)[1..] == p[1..] + b;
      LessPrefix(p[1..], a, b);
    }
  }

  lemma {:induction false} LessIrreflexive(a: string)
    ensures !Less(a, a)
  {
    if a != [] {
      LessIrreflexive(a[1..]);
    }
  }

  lemma {:induction false} LessTransitive(a: string, b: string, c: string)
    requires Less(a, b) && Less(b, c)
    ensures Less(a, c)
  {
    if a != [] && a[0] == b[0] == c[0] {
      LessTransitive(a[1..], b[1..], c[1..]);
    }
  }

  lemma {:induction false} LessTotal(a: string, b: string)
    ensures a == b || Less(a, b) || Less(b, a)
  {
    if a != [] && b != [] && a[0] == b[0] {
      LessTotal(a[1..], b[1..]);
      assert a == [a[0]] + a[1..] && b == [b[0]] + b[1..];
    }
  }

  lemma DigitOrder(i: nat, j: nat)
    requires i < 10 && j < 10
    ensures Digit(i) < Digit(j) <==> i < j
    ensures Digit(i) == Digit(j) <==> i == j
    ensures '.' < Digit(i)
  {
  }

  // Padded to one width, strings are ordered as the numbers, then as what follows.
  lemma {:induction false} PaddedOrder(i: nat, j: nat, w: nat, s: string, t: string)
    requires i < Power(w) && j < Power(w)
    ensures Less(Padded(i, w) + s, Padded(j, w) + t) <==> i < j || (i == j && Less(s, t))
    decreases w
  {
    if w == 0 {
      assert Padded(i, w) + s == s && Padded(j, w) + t == t;
    } else {
      var x, y := [Digit(i % 10)] + s, [Digit(j % 10)] + t;
      assert Padded(i, w) + s == Padded(i / 10, w - 1) + x;
      assert Padded(j, w) + t == Padded(j / 10, w - 1) + y;
      PaddedOrder(i / 10, j / 10, w - 1, x, y);
      DigitOrder(i % 10, j % 10);
      assert x[1..] == s && y[1..] == t;
    }
  }

  lemma {:induction false} DigitsBound(n: nat)
    ensures n < Power(Digits(n)) && (n >= 10 ==> Power(Digits(n) - 1) <= n)
    ensures Digits(n) >= 1
  {
    if n >= 10 {
      DigitsBound(n / 10);
    }
  }

  lemma {:induction false} DigitsMonotone(i: nat, j: nat)
    requires i <= j
    ensures Digits(i) <= Digits(j)
  {
    if i >= 10 {
      DigitsMonotone(i / 10, j / 10);
    }
  }

  lemma {:induction false} PowerMonotone(v: nat, w: nat)
    requires v <= w
    ensures Power(v) <= Power(w)
  {
    if v < w {
      PowerMonotone(v, w - 1);
    }
  }

  lemma WidthBound(n: nat)
    ensures n < Power(Width(n))
  {
    DigitsBound(n);
    PowerMonotone(Digits(n), Width(n));
  }

  // A number without its last d digits.
  function Cut(n: nat, d: nat): nat { if d == 0 then n else Cut(n / 10, d - 1) }

  lemma {:induction false} PaddedSplit(n: nat, w: nat, d: nat)
    requires d <= w
    ensures Padded(n, w) == Padded(Cut(n, d), w - d) + Padded(n, d)
    decreases d
  {
    if d == 0 {
      assert Padded(n, w) + [] == Padded(n, w);
    } else {
      PaddedSplit(n / 10, w - 1, d - 1);
      var high, low, last := Padded(Cut(n, d), w - d), Padded(n / 10, d - 1), [Digit(n % 10)];
      assert (high + low) + last == high + (low + last);
    }
  }

  lemma {:induction false} CutBound(j: nat, w: nat, d: nat)
    requires j < Power(w + d)
    ensures Cut(j, d) < Power(w)
    decreases d
  {
    if d > 0 {
      CutBound(j / 10, w, d - 1);
    }
  }

  // When the names of two frames are ordered as the frames are.
  predicate OrderAgrees(i: nat, j: nat) {
    Width(i) <= Width(j) && i <= Cut(j, Width(j) - Width(i))
  }

  // For any two frames the shorter name comes first exactly when its number is at most
  // that of the longer name cut to the same width.
  lemma NameOrder(i: nat, j: nat)
    requires i < j
    ensures Less(FrameName(i), FrameName(j)) <==> OrderAgrees(i, j)
  {
    DigitsMonotone(i, j);
    var w, d := Width(i), Width(j) - Width(i);
    WidthBound(i);
    WidthBound(j);
    CutBound(j, w, d);
    PaddedSplit(j, Width(j), d);
    DotFirst(j, d);
    LessIrreflexive(".png");
    NameOrderBody(i, j, w, d);
  }

  lemma NameOrderBody(i: nat, j: nat, w: nat, d: nat)
    requires i < j && w == Width(i) && w + d == Width(j)
    requires i < Power(w) && Cut(j, d) < Power(w)
    requires Padded(j, Width(j)) == Padded(Cut(j, d), w) + Padded(j, d)
    requires (d > 0 ==> Less(".png", Padded(j, d) + ".png")) && !Less(".png", ".png")
    ensures Less(FrameName(i), FrameName(j)) <==> i <= Cut(j, d)
  {
    hide Power, Less, Width, Digits;
    var tail := Padded(j, d) + ".png";
    LessPrefix("frame_", Padded(i, w) + ".png", Padded(j, Width(j)) + ".png");
    assert Padded(j, Width(j)) + ".png" == Padded(Cut(j, d), w) + tail;
    PaddedOrder(i, Cut(j, d), w, ".png", tail);
    if d == 0 {
      assert tail == ".png" && Cut(j, 0) == j;
    }
  }

  lemma {:induction false} DotFirst(j: nat, d: nat)
    ensures d > 0 ==> Less(".png", Padded(j, d) + ".png")
    decreases d
  {
    if d > 0 {
      PaddedStarts(j, d);
    }
  }

  lemma {:induction false} PaddedStarts(j: nat, d: nat)
    requires d > 0
    ensures |Padded(j, d)| == d && '.' < Padded(j, d)[0]
    decreases d
  {
    DigitOrder(j % 10, j % 10);
    if d > 1 {
      PaddedStarts(j / 10, d - 1);
    }
  }

  // Below a million the two orders are the same.
  lemma OrderBelowMillion(i: nat, j: nat)
    requires i < j < 1000000
    ensures Less(FrameName(i), FrameName(j))
  {
    SmallWidth(i);
    SmallWidth(j);
    NameOrder(i, j);
  }

  lemma {:induction false} DigitsAtMost(n: nat, k: nat)
    requires k > 0 && n < Power(k)
    ensures Digits(n) <= k
  {
    if n >= 10 {
      DigitsAtMost(n / 10, k - 1);
    }
  }

  lemma SmallWidth(n: nat)
    requires n < 1000000
    ensures Width(n) == 6
  {
    assert Power(3) == 1000 && Power(6) == 1000 * Power(3);
    DigitsAtMost(n, 6);
  }

  // From a million on they are not: the first seven-digit name sorts before it.
  lemma OrderBreaksAtMillion()
    ensures !Less(FrameName(999999), FrameName(1000000)) && Less(FrameName(1000000), FrameName(999999))
  {
    SmallWidth(999999);
    assert Digits(1000000 / 10 / 10 / 10) == 4;
    assert Width(1000000) == 7 && Cut(1000000, 1) == 100000;
    NameOrder(999999, 1000000);
    NamesDiffer(999999, 1000000);
    LessTotal(FrameName(999999), FrameName(1000000));
  }

  lemma NamesDiffer(i: nat, j: nat)
    requires i < j
    ensures FrameName(i) != FrameName(j)
  {
    DigitsMonotone(i, j);
    PaddedStartsOrEmpty(i, Width(i));
    PaddedStartsOrEmpty(j, Width(j));
    if Width(i) == Width(j) {
      NameOrder(i, j);
      LessIrreflexive(FrameName(i));
    } else {
      assert |FrameName(i)| != |FrameName(j)|;
    }
  }

  lemma {:induction false} PaddedStartsOrEmpty(j: nat, d: nat)
    ensures |Padded(j, d)| == d
    decreases d
  {
    if d > 0 {
      PaddedStartsOrEmpty(j / 10, d - 1);
    }
  }
}
