/** File names of captured segments and the order in which salvage sorts them. */
module SegmentNames {
  import opened SegmentCapture

  function Pow10(w: nat): (p: nat)
    ensures p > 0
  {
    if w == 0 then 1 else 10 * Pow10(w - 1)
  }

  function Digit(d: nat): char
    requires d < 10
  {
    '0' + d as char
  }

  /** The w low decimal digits of k. */
  function Padded(k: nat, w: nat): (s: string)
    ensures |s| == w
  {
    if w == 0 then [] else Padded(k / 10, w - 1) + [Digit(k % 10)]
  }

  function Decimal(k: nat): (s: string)
    ensures s != []
  {
    if k < 10 then [Digit(k)] else Decimal(k / 10) + [Digit(k % 10)]
  }

  /** `segment_{k:06d}.ts` */
  function Number06(k: nat): string {
    if k < 1000000 then Padded(k, 6) else Decimal(k)
  }

  function Name(k: nat): string { "segment_" + Number06(k) + ".ts" }

  /** Lexicographic order on strings, as `sorted` uses it. */
  predicate Less(a: string, b: string) {
    if b == [] then false
    else if a == [] then true
    else if a[0] != b[0] then a[0] < b[0]
    else Less(a[1..], b[1..])
  }

  lemma {:induction false} LessIrreflexive(a: string)
    ensures !Less(a, a)
  {
    if a != [] { LessIrreflexive(a[1..]); }
  }

  lemma {:induction false} LessAfterPrefix(p: string, a: string, b: string)
    ensures Less(p + a, p + b) == Less(a, b)
  {
    if p == [] {
      assert p + a == a && p + b == b;
    } else {
      assert (p + a)[1..] == p[1..] + a && (p + b)[1..] == p[1..] + b;
      LessAfterPrefix(p[1..], a, b);
    }
  }

  /** Equally long texts followed by whatever are compared first. */
  lemma {:induction false} LessBeforeSuffix(a: string, b: string, s: string, t: string)
    requires |a| == |b|
    ensures Less(a + s, b + t) == if a == b then Less(s, t) else Less(a, b)
  {
    if a == [] {
      assert a + s == s && b + t == t;
    } else {
      assert (a + s)[1..] == a[1..] + s && (b + t)[1..] == b[1..] + t;
      assert a == [a[0]] + a[1..] && b == [b[0]] + b[1..];
      LessBeforeSuffix(a[1..], b[1..], s, t);
    }
  }

  lemma {:induction false} PaddedOrder(j: nat, k: nat, w: nat)
    requires j < Pow10(w) && k < Pow10(w)
    ensures Less(Padded(j, w), Padded(k, w)) <==> j < k
    ensures Padded(j, w) == Padded(k, w) <==> j == k
    decreases w
  {
    if w > 0 {
      PaddedOrder(j / 10, k / 10, w - 1);
      var a, b, s, t := Padded(j / 10, w - 1), Padded(k / 10, w - 1), [Digit(j % 10)], [Digit(k % 10)];
      LessBeforeSuffix(a, b, s, t);
      assert Less(s, t) <==> j % 10 < k % 10 by { assert s[1..] == [] && t[1..] == []; }
      assert (a + s)[..w - 1] == a && (b + t)[..w - 1] == b && (a + s)[w - 1] == s[0] && (b + t)[w - 1] == t[0];
      assert j == 10 * (j / 10) + j % 10 && k == 10 * (k / 10) + k % 10;
    }
  }

  /** Below a million, name order is number order, so distinct numbers are distinct names. */
  lemma {:induction false} NameOrder(j: nat, k: nat)
    requires j < 1000000 && k < 1000000
    ensures Less(Name(j), Name(k)) <==> j < k
  {
    assert Pow10(6) == 1000000;
    var a, b := Padded(j, 6), Padded(k, 6);
    PaddedOrder(j, k, 6);
    assert Name(j) == "segment_" + (a + ".ts") && Name(k) == "segment_" + (b + ".ts");
    LessAfterPrefix("segment_", a + ".ts", b + ".ts");
    LessBeforeSuffix(a, b, ".ts", ".ts");
    LessIrreflexive(".ts");
  }

  /** Reading a decimal number. */
  function Read(s: string): int {
    if s == [] then 0 else 10 * Read(s[..|s| - 1]) + (s[|s| - 1] as int - '0' as int)
  }

  lemma {:induction false} ReadPadded(k: nat, w: nat)
    requires k < Pow10(w)
    ensures Read(Padded(k, w)) == k
  {
    if w > 0 {
      ReadPadded(k / 10, w - 1);
      assert Padded(k, w)[..w - 1] == Padded(k / 10, w - 1);
    }
  }

  lemma {:induction false} ReadDecimal(k: nat)
    ensures Read(Decimal(k)) == k
  {
    var s := Decimal(k);
    if k < 10 {
      assert s[..|s| - 1] == [];
    } else {
      ReadDecimal(k / 10);
      assert s[..|s| - 1] == Decimal(k / 10);
    }
  }

  lemma {:induction false} DecimalLength(k: nat, w: nat)
    ensures w > 0 ==> (|Decimal(k)| <= w <==> k < Pow10(w))
    decreases k
  {
    if 10 <= k && w > 1 { DecimalLength(k / 10, w - 1); }
    if w == 1 { assert Pow10(1) == 10 * Pow10(0); }
  }

  /** A name is a decimal number of at least six digits in a fixed frame, so every file has its own,
      beyond a million too. */
  lemma {:induction false} NameHoldsNumber(k: nat)
    ensures Name(k) == "segment_" + Number06(k) + ".ts"
    ensures Read(Number06(k)) == k && |Number06(k)| >= 6 && (|Number06(k)| == 6 <==> k < 1000000)
  {
    assert Pow10(6) == 1000000;
    if k < 1000000 {
      ReadPadded(k, 6);
    } else {
      ReadDecimal(k);
      DecimalLength(k, 6);
    }
  }

  lemma {:induction false} NamesDistinct(j: nat, k: nat)
    ensures Name(j) == Name(k) <==> j == k
  {
    NameHoldsNumber(j);
    NameHoldsNumber(k);
    assert Name(j)[8..|Name(j)| - 3] == Number06(j) && Name(k)[8..|Name(k)| - 3] == Number06(k);
  }

  lemma {:induction false} MillionSortsEarly()
    ensures !Less(Name(999999), Name(1000000))
  {
    assert Padded(999999, 6)[0] == '9' by {
      assert Padded(999999, 6)[0] == Padded(99999, 5)[0] == Padded(9999, 4)[0] == Padded(999, 3)[0]
             == Padded(99, 2)[0] == Padded(9, 1)[0];
    }
    assert Decimal(1000000)[0] == '1' by {
      assert Decimal(1000000)[0] == Decimal(100000)[0] == Decimal(10000)[0] == Decimal(1000)[0]
             == Decimal(100)[0] == Decimal(10)[0] == Decimal(1)[0];
    }
    var a, b := Padded(999999, 6) + ".ts", Decimal(1000000) + ".ts";
    assert Name(999999) == "segment_" + a && Name(1000000) == "segment_" + b;
    LessAfterPrefix("segment_", a, b);
    assert a[0] == '9' && b[0] == '1';
  }

  /** Sorting the names of n consecutively numbered files gives the numbering order exactly up to
      a million files. */
  lemma {:induction false} SortedIffFitsSixDigits(n: nat)
    ensures (forall j, k | 0 <= j < k < n :: Less(Name(j), Name(k))) <==> n <= 1000000
  {
    if n <= 1000000 {
      forall j, k | 0 <= j < k < n
        ensures Less(Name(j), Name(k))
      {
        NameOrder(j, k);
      }
    } else {
      MillionSortsEarly();
    }
  }

  /** What salvage relies on: after a capture whose failures came last in every batch, the sorted
      names of at most a million files are the files in collection order. */
  lemma {:induction false} SalvageOrder(polls: seq<Poll>)
    requires AllSuffixFailures(polls) && |Capture(polls).collected| <= 1000000
    ensures var c := Capture(polls).collected;
            forall i, j | 0 <= i < j < |c| :: Less(Name(c[i].index), Name(c[j].index))
  {
    NumberedIffSuffixFailures(polls);
    SortedIffFitsSixDigits(|Capture(polls).collected|);
  }
}
