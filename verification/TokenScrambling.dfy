/** The stride-7 token scrambling: `FanslyConfig.get_unscrambled_token` and the transformation
    it has to undo. */
module TokenScrambling {

  import opened Options

  const STRIDE: nat := 7
  const SUFFIX: string := "fNs"

  /** Number of positions below n whose remainder modulo the stride is `offset`. */
  function Column(n: nat, offset: nat): nat
    requires offset < STRIDE
  {
    (n - offset + STRIDE - 1) / STRIDE
  }

  /** Number of positions below n whose remainder is below `offset`. */
  function Before(n: nat, offset: nat): nat
    requires offset <= STRIDE
  {
    if offset == 0 then 0 else Before(n, offset - 1) + Column(n, offset - 1)
  }

  lemma {:induction false} ColumnSize(n: nat, offset: nat)
    requires offset < STRIDE
    ensures Column(n, offset) == n / STRIDE + if offset < n % STRIDE then 1 else 0
  {
  }

  lemma {:induction false} BeforeSize(n: nat, offset: nat)
    requires offset <= STRIDE
    ensures Before(n, offset) == offset * (n / STRIDE) + if offset < n % STRIDE then offset else n % STRIDE
  {
    hide Column;
    var q := n / STRIDE;
    if offset > 0 {
      BeforeSize(n, offset - 1);
      ColumnSize(n, offset - 1);
      assert offset * q == (offset - 1) * q + q;
    }
  }

  lemma {:induction false} ColumnsCoverAll(n: nat)
    ensures Before(n, STRIDE) == n
  {
    BeforeSize(n, STRIDE);
  }

  lemma {:induction false} BeforeGrows(n: nat, low: nat, high: nat)
    requires low < high <= STRIDE
    ensures Before(n, low) + Column(n, low) <= Before(n, high)
    decreases high
  {
    if low + 1 < high { BeforeGrows(n, low, high - 1); }
  }

  /** Reading order: the scrambled index whose character belongs at position p. */
  function Rank(n: nat, p: nat): nat
    requires p < n
  {
    Before(n, p % STRIDE) + p / STRIDE
  }

  lemma {:induction false} RankInColumn(n: nat, p: nat)
    requires p < n
    ensures p / STRIDE < Column(n, p % STRIDE)
  {
    var q, r := p / STRIDE, p % STRIDE;
    assert p == STRIDE * q + r;
    assert n - r + STRIDE - 1 >= STRIDE * (q + 1);
  }

  lemma {:induction false} RankInRange(n: nat, p: nat)
    requires p < n
    ensures Rank(n, p) < n
  {
    RankInColumn(n, p);
    BeforeGrows(n, p % STRIDE, STRIDE);
    ColumnsCoverAll(n);
  }

  lemma {:induction false} RankInjective(n: nat, p: nat, q: nat)
    requires p < n && q < n && Rank(n, p) == Rank(n, q)
    ensures p == q
  {
    RankInColumn(n, p);
    RankInColumn(n, q);
    var a, b := p % STRIDE, q % STRIDE;
    if a < b { BeforeGrows(n, a, b); }
    if b < a { BeforeGrows(n, b, a); }
    assert p == STRIDE * (p / STRIDE) + a && q == STRIDE * (q / STRIDE) + b;
  }

  /** The position that index k of the scrambled text fills, searched from the column `offset`. */
  function PositionFrom(n: nat, k: nat, offset: nat): (p: nat)
    requires offset <= STRIDE && Before(n, offset) <= k < n
    ensures p < n && Rank(n, p) == k
    decreases STRIDE - offset
  {
    ColumnsCoverAll(n);
    if k < Before(n, offset) + Column(n, offset) then
      var j := k - Before(n, offset);
      assert offset + STRIDE * j < n;
      assert (offset + STRIDE * j) % STRIDE == offset && (offset + STRIDE * j) / STRIDE == j;
      offset + STRIDE * j
    else
      PositionFrom(n, k, offset + 1)
  }

  function Position(n: nat, k: nat): (p: nat)
    requires k < n
    ensures p < n && Rank(n, p) == k
  {
    PositionFrom(n, k, 0)
  }

  /** Reading a text out in stride-7 order: what the unscrambler inverts. */
  function Scramble(plain: string): (scrambled: string)
    ensures |scrambled| == |plain|
  {
    seq(|plain|, k requires 0 <= k < |plain| => plain[Position(|plain|, k)])
  }

  function Unscramble(scrambled: string): (plain: string)
    ensures |plain| == |scrambled|
  {
    seq(|scrambled|, p requires 0 <= p < |scrambled| => RankInRange(|scrambled|, p); scrambled[Rank(|scrambled|, p)])
  }

  /** The reading order: the positions 0, 7, 14, ... first, then 1, 8, 15, ... and so on. */
  lemma {:induction false} RankOrder(n: nat, p: nat, q: nat)
    requires p < n && q < n
    ensures Rank(n, p) < Rank(n, q) <==> p % 7 < q % 7 || (p % 7 == q % 7 && p < q)
  {
    RankInColumn(n, p);
    RankInColumn(n, q);
    var a, b := p % STRIDE, q % STRIDE;
    if a < b { BeforeGrows(n, a, b); }
    if b < a { BeforeGrows(n, b, a); }
    assert p == STRIDE * (p / STRIDE) + a && q == STRIDE * (q / STRIDE) + b;
  }

  /** Character k of the scrambled text is the k-th in that order. */
  lemma {:induction false} ScrambleOrder(plain: string, j: nat, k: nat)
    requires j < k < |plain|
    ensures var p, q := Position(|plain|, j), Position(|plain|, k);
            && Scramble(plain)[j] == plain[p] && Scramble(plain)[k] == plain[q]
            && (p % 7 < q % 7 || (p % 7 == q % 7 && p < q))
  {
    hide Rank;
    RankOrder(|plain|, Position(|plain|, j), Position(|plain|, k));
  }

  /** Both compositions are the identity: the fill is a permutation and reading out is its inverse. */
  lemma {:induction false} TwoSidedInverse(text: string)
    ensures Unscramble(Scramble(text)) == text
    ensures Scramble(Unscramble(text)) == text
  {
    var n := |text|;
    forall p | 0 <= p < n
      ensures Unscramble(Scramble(text))[p] == text[p]
    {
      RankInRange(n, p);
      RankInjective(n, Position(n, Rank(n, p)), p);
    }
  }

  /** The two nested loops of the source.  `writes` logs the positions in the order they are
      filled: a permutation of all positions, each written once. */
  method FillStrided(scrambled: string) returns (chars: seq<char>, ghost writes: seq<nat>)
    ensures chars == Unscramble(scrambled)
    ensures |writes| == |scrambled|
    ensures forall i | 0 <= i < |writes| :: writes[i] < |scrambled| && Rank(|scrambled|, writes[i]) == i
  {
    hide Column;
    var n := |scrambled|;
    var unscrambled := new char[n];
    var scrambledIndex := 0;
    writes := [];
    for offset := 0 to STRIDE
      invariant scrambledIndex == Before(n, offset) == |writes|
      invariant forall i | 0 <= i < |writes| :: writes[i] < n && Rank(n, writes[i]) == i
      invariant forall p | 0 <= p < n && p % STRIDE < offset ::
                  Rank(n, p) < n && unscrambled[p] == scrambled[Rank(n, p)]
    {
      var position := offset;
      ghost var turn := 0;
      while position < n
        invariant position == offset + STRIDE * turn && turn <= Column(n, offset)
        invariant scrambledIndex == Before(n, offset) + turn == |writes|
        invariant forall i | 0 <= i < |writes| :: writes[i] < n && Rank(n, writes[i]) == i
        invariant forall p | 0 <= p < n && (p % STRIDE < offset || (p % STRIDE == offset && p < position)) ::
                    Rank(n, p) < n && unscrambled[p] == scrambled[Rank(n, p)]
      {
        PositionsOfColumn(n, offset, turn);
        RankInRange(n, position);
        unscrambled[position] := scrambled[scrambledIndex];
        writes := writes + [position];
        scrambledIndex := scrambledIndex + 1;
        NextInColumn(n, offset, turn);
        position := position + STRIDE;
        turn := turn + 1;
      }
      ColumnDone(n, offset, turn);
    }
    ColumnsCoverAll(n);
    chars := unscrambled[..];
  }

  lemma {:induction false} PositionsOfColumn(n: nat, offset: nat, turn: nat)
    requires offset < STRIDE && offset + STRIDE * turn < n
    ensures (offset + STRIDE * turn) % STRIDE == offset
    ensures Rank(n, offset + STRIDE * turn) == Before(n, offset) + turn
  {
    assert (offset + STRIDE * turn) / STRIDE == turn;
  }

  lemma {:induction false} NextInColumn(n: nat, offset: nat, turn: nat)
    requires offset < STRIDE && offset + STRIDE * turn < n
    ensures turn + 1 <= Column(n, offset)
    ensures forall p | 0 <= p < n && p % STRIDE == offset && p < offset + STRIDE * (turn + 1) ::
              p < offset + STRIDE * turn || p == offset + STRIDE * turn
  {
  }

  lemma {:induction false} ColumnDone(n: nat, offset: nat, turn: nat)
    requires offset < STRIDE && n <= offset + STRIDE * turn && turn <= Column(n, offset)
    ensures turn == Column(n, offset)
  {
  }

  predicate InSuffix(c: char) { c == 'f' || c == 'N' || c == 's' }

  /** `rstrip("fNs")`: drops every trailing character of the set, not the suffix. */
  function StripRight(s: string): (r: string)
    ensures r <= s
    ensures r == [] || !InSuffix(r[|r| - 1])
    ensures forall i | |r| <= i < |s| :: InSuffix(s[i])
  {
    if s != [] && InSuffix(s[|s| - 1]) then StripRight(s[..|s| - 1]) else s
  }

  function Unscrambled(token: Option<string>): Option<string> {
    match token
    case None => None
    case Some(t) =>
      if HasSuffix(t) then Some(Unscramble(StripRight(t))) else token
  }

  predicate HasSuffix(t: string) { |t| >= 3 && t[|t| - 3..] == SUFFIX }

  /** Tokens with the suffix are unscrambled; every other one, and the absent one, comes back as it was. */
  method GetUnscrambledToken(token: Option<string>) returns (result: Option<string>)
    ensures result == Unscrambled(token)
    ensures token.None? ==> result == None
    ensures token.Some? && (forall s: string :: token.value != s + "fNs") ==> result == token
    ensures token.Some? ==> result.Some?
  {
    if token.Some? && HasSuffix(token.value) {
      assert token.value == token.value[..|token.value| - 3] + "fNs";
    }
    if token.Some? {
      var t := token.value;
      if HasSuffix(t) {
        var chars, _ := FillStrided(StripRight(t));
        return Some(chars);
      }
    }
    return token;
  }

  lemma {:induction false} StripSuffix(s: string)
    requires s == [] || !InSuffix(s[|s| - 1])
    ensures StripRight(s + SUFFIX) == s
  {
    var t := s + SUFFIX;
    assert t[..|t| - 1] == s + "fN";
    assert (s + "fN")[..|s| + 1] == s + "f";
    assert (s + "f")[..|s|] == s;
    assert StripRight(s) == s;
    assert StripRight(s + "f") == s;
    assert StripRight(s + "fN") == s;
  }

  /** The position of the plain text whose character is read out last. */
  function LastRead(n: nat): nat
    requires n > 0
  {
    if n < STRIDE then n - 1 else n / STRIDE * STRIDE - 1
  }

  lemma {:induction false} LastReadRanksLast(n: nat)
    requires n > 0
    ensures LastRead(n) < n && Rank(n, LastRead(n)) == n - 1
  {
    hide Before;
    var p, q := LastRead(n), n / STRIDE;
    if n < STRIDE {
      BeforeSize(n, p);
    } else {
      assert p == STRIDE * (q - 1) + 6;
      assert p % STRIDE == 6 && p / STRIDE == q - 1;
      BeforeSize(n, 6);
    }
  }

  lemma {:induction false} StripEatsToken(s: string)
    requires s != [] && InSuffix(s[|s| - 1])
    ensures |StripRight(s + SUFFIX)| < |s|
  {
    var t, r := s + SUFFIX, StripRight(s + SUFFIX);
    assert t[|s| - 1] == s[|s| - 1];
  }

  lemma {:induction false} LastScrambled(plain: string)
    requires plain != []
    ensures LastRead(|plain|) < |plain|
    ensures Scramble(plain)[|plain| - 1] == plain[LastRead(|plain|)]
  {
    hide Rank, LastRead, Position;
    LastReadRanksLast(|plain|);
    RankInjective(|plain|, Position(|plain|, |plain| - 1), LastRead(|plain|));
  }

  /** A token round-trips exactly when the character read out last is not one of the suffix
      characters; otherwise `rstrip` eats into the token. */
  lemma {:induction false} TokenRoundTrip(plain: string)
    ensures plain != [] ==> LastRead(|plain|) < |plain|
    ensures Unscrambled(Some(Scramble(plain) + SUFFIX)) == Some(plain)
            <==> (plain == [] || !InSuffix(plain[LastRead(|plain|)]))
  {
    hide Rank, LastRead, Position;
    var s := Scramble(plain);
    assert (s + SUFFIX)[|s + SUFFIX| - 3..] == SUFFIX;
    TwoSidedInverse(plain);
    if plain != [] { LastScrambled(plain); }
    if plain == [] || !InSuffix(s[|s| - 1]) {
      StripSuffix(s);
    } else {
      StripEatsToken(s);
    }
  }
}
