/** The bit sets of terminals of the generator's leads (`token_set_t`): 32-bit words
    updated in place; copying the C struct is taking `bits[..]`. */
module TokenSets {
  import opened Words

  // Three special tokens and the 89 entries of the token list.
  const MAX_TOKENS: nat := 92
  const WORDS: nat := (MAX_TOKENS + 31) / 32
  const CAPACITY: nat := 32 * WORDS

  const TKN_INVALID: int := 0
  const TKN_SOF: int := 1
  const TKN_EOF: int := 2

  /** A grammar symbol smaller than MAX_TOKENS is a token; 0 ends a variant. */
  type Token = t: int | 0 < t < MAX_TOKENS witness 1

  /** The value of a `token_set_t`. */
  type Bits = s: seq<Word> | |s| == WORDS witness [0, 0, 0]

  /** Bit i of a word: the test `w & (1 << i)`. */
  predicate Bit(w: nat, i: nat) {
    if i == 0 then w % 2 == 1 else Bit(w / 2, i - 1)
  }

  /** The word `w | (1 << i)`, of width n. */
  function SetBit(w: nat, i: nat, n: nat): (r: nat)
    requires i < n && w < Pow2(n)
    ensures r < Pow2(n)
  {
    assert w / 2 < Pow2(n - 1);
    if i == 0 then 1 + 2 * (w / 2) else w % 2 + 2 * SetBit(w / 2, i - 1, n - 1)
  }

  /** The bitwise disjunction `a | b` of two words of width n. */
  function Or(a: nat, b: nat, n: nat): (r: nat)
    requires a < Pow2(n) && b < Pow2(n)
    ensures r < Pow2(n)
  {
    if n == 0 then 0
    else (if a % 2 == 1 || b % 2 == 1 then 1 else 0) + 2 * Or(a / 2, b / 2, n - 1)
  }

  predicate Contains(s: Bits, t: int)
    requires 0 <= t < CAPACITY
  {
    Bit(s[t / 32], t % 32)
  }

  /** The set of tokens that a bit pattern denotes. */
  ghost function Elems(s: Bits): (e: set<int>)
    ensures forall t :: t in e ==> 0 <= t < CAPACITY
  {
    set t | 0 <= t < CAPACITY && Contains(s, t)
  }

  // ---------------------------------------------------------------- single words

  lemma {:induction false} BitOfSet(w: nat, i: nat, n: nat, j: nat)
    requires i < n && w < Pow2(n)
    ensures Bit(SetBit(w, i, n), j) <==> i == j || Bit(w, j)
  {
    if i > 0 && j > 0 {
      BitOfSet(w / 2, i - 1, n - 1, j - 1);
    }
  }

  lemma {:induction false} BitOfOr(a: nat, b: nat, n: nat, j: nat)
    requires a < Pow2(n) && b < Pow2(n) && j < n
    ensures Bit(Or(a, b, n), j) <==> Bit(a, j) || Bit(b, j)
  {
    if j > 0 {
      BitOfOr(a / 2, b / 2, n - 1, j - 1);
    }
  }

  lemma {:induction false} BitOfZero(j: nat)
    ensures !Bit(0, j)
  {
    if j > 0 {
      BitOfZero(j - 1);
    }
  }

  /** Different words differ in some bit. */
  lemma {:induction false} DifferingBit(a: nat, b: nat, n: nat) returns (i: nat)
    requires a != b && a < Pow2(n) && b < Pow2(n)
    ensures i < n && Bit(a, i) != Bit(b, i)
  {
    if a % 2 != b % 2 {
      i := 0;
    } else {
      i := DifferingBit(a / 2, b / 2, n - 1);
      i := i + 1;
    }
  }

  // ------------------------------------------------------------------- operations

  /** Two patterns are equal exactly when they denote the same set. */
  lemma {:induction false} ElemsInjective(a: Bits, b: Bits)
    ensures Elems(a) == Elems(b) <==> a == b
  {
    if a != b {
      WidthOfWord();
      var u :| 0 <= u < WORDS && a[u] != b[u];
      var i := DifferingBit(a[u], b[u], 32);
      var t := 32 * u + i;
      assert t / 32 == u && t % 32 == i;
      assert Contains(a, t) != Contains(b, t);
      assert t in Elems(a) <==> t !in Elems(b);
    }
  }

  method TokenSetInit() returns (bits: array<Word>)
    ensures fresh(bits) && bits.Length == WORDS
    ensures Elems(bits[..]) == {}
  {
    bits := new Word[WORDS](_ => 0);
    forall t: int | 0 <= t < CAPACITY
      ensures !Contains(bits[..], t)
    {
      BitOfZero(t % 32);
    }
  }

  method TokenSetInsert(bits: array<Word>, token: int)
    requires bits.Length == WORDS && 0 <= token < CAPACITY
    modifies bits
    ensures Elems(bits[..]) == old(Elems(bits[..])) + {token}
  {
    WidthOfWord();
    ghost var was := bits[..];
    bits[token / 32] := SetBit(bits[token / 32], token % 32, 32);
    forall t: int | 0 <= t < CAPACITY
      ensures Contains(bits[..], t) <==> Contains(was, t) || t == token
    {
      if t / 32 == token / 32 {
        BitOfSet(was[t / 32], token % 32, 32, t % 32);
      }
    }
  }

  method TokenSetMerge(bits: array<Word>, other: Bits)
    requires bits.Length == WORDS
    modifies bits
    ensures Elems(bits[..]) == old(Elems(bits[..])) + Elems(other)
  {
    WidthOfWord();
    ghost var was := bits[..];
    for i := 0 to WORDS
      invariant forall u :: 0 <= u < i ==> bits[u] == Or(was[u], other[u], 32)
      invariant forall u :: i <= u < WORDS ==> bits[u] == was[u]
    {
      bits[i] := Or(bits[i], other[i], 32);
    }
    forall t: int | 0 <= t < CAPACITY
      ensures Contains(bits[..], t) <==> Contains(was, t) || Contains(other, t)
    {
      BitOfOr(was[t / 32], other[t / 32], 32, t % 32);
    }
  }

  method EqualTokenSets(a: Bits, b: Bits) returns (equal: bool)
    ensures equal <==> Elems(a) == Elems(b)
  {
    ElemsInjective(a, b);
    for i := 0 to WORDS
      invariant a[..i] == b[..i]
    {
      if a[i] != b[i] {
        return false;
      }
    }
    assert a[..WORDS] == a && b[..WORDS] == b;
    return true;
  }

  // --------------------------------------------------------------------- ordering

  /** Lexicographic comparison of the words, as -1, 0 or 1. */
  function CompareWords(a: seq<Word>, b: seq<Word>): (c: int)
    requires |a| == |b|
    ensures c == 0 <==> a == b
    ensures -1 <= c <= 1
  {
    if a == [] then 0
    else if a[0] < b[0] then -1
    else if a[0] > b[0] then 1
    else
      assert a == [a[0]] + a[1..] && b == [b[0]] + b[1..];
      CompareWords(a[1..], b[1..])
  }

  lemma {:induction false} CompareWordsAntisymmetric(a: seq<Word>, b: seq<Word>)
    requires |a| == |b|
    ensures CompareWords(a, b) == -CompareWords(b, a)
  {
    if a != [] && a[0] == b[0] {
      CompareWordsAntisymmetric(a[1..], b[1..]);
    }
  }

  lemma {:induction false} CompareWordsTransitive(a: seq<Word>, b: seq<Word>, c: seq<Word>)
    requires |a| == |b| == |c|
    requires CompareWords(a, b) <= 0 && CompareWords(b, c) <= 0
    ensures CompareWords(a, c) <= 0
  {
    if a != [] && a[0] == b[0] == c[0] {
      CompareWordsTransitive(a[1..], b[1..], c[1..]);
    }
  }

  method CompareTokenSets(a: Bits, b: Bits) returns (c: int)
    ensures c == CompareWords(a, b)
  {
    for i := 0 to WORDS
      invariant CompareWords(a, b) == CompareWords(a[i..], b[i..])
    {
      if a[i] < b[i] { return -1; }
      if a[i] > b[i] { return 1; }
    }
    return 0;
  }
}
