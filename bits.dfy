/**
 * Bit strings as the simulator handles them: strings of the characters
 * '0' and '1', and their numeric form (what `parseInt(c, 2)` yields).
 */
module Bits {

  /** A numeric bit, as held in the number arrays of the codecs. */
  type Bit = b: int | 0 <= b <= 1

  predicate IsBit(c: char) {
    c == '0' || c == '1'
  }

  /** Every character is '0' or '1'. */
  predicate IsBits(s: seq<char>) {
    forall i :: 0 <= i < |s| ==> IsBit(s[i])
  }

  /** `parseInt(c, 2)` on a binary digit. */
  function Value(c: char): Bit {
    if c == '1' then 1 else 0
  }

  /** `String(b)` on a numeric bit. */
  function Digit(b: Bit): (c: char)
    ensures IsBit(c) && Value(c) == b
  {
    if b == 1 then '1' else '0'
  }

  /** `s.split('').map(bit => parseInt(bit, 2))` */
  function Values(s: seq<char>): (r: seq<Bit>)
    ensures |r| == |s|
  {
    seq(|s|, i requires 0 <= i < |s| => Value(s[i]))
  }

  /** `bits.join('')` on an array of numeric bits. */
  function Digits(b: seq<Bit>): (r: seq<char>)
    ensures |r| == |b| && IsBits(r)
  {
    seq(|b|, i requires 0 <= i < |b| => Digit(b[i]))
  }

  lemma DigitsOfValues(s: seq<char>)
    requires IsBits(s)
    ensures Digits(Values(s)) == s
  {
  }

  lemma ValuesOfDigits(b: seq<Bit>)
    ensures Values(Digits(b)) == b
  {
  }

  /** Exclusive or of two numeric bits: `(a ^ b) % 2` in the source. */
  function Xor(a: Bit, b: Bit): Bit {
    if a == b then 0 else 1
  }

  /** The character flip used throughout: `c === '0' ? '1' : '0'`. */
  function Flip(c: char): (r: char)
    ensures IsBit(r) && r != c
  {
    if c == '0' then '1' else '0'
  }

  lemma FlipTwice(c: char)
    requires IsBit(c)
    ensures Flip(Flip(c)) == c
  {
  }

  /** `s` with the character at `i` flipped and every other one kept. */
  function FlipAt(s: seq<char>, i: int): (r: seq<char>)
    requires 0 <= i < |s|
    ensures |r| == |s| && r[i] == Flip(s[i])
    ensures forall j :: 0 <= j < |s| && j != i ==> r[j] == s[j]
  {
    s[i := Flip(s[i])]
  }

  /** A string of `n` zero characters (`padEnd` filler). */
  function Zeros(n: nat): (r: seq<char>)
    ensures |r| == n && IsBits(r)
    ensures forall i :: 0 <= i < n ==> r[i] == '0'
  {
    seq(n, _ => '0')
  }

  /** The number of '1' characters: `s.split('').filter(bit => bit === '1').length`. */
  function CountOnes(s: seq<char>): (n: nat)
    ensures n <= |s|
  {
    if |s| == 0 then 0
    else CountOnes(s[..|s| - 1]) + (if s[|s| - 1] == '1' then 1 else 0)
  }

  lemma {:induction false} CountOnesAppend(a: seq<char>, b: seq<char>)
    ensures CountOnes(a + b) == CountOnes(a) + CountOnes(b)
    decreases |b|
  {
    if |b| == 0 {
      assert a + b == a;
    } else {
      assert (a + b)[..|a + b| - 1] == a + b[..|b| - 1];
      CountOnesAppend(a, b[..|b| - 1]);
    }
  }

  lemma CountOnesSingleton(c: char)
    ensures CountOnes([c]) == if c == '1' then 1 else 0
  {
    assert [c][..0] == [];
  }

  /** Flipping one binary digit changes the number of ones by exactly one. */
  lemma {:induction false} CountOnesFlipAt(s: seq<char>, i: int)
    requires 0 <= i < |s| && IsBit(s[i])
    ensures CountOnes(FlipAt(s, i)) == CountOnes(s) + (if s[i] == '0' then 1 else -1)
    decreases |s|
  {
    var t := FlipAt(s, i);
    var last := |s| - 1;
    if i == last {
      assert t[..last] == s[..last];
    } else {
      assert t[..last] == FlipAt(s[..last], i);
      CountOnesFlipAt(s[..last], i);
    }
  }
}
