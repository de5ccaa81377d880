/** Single even-parity bit: the first codec of the simulator. */
module Parity {
  import opened Bits

  /** True when the string holds an even number of '1' characters. */
  predicate CheckParity(data: seq<char>) {
    CountOnes(data) % 2 == 0
  }

  /**
   * Appends the even-parity bit. Any string is accepted, the empty one
   * included; the result always passes `CheckParity`.
   */
  function AddParityBit(data: seq<char>): (r: seq<char>)
    ensures |r| == |data| + 1 && r[..|data|] == data && IsBit(r[|data|])
    ensures CheckParity(r)
    ensures IsBits(data) ==> IsBits(r)
  {
    var parityBit := if CountOnes(data) % 2 == 0 then '0' else '1';
    CountOnesAppend(data, [parityBit]);
    assert CountOnes([parityBit]) == if parityBit == '1' then 1 else 0 by {
      assert [parityBit][..0] == [];
    }
    data + [parityBit]
  }

  /** A single flipped bit anywhere in an even-parity string is detected. */
  lemma SingleFlipDetected(data: seq<char>, i: int)
    requires IsBits(data) && 0 <= i <= |data|
    ensures !CheckParity(FlipAt(AddParityBit(data), i))
  {
    CountOnesFlipAt(AddParityBit(data), i);
  }

  /** Two flips at distinct positions restore even parity: the error goes unnoticed. */
  lemma DoubleFlipUndetected(data: seq<char>, i: int, j: int)
    requires IsBits(data) && 0 <= i <= |data| && 0 <= j <= |data| && i != j
    ensures CheckParity(FlipAt(FlipAt(AddParityBit(data), i), j))
  {
    var e := AddParityBit(data);
    CountOnesFlipAt(e, i);
    CountOnesFlipAt(FlipAt(e, i), j);
  }

  /**
   * The check accepts a binary word exactly when its last bit is the parity
   * bit `AddParityBit` would append to the rest.
   */
  lemma {:induction false} CheckMeansParityBit(w: seq<char>)
    requires IsBits(w) && |w| >= 1
    ensures CheckParity(w) <==> AddParityBit(w[..|w| - 1]) == w
  {
    var rest := w[..|w| - 1];
    assert w == rest + [w[|w| - 1]];
    CountOnesAppend(rest, [w[|w| - 1]]);
    CountOnesSingleton(w[|w| - 1]);
    if AddParityBit(rest) == w {
      assert CheckParity(AddParityBit(rest));
    }
  }

  /** The two-flip blind spot on a concrete string: "1010" encodes to "10100",
      and flipping positions 0 and 1 gives "01100", which still checks. */
  lemma TwoFlipExample()
    ensures AddParityBit("1010") == "10100"
    ensures FlipAt(FlipAt("10100", 0), 1) == "01100"
    ensures CheckParity("01100")
  {
    assert FlipAt("10100", 0) == "00100";
    assert CountOnes("1010") == 2 by {
      assert "1010"[..3] == "101";
      assert "101"[..2] == "10";
      assert "10"[..1] == "1";
    }
    assert CountOnes("01100") == 2 by {
      assert "01100"[..4] == "0110";
      assert "0110"[..3] == "011";
      assert "011"[..2] == "01";
      assert "01"[..1] == "0";
    }
  }
}
