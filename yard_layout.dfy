/** The yard's block names: one letter per row ("C", "B", "A") followed by the
    zero-padded block number 01..05, listed row by row. */
module YardLayout {

  /** The row letters, in the order the name list enumerates them. */
  const RowLetters: string := "CBA"

  /** Block numbers run over the half-open range [FirstNumber, EndNumber). */
  const FirstNumber: nat := 1
  const EndNumber: nat := 6

  /** The character of a decimal digit. */
  function DigitChar(d: nat): (c: char)
    requires d < 10
    ensures '0' <= c <= '9'
    ensures (c as int) - ('0' as int) == d
  {
    ('0' as int + d) as char
  }

  predicate IsDigits(s: string)
  {
    forall k :: 0 <= k < |s| ==> '0' <= s[k] <= '9'
  }

  /** The number a string of decimal digits stands for, most significant digit first. */
  function DigitsValue(s: string): nat
    requires IsDigits(s)
  {
    if s == [] then 0
    else DigitsValue(s[..|s| - 1]) * 10 + ((s[|s| - 1] as int) - ('0' as int))
  }

  /** `str(n)`: the decimal text of a natural number, without leading zeros. */
  function Decimal(n: nat): (s: string)
    ensures 1 <= |s|
    ensures IsDigits(s)
    ensures DigitsValue(s) == n
    ensures 0 < n ==> s[0] != '0'
    ensures n < 10 <==> |s| == 1
  {
    if n < 10 then [DigitChar(n)]
    else
      var high, low := Decimal(n / 10), [DigitChar(n % 10)];
      assert (high + low)[..|high + low| - 1] == high;
      high + low
  }

  /** `s.zfill(width)` for an unsigned digit string: left-padded with '0' up to
      `width` characters; a longer `s` is unchanged. */
  function ZFill(s: string, width: nat): (r: string)
    requires IsDigits(s)
    ensures |r| == if |s| < width then width else |s|
    ensures r[|r| - |s|..] == s
    ensures forall k :: 0 <= k < |r| - |s| ==> r[k] == '0'
  {
    if |s| >= width then s else seq(width - |s|, _ => '0') + s
  }

  /** The name of block `num` in the row of `letter`. */
  function BlockName(letter: char, num: nat): string
  {
    [letter] + ZFill(Decimal(num), 2)
  }

  /** The names of one row, numbers lo .. hi-1 in ascending order. */
  function Row(letter: char, lo: nat, hi: nat): seq<string>
    requires lo <= hi
  {
    seq(hi - lo, j requires 0 <= j < hi - lo => BlockName(letter, lo + j))
  }

  /** The names of every row in `letters`, row after row. */
  function Grid(letters: string, lo: nat, hi: nat): seq<string>
    requires lo <= hi
  {
    if letters == [] then [] else Row(letters[0], lo, hi) + Grid(letters[1..], lo, hi)
  }

  /** The list of all yard block names. */
  function YardBlocks(): seq<string>
  {
    Grid(RowLetters, FirstNumber, EndNumber)
  }

  /** A one-digit number is padded to a leading '0' and its digit. */
  lemma SmallBlockName(letter: char, num: nat)
    requires num < 10
    ensures BlockName(letter, num) == [letter, '0', DigitChar(num)]
  {
    assert ZFill([DigitChar(num)], 2) == ZFill(['0', DigitChar(num)], 2);
  }

  /** The yard has 15 blocks; entry i is row letter i / 5 with number i % 5 + 1, so
      the list runs C01..C05, B01..B05, A01..A05. */
  lemma YardBlocksLayout()
    ensures |YardBlocks()| == 15
    ensures forall i :: 0 <= i < 15 ==> YardBlocks()[i] == [RowLetters[i / 5], '0', DigitChar(i % 5 + 1)]
  {
    var c, b, a := Row('C', 1, 6), Row('B', 1, 6), Row('A', 1, 6);
    assert Grid("A", 1, 6) == a + Grid("", 1, 6);
    assert YardBlocks() == c + (b + (a + []));
    forall i | 0 <= i < 15
      ensures YardBlocks()[i] == [RowLetters[i / 5], '0', DigitChar(i % 5 + 1)]
    {
      SmallBlockName(RowLetters[i / 5], i % 5 + 1);
      if i < 5 {
        assert YardBlocks()[i] == c[i];
      } else if i < 10 {
        assert YardBlocks()[i] == b[i - 5];
      } else {
        assert YardBlocks()[i] == a[i - 10];
      }
    }
  }

  /** No block name occurs twice. */
  lemma YardBlocksDistinct()
    ensures forall i, j :: 0 <= i < j < |YardBlocks()| ==> YardBlocks()[i] != YardBlocks()[j]
  {
    YardBlocksLayout();
    forall i, j | 0 <= i < j < |YardBlocks()|
      ensures YardBlocks()[i] != YardBlocks()[j]
    {
      if i / 5 == j / 5 {
        assert i % 5 != j % 5;
        assert YardBlocks()[i][2] != YardBlocks()[j][2];
      } else {
        assert YardBlocks()[i][0] != YardBlocks()[j][0];
      }
    }
  }
}
