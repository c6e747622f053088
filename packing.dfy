/**
 * The byte layout of `Packrat`'s memo rows: per rule key, one string of
 * three bytes per input position. `\xFF` in a slot's first byte means
 * "unknown", `\xFE` means "failed", anything else starts the 24-bit
 * big-endian end position of a success (bytes 1..3 of `pack('N', $pos)`).
 */
module Packing {
  newtype byte = x: int | 0 <= x < 256

  const Unknown: byte := 0xFF
  const Failed: byte := 0xFE

  /** `unpack('N', "\x00\xFD\xFF\xFF")`: the longest input `Packrat` accepts. */
  const MaxLength: nat := 0x00FD_FFFF

  /** `pack('N', p)`: four big-endian bytes. */
  function PackN(p: nat): (r: seq<byte>)
    requires p < 0x1_0000_0000
    ensures |r| == 4
  {
    [(p / 0x100_0000) as byte, (p / 0x1_0000 % 0x100) as byte, (p / 0x100 % 0x100) as byte, (p % 0x100) as byte]
  }

  /** The three bytes `packwrite` copies into a slot: `$i[1]`, `$i[2]`, `$i[3]`. */
  function Encode(p: nat): (r: seq<byte>)
    requires p <= MaxLength
    ensures |r| == 3
  {
    PackN(p)[1..4]
  }

  /** `ord(a) << 16 | ord(b) << 8 | ord(c)`; the shifted bytes never overlap, so `|` is `+`. */
  function Decode(a: byte, b: byte, c: byte): nat {
    a as nat * 0x1_0000 + b as nat * 0x100 + c as nat
  }

  /**
   * Every position up to the length limit has a high byte of at most 0xFD,
   * so an encoded end position never reads as a sentinel, and decoding it
   * gives the position back.
   */
  lemma EncodeRoundTrip(p: nat)
    requires p <= MaxLength
    ensures Encode(p)[0] <= 0xFD
    ensures Encode(p)[0] != Unknown && Encode(p)[0] != Failed
    ensures Decode(Encode(p)[0], Encode(p)[1], Encode(p)[2]) == p
  {
    var hi, mid, lo := p / 0x1_0000, p / 0x100 % 0x100, p % 0x100;
    assert p / 0x100_0000 == 0;
    assert hi <= 0xFD;
    assert p / 0x1_0000 % 0x100 == hi;
    assert p == hi * 0x1_0000 + (p % 0x1_0000);
    assert p % 0x1_0000 == mid * 0x100 + lo;
  }

  /** The slot states a row can record for one position. */
  datatype Cell = Unset | Fail | EndAt(end: nat)

  predicate HasSlot(row: seq<byte>, p: nat) {
    3 * p + 3 <= |row|
  }

  function CellOf(row: seq<byte>, p: nat): Cell
    requires HasSlot(row, p)
  {
    if row[3 * p] == Unknown then Unset
    else if row[3 * p] == Failed then Fail
    else EndAt(Decode(row[3 * p], row[3 * p + 1], row[3 * p + 2]))
  }

  /** A row in which nothing is recorded for positions 0..n (the `\xFF`-filled `packstatebase`). */
  function FreshRow(n: nat): (row: seq<byte>)
    ensures |row| == 3 * (n + 1)
    ensures forall p: nat :: p <= n ==> HasSlot(row, p) && CellOf(row, p) == Unset
  {
    seq(3 * (n + 1), _ => Unknown)
  }

  /** Records the success end position `e` at slot `p`. */
  function WriteEnd(row: seq<byte>, p: nat, e: nat): (r: seq<byte>)
    requires HasSlot(row, p) && e <= MaxLength
    ensures |r| == |row|
    ensures CellOf(r, p) == EndAt(e)
    ensures forall q: nat :: HasSlot(row, q) && q != p ==> CellOf(r, q) == CellOf(row, q)
  {
    var b := Encode(p := e);
    EncodeRoundTrip(e);
    var r := row[3 * p := b[0]][3 * p + 1 := b[1]][3 * p + 2 := b[2]];
    assert forall q: nat :: HasSlot(row, q) && q != p ==>
      r[3 * q] == row[3 * q] && r[3 * q + 1] == row[3 * q + 1] && r[3 * q + 2] == row[3 * q + 2];
    r
  }

  /** Records a failure at slot `p`: only the slot's first byte is overwritten. */
  function WriteFail(row: seq<byte>, p: nat): (r: seq<byte>)
    requires HasSlot(row, p)
    ensures |r| == |row|
    ensures CellOf(r, p) == Fail
    ensures forall q: nat :: HasSlot(row, q) && q != p ==> CellOf(r, q) == CellOf(row, q)
  {
    var r := row[3 * p := Failed];
    assert forall q: nat :: HasSlot(row, q) && q != p ==>
      r[3 * q] == row[3 * q] && r[3 * q + 1] == row[3 * q + 1] && r[3 * q + 2] == row[3 * q + 2];
    r
  }

  // ---------------------------------------------------------------------------------------------
  // The row exactly as the constructor sizes it: `str_repeat("\xFF", strlen($string) * 3)`.

  function FreshRowAsWritten(n: nat): (row: seq<byte>)
    ensures |row| == 3 * n
  {
    seq(3 * n, _ => Unknown)
  }

  /**
   * `packhas` on a row of a key that has been written: reading past the end
   * of a PHP string yields "", which is `!= "\xFF"`.
   */
  predicate PackHasAsWritten(row: seq<byte>, p: nat) {
    3 * p >= |row| || row[3 * p] != Unknown
  }

  /** `packhas` on a row sized for positions 0..|input|. */
  predicate PackHasCorrected(row: seq<byte>, p: nat)
    requires HasSlot(row, p)
  {
    CellOf(row, p) != Unset
  }

  /**
   * As written, the end-of-input position of a row in which nothing has been
   * recorded there already answers `packhas` true (and `packread` would then
   * move the cursor to 0 and return an unset entry).
   */
  lemma EndOfInputAsWritten(n: nat)
    ensures forall p: nat :: p < n ==> !PackHasAsWritten(FreshRowAsWritten(n), p)
    ensures PackHasAsWritten(FreshRowAsWritten(n), n)
  {
  }

  /** With a slot for position |input| a fresh row answers false at every position, the end included. */
  lemma EndOfInputCorrected(n: nat)
    ensures forall p: nat :: p <= n ==> HasSlot(FreshRow(n), p) && !PackHasCorrected(FreshRow(n), p)
  {
  }
}
