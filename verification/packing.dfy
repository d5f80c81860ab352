/** Packing the flipped image into ST7565R display pages: one byte per
    (page, column), row offset r of the page at bit r. */
module Packing {
  import opened PyInt
  import opened Pixels
  import opened Images
  import opened Seqs

  /** The byte the row loop builds from `bits`: after rows 0..n-1 the byte is
      `Pack(bits[..n])`, each step or-ing in `bits[n] << n`. */
  function Pack(bits: seq<Bit>): (byte: nat)
    ensures byte < Pow2(|bits|)
    decreases |bits|
  {
    if |bits| == 0 then 0
    else
      var n := |bits| - 1;
      var low := Pack(bits[..n]);
      OrBound(low, Shl(bits[n], n), n + 1);
      Or(low, Shl(bits[n], n))
  }

  /** Reading bit i of a packed byte back gives bits[i]; no bit beyond the
      last row is set. */
  lemma {:induction false} PackRoundTrip(bits: seq<Bit>)
    ensures forall i :: 0 <= i < |bits| ==> TestBit(Pack(bits), i) == bits[i]
    ensures forall i: nat :: |bits| <= i ==> TestBit(Pack(bits), i) == 0
    decreases |bits|
  {
    if |bits| == 0 {
      forall i: nat
        ensures TestBit(Pack(bits), i) == 0
      {
        ShrZero(i);
      }
    } else {
      var n := |bits| - 1;
      var low := Pack(bits[..n]);
      PackRoundTrip(bits[..n]);
      forall i: nat
        ensures TestBit(Pack(bits), i) == if i < |bits| then bits[i] else 0
      {
        OrBits(low, Shl(bits[n], n), i);
        ShlBit(bits[n], n, i);
        if i < n {
          assert bits[..n][i] == bits[i];
        }
      }
    }
  }

  /** The bits of column x in page `page`, row offset r at index r: the
      pixels (x, page*8 + r) for r in 0..7. */
  function ColumnBits(img: Image, page: nat, x: nat): (bits: seq<Bit>)
    requires img.Valid() && page < img.height / 8 && x < img.width
    ensures |bits| == 8
  {
    seq<Bit>(8, r requires 0 <= r < 8 => Classify(img.At(x, page * 8 + r)))
  }

  /** The byte emitted for column x of page `page`. */
  function PageByte(img: Image, page: nat, x: nat): (byte: nat)
    requires img.Valid() && page < img.height / 8 && x < img.width
    ensures byte < 256
    ensures forall r :: 0 <= r < 8 ==> TestBit(byte, r) == Classify(img.At(x, page * 8 + r))
    ensures forall r: nat :: 8 <= r ==> TestBit(byte, r) == 0
  {
    var bits := ColumnBits(img, page, x);
    PackRoundTrip(bits);
    Pack(bits)
  }

  /** The bytes of each page, columns left to right. */
  function Pages(img: Image): (pages: seq<seq<nat>>)
    requires img.Valid()
    ensures |pages| == img.height / 8 && AllOfLength(pages, img.width)
  {
    seq(img.height / 8, page requires 0 <= page < img.height / 8 =>
      seq(img.width, x requires 0 <= x < img.width => PageByte(img, page, x)))
  }

  /** The whole byte stream: pages 0..height/8-1 in order. */
  function PackImage(img: Image): (bytes: seq<nat>)
    requires img.Valid()
    ensures |bytes| == img.height / 8 * img.width
  {
    FlattenLength(Pages(img), img.width);
    Flatten(Pages(img))
  }

  /** The stream holds width bytes per page, and byte Offset(width, page, x)
      is the one for column x of page `page`, whose bit r is the pixel
      (x, page*8 + r). */
  lemma PackImageLayout(img: Image)
    requires img.Valid()
    ensures |PackImage(img)| == img.height / 8 * img.width
    ensures forall page, x :: 0 <= page < img.height / 8 && 0 <= x < img.width ==>
      Offset(img.width, page, x) < |PackImage(img)| &&
      PackImage(img)[Offset(img.width, page, x)] == PageByte(img, page, x)
  {
    var pages := Pages(img);
    FlattenLayout(pages, img.width);
  }

  /** The row loop for one column of one page: `byte |= bit << row` for
      rows 0..7. */
  method PackColumn(img: Image, page: nat, x: nat) returns (byte: nat)
    requires img.Valid() && page < img.height / 8 && x < img.width
    ensures byte == PageByte(img, page, x)
  {
    ghost var bits := ColumnBits(img, page, x);
    byte := 0;
    var row := 0;
    while row < 8
      invariant row <= 8
      invariant byte == Pack(bits[..row])
    {
      var bit := Classify(img.At(x, page * 8 + row));
      assert bits[..row + 1][..row] == bits[..row];
      byte := Or(byte, Shl(bit, row));
      row := row + 1;
    }
    assert bits[..8] == bits;
  }

  /** The nested page / column loops of the converter. */
  method PackLoop(img: Image) returns (out: seq<nat>)
    requires img.Valid()
    ensures out == PackImage(img)
  {
    ghost var pages := Pages(img);
    out := [];
    var page := 0;
    while page < img.height / 8
      invariant page <= img.height / 8
      invariant out == Flatten(pages[..page])
    {
      var x := 0;
      while x < img.width
        invariant x <= img.width
        invariant out == Flatten(pages[..page]) + pages[page][..x]
      {
        var byte := PackColumn(img, page, x);
        out := out + [byte];
        x := x + 1;
      }
      assert pages[..page + 1][..page] == pages[..page];
      page := page + 1;
    }
    assert pages[..page] == pages;
  }
}
