/** The converter as a whole: `run` (height check, flip, packing, listing)
    and `main` (argument check, error reporting, exit status). */
module Converter {
  import opened Results
  import opened PyInt
  import opened Pixels
  import opened Images
  import opened Seqs
  import opened Packing
  import opened Format

  /** The two errors the converter raises itself. The height error carries
      the height; the exact message text is not modelled. */
  datatype Error =
    | UsageError(program: string)
    | HeightNotMultipleOf8(height: nat)

  /** The header comment `/* name (WxH) */`. */
  datatype Header = Header(name: string, width: nat, height: nat)

  /** What `run` prints: the header, the declared array length
      `height * width / 8`, and one line of `0xhh,` tokens per page. */
  datatype Listing = Listing(header: Header, length: nat, lines: seq<seq<string>>)

  /** The tokens of a listing in the order they are printed. */
  function Tokens(l: Listing): seq<string>
  {
    Flatten(l.lines)
  }

  /** One line of tokens per page of packed bytes. */
  function FormatPages(pages: seq<seq<nat>>): (lines: seq<seq<string>>)
    requires forall p, x :: 0 <= p < |pages| && 0 <= x < |pages[p]| ==> pages[p][x] < 256
    ensures |lines| == |pages|
    ensures forall p :: 0 <= p < |pages| ==> |lines[p]| == |pages[p]|
    ensures forall p, x :: 0 <= p < |pages| && 0 <= x < |pages[p]| ==>
      ParseHexByte(lines[p][x]) == Some(pages[p][x])
  {
    seq(|pages|, p requires 0 <= p < |pages| =>
      seq(|pages[p]|, x requires 0 <= x < |pages[p]| => HexByte(pages[p][x])))
  }

  /** `run(path)` on the image PIL decodes from `path`: an error carrying the
      height when it is not a multiple of 8 (nothing printed), otherwise the
      listing of the flipped, packed image. */
  function Run(path: string, img: Image): (r: Result<Listing, Error>)
    requires img.Valid()
    ensures r.Err? <==> img.height % 8 != 0
    ensures r.Err? ==> r.error == HeightNotMultipleOf8(img.height)
    ensures r.Ok? ==> r.value.header == Header(Basename(path), img.width, img.height)
    ensures r.Ok? ==> |r.value.lines| == img.height / 8 && AllOfLength(r.value.lines, img.width)
  {
    if img.height % 8 != 0 then
      Err(HeightNotMultipleOf8(img.height))
    else
      var flipped := FlipTopBottom(img);
      var pages := Pages(flipped);
      Ok(Listing(Header(Basename(path), flipped.width, flipped.height),
                 flipped.height * flipped.width / 8,
                 FormatPages(pages)))
  }

  /** The bit a reader of the listing recovers for row offset `row` of column
      x in page `page`: parse the token, then `(byte >> row) & 1`. */
  function ReadBit(l: Listing, page: nat, x: nat, row: nat): Bit
    requires page < |l.lines| && x < |l.lines[page]|
  {
    match ParseHexByte(l.lines[page][x])
    case Some(byte) => TestBit(byte, row)
    case None => 0
  }

  /** The declared length equals the number of tokens printed, width*height/8,
      and the token for column x of page `page` is the Offset(width, page, x)-th
      one printed. */
  lemma {:induction false} RunLayout(path: string, img: Image)
    requires img.Valid() && img.height % 8 == 0
    ensures Run(path, img).Ok?
    ensures |Tokens(Run(path, img).value)| == Run(path, img).value.length == img.height / 8 * img.width
    ensures forall page, x :: 0 <= page < img.height / 8 && 0 <= x < img.width ==>
      Offset(img.width, page, x) < |Tokens(Run(path, img).value)| &&
      Tokens(Run(path, img).value)[Offset(img.width, page, x)] == Run(path, img).value.lines[page][x]
  {
    var l := Run(path, img).value;
    FlattenLayout(l.lines, img.width);
    DeclaredLength(img.height, img.width);
  }

  /** With the height a multiple of 8, Python 2's `height * width / 8` is
      exactly height/8 pages of width bytes. */
  lemma DeclaredLength(height: nat, width: nat)
    requires height % 8 == 0
    ensures height * width / 8 == height / 8 * width
  {
    var k := height / 8;
    assert height * width == 8 * (k * width);
  }

  /** The token printed for column x of page `page` reads back as that
      column's packed byte of the flipped image. */
  lemma TokenByte(path: string, img: Image, page: nat, x: nat)
    requires img.Valid() && img.height % 8 == 0
    requires page < img.height / 8 && x < img.width
    ensures Run(path, img).Ok?
    ensures page < |Run(path, img).value.lines| && x < |Run(path, img).value.lines[page]|
    ensures ParseHexByte(Run(path, img).value.lines[page][x]) == Some(PageByte(FlipTopBottom(img), page, x))
  {
    var pages := Pages(FlipTopBottom(img));
    assert Run(path, img).value.lines == FormatPages(pages);
    assert pages[page][x] == PageByte(FlipTopBottom(img), page, x);
  }

  /** Bit `row` of the byte for (page, x) of the flipped image is the
      classification of the original pixel (x, height-1-(page*8+row)). */
  lemma FlippedByteBit(img: Image, page: nat, x: nat, row: nat)
    requires img.Valid() && page < img.height / 8 && x < img.width
    ensures TestBit(PageByte(FlipTopBottom(img), page, x), row) ==
      if row < 8 then Classify(img.At(x, img.height - 1 - (page * 8 + row))) else 0
  {
    var flipped := FlipTopBottom(img);
    if row < 8 {
      var y := page * 8 + row;
      assert TestBit(PageByte(flipped, page, x), row) == Classify(flipped.At(x, y));
    }
  }

  /** End to end: the bit read back from the listing for (page, x, row) is the
      classification of the ORIGINAL pixel (x, height-1-(page*8+row)), and no
      bit above row 7 is set. */
  lemma RunPixelRoundTrip(path: string, img: Image, page: nat, x: nat, row: nat)
    requires img.Valid() && img.height % 8 == 0
    requires page < img.height / 8 && x < img.width
    ensures Run(path, img).Ok?
    ensures ReadBit(Run(path, img).value, page, x, row) ==
      if row < 8 then Classify(img.At(x, img.height - 1 - (page * 8 + row))) else 0
  {
    TokenByte(path, img, page, x);
    FlippedByteBit(img, page, x, row);
  }

  /** The bytes behind the printed tokens are the packed stream of the flipped
      image, in order. */
  lemma RunBytes(path: string, img: Image)
    requires img.Valid() && img.height % 8 == 0
    ensures Run(path, img).Ok?
    ensures |Tokens(Run(path, img).value)| == |PackImage(FlipTopBottom(img))|
    ensures forall i :: 0 <= i < |PackImage(FlipTopBottom(img))| ==>
      ParseHexByte(Tokens(Run(path, img).value)[i]) == Some(PackImage(FlipTopBottom(img))[i])
  {
    var flipped := FlipTopBottom(img);
    var pages := Pages(flipped);
    var lines := Run(path, img).value.lines;
    var w, n := img.width, img.height / 8;
    FlattenLength(lines, w);
    FlattenLength(pages, w);
    forall i | 0 <= i < |PackImage(flipped)|
      ensures ParseHexByte(Tokens(Run(path, img).value)[i]) == Some(PackImage(flipped)[i])
    {
      var page, x := OffsetOf(w, n, i);
      TokenByte(path, img, page, x);
      FlattenIndex(lines, w, page, x);
      FlattenIndex(pages, w, page, x);
    }
  }

  /** Every byte of a uniform image is 0xff when its colour is "on" and 0x00
      when it is "off". */
  lemma UniformByte(width: nat, pages: nat, c: Pixel, page: nat, x: nat)
    requires page < pages && x < width
    ensures page < FlipTopBottom(Uniform(width, 8 * pages, c)).height / 8
    ensures PageByte(FlipTopBottom(Uniform(width, 8 * pages, c)), page, x) ==
      if Classify(c) == 1 then 255 else 0
  {
    var flipped := FlipTopBottom(Uniform(width, 8 * pages, c));
    var byte := PageByte(flipped, page, x);
    var want := if Classify(c) == 1 then 255 else 0;
    forall i | 0 <= i < 8
      ensures TestBit(byte, i) == TestBit(want, i)
    {
      assert flipped.At(x, page * 8 + i) == c;
      if Classify(c) == 1 {
        AllOnesBits(8, i);
      } else {
        ShrZero(i);
      }
    }
    BitsDetermine(byte, want, 8);
  }

  /** The token printed for any byte of a uniform image. */
  lemma UniformToken(path: string, width: nat, pages: nat, c: Pixel, page: nat, x: nat)
    requires page < pages && x < width
    ensures Run(path, Uniform(width, 8 * pages, c)).Ok?
    ensures page < |Run(path, Uniform(width, 8 * pages, c)).value.lines|
    ensures x < |Run(path, Uniform(width, 8 * pages, c)).value.lines[page]|
    ensures Run(path, Uniform(width, 8 * pages, c)).value.lines[page][x] ==
      if Classify(c) == 1 then "0xff," else "0x00,"
  {
    var img := Uniform(width, 8 * pages, c);
    TokenByte(path, img, page, x);
    UniformByte(width, pages, c, page, x);
    HexByteCanonical(Run(path, img).value.lines[page][x]);
    HexByteExtremes();
  }

  /** A uniform image prints `0xff,` for every byte when its colour is "on"
      and `0x00,` when it is "off", one line of width tokens per page. */
  lemma UniformListing(path: string, width: nat, pages: nat, c: Pixel)
    ensures Run(path, Uniform(width, 8 * pages, c)).Ok?
    ensures |Run(path, Uniform(width, 8 * pages, c)).value.lines| == pages
    ensures forall page :: 0 <= page < pages ==>
      |Run(path, Uniform(width, 8 * pages, c)).value.lines[page]| == width
    ensures forall page, x :: 0 <= page < pages && 0 <= x < width ==>
      Run(path, Uniform(width, 8 * pages, c)).value.lines[page][x] ==
        if Classify(c) == 1 then "0xff," else "0x00,"
  {
    forall page, x | 0 <= page < pages && 0 <= x < width
      ensures Run(path, Uniform(width, 8 * pages, c)).value.lines[page][x] ==
        if Classify(c) == 1 then "0xff," else "0x00,"
    {
      UniformToken(path, width, pages, c, page, x);
    }
  }

  /** An 8x8 opaque black image is one page of eight `0xff,` bytes. */
  lemma BlackSquare(path: string)
    ensures Run(path, Uniform(8, 8, Pixel(0, 0, 0, 255))).Ok?
    ensures |Run(path, Uniform(8, 8, Pixel(0, 0, 0, 255))).value.lines| == 1
    ensures |Run(path, Uniform(8, 8, Pixel(0, 0, 0, 255))).value.lines[0]| == 8
    ensures forall x :: 0 <= x < 8 ==>
      Run(path, Uniform(8, 8, Pixel(0, 0, 0, 255))).value.lines[0][x] == "0xff,"
  {
    UniformListing(path, 8, 1, Pixel(0, 0, 0, 255));
  }

  /** An 8x8 opaque white image, or a fully transparent one of any colour, is
      one page of eight `0x00,` bytes. */
  lemma WhiteOrClearSquare(path: string, c: Pixel)
    requires IsPureWhite(c) || c.a == 0
    ensures Run(path, Uniform(8, 8, c)).Ok?
    ensures |Run(path, Uniform(8, 8, c)).value.lines| == 1
    ensures |Run(path, Uniform(8, 8, c)).value.lines[0]| == 8
    ensures forall x :: 0 <= x < 8 ==> Run(path, Uniform(8, 8, c)).value.lines[0][x] == "0x00,"
  {
    UniformListing(path, 8, 1, c);
  }

  /** How a run of the program ends. */
  datatype Exit =
    | Printed(listing: Listing)
    | Failed(status: int, error: Error)

  /** `main` with `sys.argv` = argv; `decode` stands for PIL opening and
      converting the named file. */
  function Main(argv: seq<string>, decode: string -> Image): (e: Exit)
    requires |argv| >= 1
    requires forall path :: decode(path).Valid()
    ensures e.Failed? ==> e.status == 1
    ensures |argv| != 2 ==> e == Failed(1, UsageError(argv[0]))
    ensures |argv| == 2 ==> (e.Failed? <==> decode(argv[1]).height % 8 != 0)
    ensures |argv| == 2 && e.Failed? ==> e.error == HeightNotMultipleOf8(decode(argv[1]).height)
    ensures e.Printed? ==> |argv| == 2 && Run(argv[1], decode(argv[1])) == Ok(e.listing)
  {
    if |argv| != 2 then Failed(1, UsageError(argv[0]))
    else
      match Run(argv[1], decode(argv[1]))
      case Ok(listing) => Printed(listing)
      case Err(error) => Failed(1, error)
  }
}
