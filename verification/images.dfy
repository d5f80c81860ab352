/** The RGBA pixel grid a decoded image becomes, and the vertical flip. */
module Images {
  import opened Pixels

  /** An image as PIL presents it after `convert('RGBA')`: `rows[y][x]` is the
      pixel `getpixel((x, y))` returns, y counted from the top. */
  datatype Image = Image(width: nat, height: nat, rows: seq<seq<Pixel>>)
  {
    /** The grid really is width by height. */
    predicate Valid()
    {
      |rows| == height && forall y :: 0 <= y < |rows| ==> |rows[y]| == width
    }

    /** `getpixel((x, y))`. */
    function At(x: nat, y: nat): Pixel
      requires Valid() && x < width && y < height
    {
      rows[y][x]
    }
  }

  /** A sequence in reverse order. */
  function Reverse<T>(s: seq<T>): (r: seq<T>)
    ensures |r| == |s|
    ensures forall i :: 0 <= i < |s| ==> r[i] == s[|s| - 1 - i]
  {
    if |s| == 0 then [] else Reverse(s[1..]) + [s[0]]
  }

  /** `transpose(FLIP_TOP_BOTTOM)`: row y of the result is row height-1-y of
      the input; width, height and the pixels themselves are unchanged. */
  function FlipTopBottom(img: Image): (f: Image)
    requires img.Valid()
    ensures f.Valid() && f.width == img.width && f.height == img.height
    ensures forall x: nat, y: nat :: x < f.width && y < f.height ==>
      f.At(x, y) == img.At(x, img.height - 1 - y)
  {
    Image(img.width, img.height, Reverse(img.rows))
  }

  /** Flipping twice gives back the original grid. */
  lemma FlipInvolution(img: Image)
    requires img.Valid()
    ensures FlipTopBottom(FlipTopBottom(img)) == img
  {
    var twice := FlipTopBottom(FlipTopBottom(img));
    assert twice.rows == img.rows;
  }

  /** A width by height image whose every pixel is p. */
  function Uniform(width: nat, height: nat, p: Pixel): (img: Image)
    ensures img.Valid() && img.width == width && img.height == height
    ensures forall x: nat, y: nat :: x < width && y < height ==> img.At(x, y) == p
  {
    Image(width, height, seq(height, _ => seq(width, _ => p)))
  }
}
