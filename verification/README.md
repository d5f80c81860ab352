# ST7565R image converter, modelled in Dafny

`convert_image_st7565r.py` turns an image into a C byte array for an LCD driven
by the ST7565R controller. This project models the conversion once PIL has
decoded the file into an RGBA grid:

1. the height check: a height that is not a multiple of 8 is an error, and
   nothing is printed;
2. the vertical flip (`FLIP_TOP_BOTTOM`), because the display puts row 0 at the
   bottom;
3. the classification of each pixel as on (drawn black) or off: on when alpha
   is above 0 and the colour is not pure white;
4. the packing: one byte per (page, column), where a page is 8 rows and row
   offset r goes to bit r. Pages come out in ascending order, and columns left
   to right within a page;
5. the listing: a header record, the declared length `height * width / 8`, and
   one line of `0x%02x,` tokens per page;
6. `main`: the argument-count check and the exit status.

Python integers are unbounded, so bytes are `nat`. The operations `|`, `<<`,
`>>` and `& 1` are defined in module `PyInt`. That a packed byte fits in 8 bits
is therefore proved, not built into a type.

Modules: `PyInt` (integer bit operations), `Pixels` (RGBA pixel,
classification), `Images` (grid, flip), `Seqs` (page-by-page concatenation),
`Packing` (bytes and the nested loops), `Format` (hex tokens, base name),
`Converter` (`run`, `main` and the end-to-end properties), `Results`
(Option/Result).

An 8x8 image is one page, so the script prints eight bytes, one per column;
see `Converter.BlackSquare`.

## Model

| member | source | states |
|---|---|---|
| `Pixels.Classify` | convert_image_st7565r.py:74 | The bit is 1 exactly when alpha > 0 and the pixel is not pure white (255, 255, 255). |
| `Pixels.NearWhiteIsOn` | convert_image_st7565r.py:11-13 | Grey with channels below 255 (e.g. 254, 254, 254) is on at any nonzero alpha. Pure white at the same alpha is off, and so is any fully transparent pixel. The threshold is an exact match. |
| `Images.FlipTopBottom` | convert_image_st7565r.py:61 | Width and height are unchanged. Pixel (x, y) of the result is pixel (x, height-1-y) of the input. |
| `Images.FlipInvolution` | convert_image_st7565r.py:61 | Flipping twice gives back the original grid. |
| `PyInt.OrBits` | convert_image_st7565r.py:75 | Bit i of the bitwise or of a and b is set exactly when bit i of a or of b is set. |
| `PyInt.ShlBit` | convert_image_st7565r.py:75 | `bit << row` for a single bit has bit `row` equal to that bit and no other bit set. |
| `PyInt.BitsDetermine` | convert_image_st7565r.py:68-75 | Two values below 2^k with the same bits 0..k-1 are equal, so reading a byte back bit by bit loses nothing. |
| `Packing.Pack` | convert_image_st7565r.py:68-75 | The byte the row loop builds from k bits is below 2^k. |
| `Packing.PackRoundTrip` | convert_image_st7565r.py:68-75 | `(byte >> i) & 1` recovers bit i for every row i. Every bit above the last row is 0. |
| `Packing.PageByte` | convert_image_st7565r.py:68-75 | The byte for (page, x) is in 0..255. Bit r is the classification of pixel (x, page*8 + r) for r < 8. Bits 8 and above are 0. |
| `Packing.PackImageLayout` | convert_image_st7565r.py:65-77 | The stream holds height/8 * width bytes. The byte at offset page*width + x is the byte for column x of page `page`. |
| `Packing.PackImage` | convert_image_st7565r.py:64-77 | The byte stream the loops print has exactly height/8 * width bytes (its order is stated by `Packing.PackImageLayout`). |
| `Packing.PackColumn` | convert_image_st7565r.py:68-75 | The row loop, which ors `bit << row` into the byte for rows 0..7, computes exactly the byte for (page, x). |
| `Packing.PackLoop` | convert_image_st7565r.py:65-77 | The nested page/column loops, appending each column's byte, compute exactly the page-ordered stream. |
| `Seqs.FlattenLayout` | convert_image_st7565r.py:65-77 | Writing pages of w elements one after another gives n*w elements. Element x of page p is at offset p*w + x. |
| `Format.HexByte` | convert_image_st7565r.py:76 | A byte prints as "0x", then two lower-case hex digits whose value is the byte (high digit first), then ",". |
| `Format.ParseHexByteRoundTrip` | convert_image_st7565r.py:76 | A printed token reads back as its byte. |
| `Format.HexByteCanonical` | convert_image_st7565r.py:76 | Any token that reads back as a byte is exactly that byte's printed token. |
| `Format.Basename` | convert_image_st7565r.py:63 | The name is a suffix of the path and contains no '/'. Either it is the whole path, or a '/' comes right before it. |
| `Converter.FormatPages` | convert_image_st7565r.py:65-77 | One line per page and one token per byte. Each token reads back as its byte. |
| `Converter.Run` | convert_image_st7565r.py:50-78 | A height that is not a multiple of 8 gives an error carrying the height, and no listing. Otherwise the result is a listing whose header has the base name, width and height, with height/8 lines of width tokens each. |
| `Converter.DeclaredLength` | convert_image_st7565r.py:64-65 | With a height that is a multiple of 8, `height * width / 8` equals the number of pages times the width. |
| `Converter.RunLayout` | convert_image_st7565r.py:64-77 | The declared length equals the number of tokens printed. The token at position page*width + x is column x of page `page`. |
| `Converter.TokenByte` | convert_image_st7565r.py:65-76 | The token for (page, x) reads back as the packed byte of the flipped image for (page, x). |
| `Converter.FlippedByteBit` | convert_image_st7565r.py:61-75 | Bit `row` of the flipped image's byte for (page, x) is the classification of original pixel (x, height-1-(page*8+row)). Higher bits are 0. |
| `Converter.RunPixelRoundTrip` | convert_image_st7565r.py:61-76 | Parse a printed token, then apply `(byte >> row) & 1`. The result is the classification of original pixel (x, height-1-(page*8+row)), and 0 for rows 8 and above. |
| `Converter.RunBytes` | convert_image_st7565r.py:65-77 | The printed tokens, in order, read back as the packed byte stream of the flipped image. |
| `Converter.UniformListing` | convert_image_st7565r.py:68-76 | In a single-colour image, every token is `0xff,` when the colour is on and `0x00,` when it is off. There are `pages` lines of `width` tokens. |
| `Converter.BlackSquare` | convert_image_st7565r.py:74-76 | An opaque black 8x8 image prints one line of eight `0xff,`. |
| `Converter.WhiteOrClearSquare` | convert_image_st7565r.py:72-76 | An opaque white 8x8 image, or a fully transparent one of any colour, prints one line of eight `0x00,`. |
| `Converter.Main` | convert_image_st7565r.py:80-87 | Any argument count other than one path is a usage error naming the program, with exit status 1. With one path, the run fails with status 1 and the height error exactly when the height is not a multiple of 8. Otherwise what is printed is exactly the listing `run` produces for that path and its decoded image. |

## Left out

- Image decoding (`PIL.Image.open`, `convert('RGBA')`) is a foreign library. `Converter.Main` takes it as a parameter `decode` that yields a valid RGBA grid with channels in 0..255. Decoding errors are not modelled.
- The height check runs on the image before `convert('RGBA')`. The model checks the converted grid. The conversion keeps the size, so the outcome is the same.
- Printing is not modelled byte for byte. The listing is a header record, the declared length, and one sequence of tokens per page. The indentation, Python 2's soft-space separators, the `uint8_t data[...] = {` and `};` lines, and the decimal text of numbers are left out.
- Converter.Run: the error carries only the height, not a message. The code passes a format string and the height to `RuntimeError` as two separate arguments, so the message is never filled in. Its exact text is not modelled.
- Format.Basename: models POSIX `os.path.basename` only (the text after the last '/'). Other platforms' separators are not modelled.
- Converter.Main: `sys.exit`, standard error and the `Error: ` prefix are I/O and are reduced to an `Exit` value (printed listing, or status 1 with the error). The model requires `argv` to hold at least the program name, as Python always provides.
