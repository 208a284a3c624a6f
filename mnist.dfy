/** Reading the MNIST files (the IDX format: a big-endian header of 32-bit fields followed by one
    byte per pixel or label), scaling pixels and one-hot encoding labels. A file is its sequence
    of bytes; reading past its end leaves the zero the program stored in the target beforehand. */
module MnistLoader {
  import opened Tensor
  import opened Errors
  import opened Utils

  type Byte = bv8

  /** Byte `k` of `n`, counted from the least significant. */
  function ByteOf(n: bv32, k: nat): Byte
    requires k < 4
  {
    ((if k == 0 then n else if k == 1 then n >> 8 else if k == 2 then n >> 16 else n >> 24) & 0xFF) as Byte
  }

  /** Swaps the four bytes of a 32-bit word: the low byte goes to the top and so on. */
  function ReverseInt(n: bv32): (r: bv32)
    ensures ByteOf(r, 0) == ByteOf(n, 3) && ByteOf(r, 1) == ByteOf(n, 2)
    ensures ByteOf(r, 2) == ByteOf(n, 1) && ByteOf(r, 3) == ByteOf(n, 0)
  {
    var c1, c2, c3, c4 := n & 255, (n >> 8) & 255, (n >> 16) & 255, (n >> 24) & 255;
    (c1 << 24) + (c2 << 16) + (c3 << 8) + c4
  }

  /** Two words with the same four bytes are the same word. */
  lemma WordFromBytes(m: bv32, n: bv32)
    requires ByteOf(m, 0) == ByteOf(n, 0) && ByteOf(m, 1) == ByteOf(n, 1)
    requires ByteOf(m, 2) == ByteOf(n, 2) && ByteOf(m, 3) == ByteOf(n, 3)
    ensures m == n
  {
    assert m == (m & 0xFF) | (m & 0xFF00) | (m & 0xFF_0000) | (m & 0xFF00_0000);
    assert n == (n & 0xFF) | (n & 0xFF00) | (n & 0xFF_0000) | (n & 0xFF00_0000);
  }

  /** Swapping twice gives the word back. */
  lemma ReverseIntInvolution(n: bv32)
    ensures ReverseInt(ReverseInt(n)) == n
  {
    WordFromBytes(ReverseInt(ReverseInt(n)), n);
  }

  /** The byte at `offset`, or 0 past the end of the file. */
  function ByteAt(bytes: seq<Byte>, offset: nat): (b: Byte)
    ensures offset < |bytes| ==> b == bytes[offset]
    ensures offset >= |bytes| ==> b == 0
  {
    if offset < |bytes| then bytes[offset] else 0
  }

  /** The `int` a four-byte read at `offset` stores on a little-endian machine. */
  function Word(bytes: seq<Byte>, offset: nat): bv32 {
    (ByteAt(bytes, offset) as bv32)
    | (ByteAt(bytes, offset + 1) as bv32 << 8)
    | (ByteAt(bytes, offset + 2) as bv32 << 16)
    | (ByteAt(bytes, offset + 3) as bv32 << 24)
  }

  /** The value of a 32-bit pattern `u` as a two's-complement `int`. */
  function ToInt32(u: int): (v: int)
    requires 0 <= u < 0x1_0000_0000
    ensures -0x8000_0000 <= v < 0x8000_0000
    ensures v >= 0 <==> u < 0x8000_0000
  {
    if u < 0x8000_0000 then u else u - 0x1_0000_0000
  }

  /** The `int` a 32-bit word holds. */
  function Signed(n: bv32): int {
    ToInt32(n as int)
  }

  /** The four bytes at `offset` as a big-endian number: the first byte is the most significant. */
  function BigEndianValue(bytes: seq<Byte>, offset: nat): (u: int)
    ensures 0 <= u < 0x1_0000_0000
  {
    ((ByteAt(bytes, offset) as int * 256 + ByteAt(bytes, offset + 1) as int) * 256
      + ByteAt(bytes, offset + 2) as int) * 256 + ByteAt(bytes, offset + 3) as int
  }

  /** A header field: the signed big-endian 32-bit number at `offset`. */
  function HeaderField(bytes: seq<Byte>, offset: nat): int {
    ToInt32(BigEndianValue(bytes, offset))
  }

  /** The words of four bytes, most significant first, have the value the bytes spell in base 256. */
  lemma WordValue(b0: Byte, b1: Byte, b2: Byte, b3: Byte)
    ensures ((b0 as bv32 << 24) | (b1 as bv32 << 16) | (b2 as bv32 << 8) | (b3 as bv32)) as int
         == ((b0 as int * 256 + b1 as int) * 256 + b2 as int) * 256 + b3 as int
  {
  }

  /** Reading four bytes into an `int` on a little-endian machine and byte-swapping the result
      gives the header field there. */
  lemma SwappedWordIsHeaderField(bytes: seq<Byte>, offset: nat)
    ensures Signed(ReverseInt(Word(bytes, offset))) == HeaderField(bytes, offset)
  {
    var b0, b1, b2, b3 := ByteAt(bytes, offset), ByteAt(bytes, offset + 1), ByteAt(bytes, offset + 2), ByteAt(bytes, offset + 3);
    SwappedWord(b0, b1, b2, b3);
    WordValue(b0, b1, b2, b3);
  }

  /** Byte-swapping the little-endian word of four bytes gives their big-endian word. */
  lemma SwappedWord(b0: Byte, b1: Byte, b2: Byte, b3: Byte)
    ensures ReverseInt((b0 as bv32) | (b1 as bv32 << 8) | (b2 as bv32 << 16) | (b3 as bv32 << 24))
         == (b0 as bv32 << 24) | (b1 as bv32 << 16) | (b2 as bv32 << 8) | (b3 as bv32)
  {
  }

  /** The byte holding a number below 16, chosen by comparisons. */
  function Nibble(k: nat): (b: Byte)
    requires k < 16
    ensures b as int == k
  {
    if k < 8 then
      if k < 4 then (if k < 2 then (if k < 1 then 0 else 1) else (if k < 3 then 2 else 3))
      else (if k < 6 then (if k < 5 then 4 else 5) else (if k < 7 then 6 else 7))
    else
      if k < 12 then (if k < 10 then (if k < 9 then 8 else 9) else (if k < 11 then 10 else 11))
      else (if k < 14 then (if k < 13 then 12 else 13) else (if k < 15 then 14 else 15))
  }

  /** The byte holding a number below 256 (the narrowing `char` store of a write). */
  function ToByte(k: nat): (b: Byte)
    requires k < 256
    ensures b as int == k
  {
    (Nibble(k / 16) << 4) | Nibble(k % 16)
  }

  /** The four bytes of a big-endian write of the 32-bit number `n`. */
  function EncodeField(n: nat): (bs: seq<Byte>)
    requires n < 0x1_0000_0000
    ensures |bs| == 4
    ensures bs[0] as int == n / 0x100_0000 && bs[1] as int == n % 0x100_0000 / 0x1_0000
    ensures bs[2] as int == n % 0x1_0000 / 0x100 && bs[3] as int == n % 0x100
  {
    [ToByte(n / 0x100_0000), ToByte(n % 0x100_0000 / 0x1_0000), ToByte(n % 0x1_0000 / 0x100), ToByte(n % 0x100)]
  }

  /** The bytes of `n`, most significant first, spell `n` in base 256. */
  lemma Digits(n: nat)
    requires n < 0x1_0000_0000
    ensures ((n / 0x100_0000 * 256 + n % 0x100_0000 / 0x1_0000) * 256 + n % 0x1_0000 / 0x100) * 256 + n % 0x100 == n
  {
    DivMod(n, 0x100_0000);
    DivMod(n % 0x100_0000, 0x1_0000);
    DivMod(n % 0x1_0000, 0x100);
    assert n % 0x100_0000 % 0x1_0000 == n % 0x1_0000;
    assert n % 0x1_0000 % 0x100 == n % 0x100;
  }

  lemma DivMod(x: nat, d: nat)
    requires d > 0
    ensures x == x / d * d + x % d && x % d < d
  {
  }

  /** Reading a header field where a non-negative `int` was written big-endian gives it back. */
  lemma FieldRoundTrip(bytes: seq<Byte>, offset: nat, n: nat)
    requires n < 0x8000_0000
    requires offset + 4 <= |bytes| && bytes[offset..offset + 4] == EncodeField(n)
    ensures HeaderField(bytes, offset) == n
  {
    var field := bytes[offset..offset + 4];
    assert ByteAt(bytes, offset) == field[0] && ByteAt(bytes, offset + 1) == field[1];
    assert ByteAt(bytes, offset + 2) == field[2] && ByteAt(bytes, offset + 3) == field[3];
    Digits(n);
  }

  /** The fixed sizes of the two headers: magic, count, rows, columns; and magic, count. */
  const ImageHeaderSize: nat := 16
  const LabelHeaderSize: nat := 8

  function ImageCount(bytes: seq<Byte>): int { HeaderField(bytes, 4) }
  function RowCount(bytes: seq<Byte>): int { HeaderField(bytes, 8) }
  function ColumnCount(bytes: seq<Byte>): int { HeaderField(bytes, 12) }

  /** The pixels per image, `num_rows * num_cols`, when that product does not overflow an `int`. */
  predicate PixelCountFits(bytes: seq<Byte>) {
    -0x8000_0000 <= RowCount(bytes) * ColumnCount(bytes) < 0x8000_0000
  }

  function PixelCount(bytes: seq<Byte>): int {
    RowCount(bytes) * ColumnCount(bytes)
  }

  /** Where pixel `j` of image `i` sits in a file of `p`-pixel images. */
  function PixelOffset(i: nat, p: nat, j: nat): nat {
    ImageHeaderSize + i * p + j
  }

  /** A byte as the float it is stored as. */
  function PixelValue(b: Byte): (v: real)
    ensures 0.0 <= v <= 255.0
  {
    (b as int) as real
  }

  /** The images of an image file: a row per image, a pixel per entry, in file order.
      A negative count makes the vector constructor throw. */
  function DecodeImages(bytes: seq<Byte>): (r: Result<Matrix>)
    requires PixelCountFits(bytes)
    ensures r.Err? <==> ImageCount(bytes) < 0 || PixelCount(bytes) < 0
    ensures r.Err? ==> r.error == LengthError
    ensures r.Ok? ==> IsMatrix(r.value, ImageCount(bytes), PixelCount(bytes))
  {
    var n, p := ImageCount(bytes), PixelCount(bytes);
    if p < 0 || n < 0 then Err(LengthError) else Ok(ImagePixels(bytes, n, p))
  }

  /** `n` images of `p` pixels each, read in file order after the header. */
  function ImagePixels(bytes: seq<Byte>, n: nat, p: nat): (m: Matrix)
    ensures IsMatrix(m, n, p)
  {
    seq(n, i requires 0 <= i < n => seq(p, j requires 0 <= j < p => PixelValue(ByteAt(bytes, PixelOffset(i, p, j)))))
  }

  /** Reads one image of `p` pixels starting at `position`. */
  method ReadImage(bytes: seq<Byte>, position: nat, p: nat) returns (image: Vector)
    ensures |image| == p
    ensures forall j :: 0 <= j < p ==> image[j] == PixelValue(ByteAt(bytes, position + j))
  {
    image := seq(p, _ => 0.0);
    var j := 0;
    while j < p
      invariant 0 <= j <= p && |image| == p
      invariant forall k :: 0 <= k < j ==> image[k] == PixelValue(ByteAt(bytes, position + k))
    {
      var pixel := ByteAt(bytes, position + j);
      image := image[j := PixelValue(pixel)];
      j := j + 1;
    }
  }

  /** Reads the header, then the pixels image by image. */
  method LoadImages(bytes: seq<Byte>) returns (r: Result<Matrix>)
    requires PixelCountFits(bytes)
    ensures r == DecodeImages(bytes)
  {
    var magicNumber := Signed(ReverseInt(Word(bytes, 0)));
    var numImages := Signed(ReverseInt(Word(bytes, 4)));
    var numRows := Signed(ReverseInt(Word(bytes, 8)));
    var numCols := Signed(ReverseInt(Word(bytes, 12)));
    SwappedWordIsHeaderField(bytes, 4);
    SwappedWordIsHeaderField(bytes, 8);
    SwappedWordIsHeaderField(bytes, 12);
    var p := numRows * numCols;
    if p < 0 || numImages < 0 {
      return Err(LengthError);
    }
    var images: Matrix := seq(numImages, _ => seq(p, _ => 0.0));
    ghost var spec := DecodeImages(bytes).value;
    var i := 0;
    while i < numImages
      invariant 0 <= i <= numImages && |images| == numImages
      invariant forall k :: 0 <= k < i ==> images[k] == spec[k]
    {
      var image := ReadImage(bytes, PixelOffset(i, p, 0), p);
      images := images[i := image];
      i := i + 1;
    }
    assert images == spec;
    return Ok(images);
  }

  /** The labels of a label file, one byte each after the header. */
  function DecodeLabels(bytes: seq<Byte>): (r: Result<seq<int>>)
    ensures r.Err? <==> HeaderField(bytes, 4) < 0
    ensures r.Err? ==> r.error == LengthError
    ensures r.Ok? ==> |r.value| == HeaderField(bytes, 4) && forall i :: 0 <= i < |r.value| ==> 0 <= r.value[i] < 256
  {
    var n := HeaderField(bytes, 4);
    if n < 0 then Err(LengthError)
    else Ok(seq(n, i requires 0 <= i < n => ByteAt(bytes, LabelHeaderSize + i) as int))
  }

  /** Reads the header, then the labels one by one. */
  method LoadLabels(bytes: seq<Byte>) returns (r: Result<seq<int>>)
    ensures r == DecodeLabels(bytes)
  {
    var magicNumber := Signed(ReverseInt(Word(bytes, 0)));
    var numLabels := Signed(ReverseInt(Word(bytes, 4)));
    SwappedWordIsHeaderField(bytes, 4);
    if numLabels < 0 {
      return Err(LengthError);
    }
    var labels := seq(numLabels, _ => 0);
    var i := 0;
    while i < numLabels
      invariant 0 <= i <= numLabels && |labels| == numLabels
      invariant forall k :: 0 <= k < i ==> labels[k] == ByteAt(bytes, LabelHeaderSize + k) as int
    {
      var value := ByteAt(bytes, LabelHeaderSize + i);
      labels := labels[i := value as int];
      i := i + 1;
    }
    assert labels == DecodeLabels(bytes).value;
    return Ok(labels);
  }

  /** The magic number is read and never checked: files that differ only there decode alike. */
  lemma MagicIgnored(a: seq<Byte>, b: seq<Byte>)
    requires |a| >= 4 && |b| >= 4 && a[4..] == b[4..]
    requires PixelCountFits(a)
    ensures PixelCountFits(b) && DecodeImages(a) == DecodeImages(b)
    ensures DecodeLabels(a) == DecodeLabels(b)
  {
    SameBytesAfterMagic(a, b);
    HeaderFieldAgrees(a, b, 4);
    HeaderFieldAgrees(a, b, 8);
    HeaderFieldAgrees(a, b, 12);
    var n, p := ImageCount(a), PixelCount(a);
    if n >= 0 && p >= 0 {
      ImagePixelsAgree(a, b, n, p);
    }
    if HeaderField(a, 4) >= 0 {
      LabelsAgree(a, b, HeaderField(a, 4));
    }
  }

  /** Files that agree from byte 4 on read alike from there. */
  lemma SameBytesAfterMagic(a: seq<Byte>, b: seq<Byte>)
    requires |a| >= 4 && |b| >= 4 && a[4..] == b[4..]
    ensures forall k: nat :: k >= 4 ==> ByteAt(a, k) == ByteAt(b, k)
  {
    forall k: nat | k >= 4
      ensures ByteAt(a, k) == ByteAt(b, k)
    {
      if k < |a| {
        assert a[k] == a[4..][k - 4] && b[k] == b[4..][k - 4];
      }
    }
  }

  lemma HeaderFieldAgrees(a: seq<Byte>, b: seq<Byte>, offset: nat)
    requires ByteAt(a, offset) == ByteAt(b, offset) && ByteAt(a, offset + 1) == ByteAt(b, offset + 1)
    requires ByteAt(a, offset + 2) == ByteAt(b, offset + 2) && ByteAt(a, offset + 3) == ByteAt(b, offset + 3)
    ensures HeaderField(a, offset) == HeaderField(b, offset)
  {
    assert Word(a, offset) == Word(b, offset);
  }

  lemma ImagePixelsAgree(a: seq<Byte>, b: seq<Byte>, n: nat, p: nat)
    requires forall k: nat :: k >= 4 ==> ByteAt(a, k) == ByteAt(b, k)
    ensures ImagePixels(a, n, p) == ImagePixels(b, n, p)
  {
    var x, y := ImagePixels(a, n, p), ImagePixels(b, n, p);
    forall i | 0 <= i < n
      ensures x[i] == y[i]
    {
      assert forall j :: 0 <= j < p ==> x[i][j] == y[i][j];
    }
  }

  lemma LabelsAgree(a: seq<Byte>, b: seq<Byte>, n: nat)
    requires forall k: nat :: k >= 4 ==> ByteAt(a, k) == ByteAt(b, k)
    requires HeaderField(a, 4) == n && HeaderField(b, 4) == n
    ensures DecodeLabels(a) == DecodeLabels(b)
  {
    assert DecodeLabels(a).value == DecodeLabels(b).value;
  }

  /** The bytes of a file of images: the header, then each image's pixels in order. */
  function FlattenImages(images: seq<seq<Byte>>): seq<Byte> {
    if images == [] then [] else images[0] + FlattenImages(images[1..])
  }

  /** Pixel `j` of image `i` sits at `i * p + j` of the flattened pixels. */
  lemma {:induction false} FlattenImagesAt(images: seq<seq<Byte>>, p: nat, i: nat, j: nat)
    requires forall k :: 0 <= k < |images| ==> |images[k]| == p
    requires i < |images| && j < p
    ensures |FlattenImages(images)| == |images| * p
    ensures i * p + j < |FlattenImages(images)| && FlattenImages(images)[i * p + j] == images[i][j]
    decreases |images|
  {
    FlattenImagesLength(images, p);
    if i > 0 {
      FlattenImagesAt(images[1..], p, i - 1, j);
      assert i * p + j == p + ((i - 1) * p + j);
    }
  }

  lemma {:induction false} FlattenImagesLength(images: seq<seq<Byte>>, p: nat)
    requires forall k :: 0 <= k < |images| ==> |images[k]| == p
    ensures |FlattenImages(images)| == |images| * p
    decreases |images|
  {
    if images != [] {
      FlattenImagesLength(images[1..], p);
    }
  }

  /** Bytes as the floats the loader stores. */
  function AsPixels(images: seq<seq<Byte>>): (m: Matrix)
    ensures |m| == |images| && forall i :: 0 <= i < |images| ==> |m[i]| == |images[i]|
  {
    seq(|images|, i requires 0 <= i < |images| => seq(|images[i]|, j requires 0 <= j < |images[i]| => PixelValue(images[i][j])))
  }

  /** A well-formed image file: a four-byte magic number, the count, rows and columns, then the pixels. */
  function EncodeImages(magic: seq<Byte>, rows: nat, cols: nat, images: seq<seq<Byte>>): seq<Byte>
    requires |magic| == 4 && |images| < 0x8000_0000 && rows < 0x8000_0000 && cols < 0x8000_0000
  {
    magic + EncodeField(|images|) + EncodeField(rows) + EncodeField(cols) + FlattenImages(images)
  }

  /** Loading a well-formed image file gives back its images, whatever its magic number and
      whatever follows the last image. */
  lemma ImagesRoundTrip(magic: seq<Byte>, rows: nat, cols: nat, images: seq<seq<Byte>>, trailing: seq<Byte>)
    requires |magic| == 4 && |images| < 0x8000_0000 && rows < 0x8000_0000 && cols < 0x8000_0000
    requires rows * cols < 0x8000_0000
    requires forall k :: 0 <= k < |images| ==> |images[k]| == rows * cols
    ensures PixelCountFits(EncodeImages(magic, rows, cols, images) + trailing)
    ensures DecodeImages(EncodeImages(magic, rows, cols, images) + trailing) == Ok(AsPixels(images))
  {
    var bytes := EncodeImages(magic, rows, cols, images) + trailing;
    var header := magic + EncodeField(|images|) + EncodeField(rows) + EncodeField(cols);
    assert bytes == header + (FlattenImages(images) + trailing);
    assert bytes[..16] == header;
    HeaderFields(bytes, header, magic, |images|, rows, cols);
    var p := Area(rows, cols);
    DecodeImagesOf(bytes, |images|, rows, cols, p);
    PixelsRoundTrip(bytes, images, p, header, trailing);
  }

  /** The pixels per image of `rows` x `cols` images. */
  function Area(rows: nat, cols: nat): nat {
    rows * cols
  }

  /** What `DecodeImages` gives for a file with a well-formed header. */
  lemma DecodeImagesOf(bytes: seq<Byte>, n: nat, rows: nat, cols: nat, p: nat)
    requires HeaderField(bytes, 4) == n && HeaderField(bytes, 8) == rows && HeaderField(bytes, 12) == cols
    requires rows * cols == p && p < 0x8000_0000
    ensures PixelCountFits(bytes) && DecodeImages(bytes) == Ok(ImagePixels(bytes, n, p))
  {
    ProductInRange(RowCount(bytes), ColumnCount(bytes), rows, cols, p);
  }

  /** Equal factors give an equal product, in `int` range when that one is. */
  lemma ProductInRange(r: int, c: int, rows: nat, cols: nat, p: nat)
    requires r == rows && c == cols && rows * cols == p && p < 0x8000_0000
    ensures r * c == p && -0x8000_0000 <= r * c < 0x8000_0000
  {
  }

  /** The pixels after a 16-byte header are the images laid out one after another. */
  lemma PixelsRoundTrip(bytes: seq<Byte>, images: seq<seq<Byte>>, p: nat, header: seq<Byte>, trailing: seq<Byte>)
    requires |header| == ImageHeaderSize && bytes == header + (FlattenImages(images) + trailing)
    requires forall k :: 0 <= k < |images| ==> |images[k]| == p
    ensures ImagePixels(bytes, |images|, p) == AsPixels(images)
  {
    var pixels := FlattenImages(images);
    FlattenImagesLength(images, p);
    var x, y := ImagePixels(bytes, |images|, p), AsPixels(images);
    forall i | 0 <= i < |images|
      ensures x[i] == y[i]
    {
      forall j | 0 <= j < p
        ensures x[i][j] == y[i][j]
      {
        FlattenImagesAt(images, p, i, j);
        MulBound(i, j, p, |images|);
        assert bytes[PixelOffset(i, p, j)] == pixels[i * p + j];
      }
    }
  }

  /** `i * p + j < n * p` for `i < n` and `j < p`. */
  lemma MulBound(i: nat, j: nat, p: nat, n: nat)
    requires i < n && j < p
    ensures i * p + j < n * p
  {
    assert (i + 1) * p <= n * p;
  }

  /** The three size fields of a file whose header holds them big-endian after the magic number. */
  lemma HeaderFields(bytes: seq<Byte>, header: seq<Byte>, magic: seq<Byte>, n: nat, rows: nat, cols: nat)
    requires |magic| == 4 && n < 0x8000_0000 && rows < 0x8000_0000 && cols < 0x8000_0000
    requires header == magic + EncodeField(n) + EncodeField(rows) + EncodeField(cols)
    requires |bytes| >= 16 && bytes[..16] == header
    ensures HeaderField(bytes, 4) == n && HeaderField(bytes, 8) == rows && HeaderField(bytes, 12) == cols
  {
    assert bytes[4..8] == header[4..8] == EncodeField(n);
    assert bytes[8..12] == header[8..12] == EncodeField(rows);
    assert bytes[12..16] == header[12..16] == EncodeField(cols);
    FieldRoundTrip(bytes, 4, n);
    FieldRoundTrip(bytes, 8, rows);
    FieldRoundTrip(bytes, 12, cols);
  }

  /** A well-formed label file: a four-byte magic number, the count, then one byte per label. */
  function EncodeLabels(magic: seq<Byte>, labels: seq<Byte>): seq<Byte>
    requires |magic| == 4 && |labels| < 0x8000_0000
  {
    magic + EncodeField(|labels|) + labels
  }

  /** Loading a well-formed label file gives back its labels, whatever its magic number and
      whatever follows the last label. */
  lemma LabelsRoundTrip(magic: seq<Byte>, labels: seq<Byte>, trailing: seq<Byte>)
    requires |magic| == 4 && |labels| < 0x8000_0000
    ensures DecodeLabels(EncodeLabels(magic, labels) + trailing)
         == Ok(seq(|labels|, i requires 0 <= i < |labels| => labels[i] as int))
  {
    var bytes := EncodeLabels(magic, labels) + trailing;
    var header := magic + EncodeField(|labels|);
    assert bytes == header + (labels + trailing);
    assert bytes[4..8] == EncodeField(|labels|);
    FieldRoundTrip(bytes, 4, |labels|);
    forall i | 0 <= i < |labels|
      ensures ByteAt(bytes, LabelHeaderSize + i) == labels[i]
    {
      assert bytes[LabelHeaderSize + i] == (labels + trailing)[i];
    }
    assert DecodeLabels(bytes).value == seq(|labels|, i requires 0 <= i < |labels| => labels[i] as int);
  }

  /** Every pixel divided by 255. */
  function Scaled(images: Matrix): (r: Matrix)
    ensures |r| == |images| && forall i :: 0 <= i < |images| ==> |r[i]| == |images[i]|
  {
    seq(|images|, i requires 0 <= i < |images| => seq(|images[i]|, j requires 0 <= j < |images[i]| => images[i][j] / 255.0))
  }

  /** Divides one image's pixels by 255. */
  method NormalizeImage(image: Vector) returns (scaled: Vector)
    ensures |scaled| == |image| && forall j :: 0 <= j < |image| ==> scaled[j] == image[j] / 255.0
  {
    scaled := image;
    var j := 0;
    while j < |scaled|
      invariant 0 <= j <= |scaled| && |scaled| == |image|
      invariant forall k :: 0 <= k < j ==> scaled[k] == image[k] / 255.0
      invariant forall k :: j <= k < |image| ==> scaled[k] == image[k]
    {
      scaled := scaled[j := scaled[j] / 255.0];
      j := j + 1;
    }
  }

  /** Scales the pixels of every image in place (the vector is passed by reference: here it is
      passed in and handed back). */
  method NormalizeImages(images: Matrix) returns (normalized: Matrix)
    ensures normalized == Scaled(images)
  {
    normalized := images;
    var i := 0;
    while i < |normalized|
      invariant 0 <= i <= |normalized| && |normalized| == |images|
      invariant forall k :: 0 <= k < i ==> normalized[k] == Scaled(images)[k]
      invariant forall k :: i <= k < |images| ==> normalized[k] == images[k]
    {
      var image := NormalizeImage(normalized[i]);
      normalized := normalized[i := image];
      i := i + 1;
    }
  }

  /** Pixels in [0, 255] scale into [0, 1]. */
  lemma ScaledInUnitInterval(images: Matrix)
    requires forall i, j :: 0 <= i < |images| && 0 <= j < |images[i]| ==> 0.0 <= images[i][j] <= 255.0
    ensures forall i, j :: 0 <= i < |images| && 0 <= j < |images[i]| ==> 0.0 <= Scaled(images)[i][j] <= 1.0
  {
  }

  /** Multiplying back by 255 restores the pixels. */
  lemma ScaledInverse(images: Matrix, i: nat, j: nat)
    requires i < |images| && j < |images[i]|
    ensures Scaled(images)[i][j] * 255.0 == images[i][j]
  {
  }

  /** Loaded images, once scaled, lie in [0, 1]. */
  lemma DecodedScaledInUnitInterval(bytes: seq<Byte>)
    requires PixelCountFits(bytes) && DecodeImages(bytes).Ok?
    ensures forall i, j :: 0 <= i < |Scaled(DecodeImages(bytes).value)| && 0 <= j < |Scaled(DecodeImages(bytes).value)[i]| ==>
              0.0 <= Scaled(DecodeImages(bytes).value)[i][j] <= 1.0
  {
    var images := DecodeImages(bytes).value;
    ScaledInUnitInterval(images);
  }

  /** Every label names one of `numClasses` classes. */
  predicate LabelsInRange(labels: seq<int>, numClasses: int) {
    forall i :: 0 <= i < |labels| ==> 0 <= labels[i] < numClasses
  }

  /** The matrix of one-hot rows: row `i` is 1 at `labels[i]` and 0 elsewhere. */
  function OneHot(labels: seq<int>, numClasses: nat): (r: Matrix)
    ensures IsMatrix(r, |labels|, numClasses)
  {
    seq(|labels|, i requires 0 <= i < |labels| =>
      seq(numClasses, k requires 0 <= k < numClasses => if k == labels[i] then 1.0 else 0.0))
  }

  /** Fills a zero matrix, then sets the entry of each row's label to 1. A negative class count
      makes the vector constructor throw. */
  method OneHotEncode(labels: seq<int>, numClasses: int) returns (r: Result<Matrix>)
    requires numClasses >= 0 ==> LabelsInRange(labels, numClasses)
    ensures r.Err? <==> numClasses < 0
    ensures r.Err? ==> r.error == LengthError
    ensures r.Ok? ==> r.value == OneHot(labels, numClasses)
  {
    if numClasses < 0 {
      return Err(LengthError);
    }
    var encoded: Matrix := seq(|labels|, _ => seq(numClasses, _ => 0.0));
    var i := 0;
    while i < |labels|
      invariant 0 <= i <= |labels| && |encoded| == |labels|
      invariant forall k :: 0 <= k < i ==> encoded[k] == OneHot(labels, numClasses)[k]
      invariant forall k :: i <= k < |labels| ==> encoded[k] == seq(numClasses, _ => 0.0)
    {
      encoded := encoded[i := encoded[i][labels[i] := 1.0]];
      i := i + 1;
    }
    return Ok(encoded);
  }

  /** The first largest entry of a one-hot row is its label: taking the class of a one-hot
      target gives the label back. */
  lemma OneHotArgMax(labels: seq<int>, numClasses: nat, i: nat)
    requires LabelsInRange(labels, numClasses) && i < |labels|
    ensures ArgMax(OneHot(labels, numClasses)[i]) == labels[i]
  {
    var row := OneHot(labels, numClasses)[i];
    var k := ArgMax(row);
    assert row[labels[i]] == 1.0;
  }

  /** Entry `k` of row `i` is 1 exactly when `k` is the label. */
  lemma OneHotEntries(labels: seq<int>, numClasses: nat, i: nat, k: nat)
    requires i < |labels| && k < numClasses
    ensures OneHot(labels, numClasses)[i][k] == 1.0 <==> k == labels[i]
    ensures OneHot(labels, numClasses)[i][k] == 0.0 <==> k != labels[i]
  {
  }

  /** The number of rows among the first `n` whose predicted class is their label. */
  function LabelMatches(predictions: Matrix, labels: seq<int>, n: nat): (c: nat)
    requires n <= |predictions| && n <= |labels|
    ensures c <= n
  {
    if n == 0 then 0 else LabelMatches(predictions, labels, n - 1) + (if ArgMax(predictions[n - 1]) == labels[n - 1] then 1 else 0)
  }

  /** Accuracy against one-hot targets counts the rows whose predicted class is the label. */
  lemma {:induction false} AccuracyAgainstLabels(predictions: Matrix, labels: seq<int>, numClasses: nat, n: nat)
    requires LabelsInRange(labels, numClasses) && n <= |predictions| && n <= |labels|
    ensures Correct(predictions, OneHot(labels, numClasses), n) == LabelMatches(predictions, labels, n)
  {
    if n > 0 {
      AccuracyAgainstLabels(predictions, labels, numClasses, n - 1);
      OneHotArgMax(labels, numClasses, n - 1);
    }
  }
}
