/**
 * Frame output to the SSD1306 OLED display.
 *
 * A 128 x 64 grey-scale image is packed into the controller's page-major
 * bit-plane layout: 8 pages of 8 pixel rows, one byte per (page, column),
 * with bit k of a byte holding row 8 * page + k. The 1024-byte frame is sent
 * as data blocks of 16 bytes. What the display receives is recorded as a
 * sequence of transfers.
 */
module Display {

  /** A 16-bit grey-scale pixel value; the pixel is lit when it is not zero. */
  newtype u16 = x: int | 0 <= x < 0x1_0000

  newtype byte = x: int | 0 <= x < 0x100

  const Width: nat := 128
  const Pages: nat := 8
  const Height: nat := 64
  const ChunkSize: nat := 16
  /** The number of bytes in one frame: one per page and column. */
  const FrameSize: nat := 1024
  /** The number of 16-byte blocks in one frame. */
  const BlocksPerFrame: nat := 64

  /** The display commands sent outside `Initialize`. */
  datatype Command =
    | SetColumnAddress                           // the default, full column range
    | SetPageAddress(startPage: nat, endPage: nat)

  /** One transfer on the display bus. */
  datatype Transfer = Command(command: Command) | Data(bytes: seq<byte>)

  predicate Lit(pixel: u16) {
    pixel > 0
  }

  predicate ImageFits(image: array2<u16>) {
    image.Length0 >= Width && image.Length1 >= Height
  }

  function Pow2(n: nat): (r: nat)
    ensures r >= 1
  {
    if n == 0 then 1 else 2 * Pow2(n - 1)
  }

  /** Bit k of v (bit 0 the least significant): v shifted right k times, then its lowest bit. */
  predicate BitSet(v: nat, k: nat) {
    if k == 0 then v % 2 == 1 else BitSet(v / 2, k - 1)
  }

  predicate ByteBit(b: byte, k: nat) {
    BitSet(b as nat, k)
  }

  /** `bits << 1` followed by `bits |= 1` or `bits |= 0`; the shift clears the lowest bit, so the OR adds. */
  function ShiftIn(bits: nat, lit: bool): (shifted: nat) {
    bits * 2 + (if lit then 1 else 0)
  }

  /**
   * The pixels the bit loop for column x of page reads, in the order it reads
   * them: pass j reads row 8 * page + 7 - j, from the bottom row of the page up.
   */
  function ColumnPixels(image: array2<u16>, page: nat, x: nat): (passes: seq<bool>)
    requires ImageFits(image) && page < Pages && x < Width
    reads image
    ensures |passes| == 8
  {
    seq(8, j requires 0 <= j < 8 reads image => Lit(image[x, page * 8 + 7 - j]))
  }

  /** The value of `bits` after shifting in `passes`, the first pass first. */
  function ShiftAll(passes: seq<bool>): (bits: nat)
    ensures bits < Pow2(|passes|)
  {
    if |passes| == 0 then 0 else ShiftIn(ShiftAll(passes[..|passes| - 1]), passes[|passes| - 1])
  }

  /** The byte packed for column x of page: all 8 passes of the bit loop. */
  function PackedByte(image: array2<u16>, page: nat, x: nat): (b: byte)
    requires ImageFits(image) && page < Pages && x < Width
    reads image
  {
    assert Pow2(8) == 256;
    ShiftAll(ColumnPixels(image, page, x)) as byte
  }

  /** The bytes of the first n columns of page, in column order. */
  function PageBytes(image: array2<u16>, page: nat, n: nat): (bytes: seq<byte>)
    requires ImageFits(image) && page < Pages && n <= Width
    reads image
    ensures |bytes| == n
  {
    if n == 0 then [] else PageBytes(image, page, n - 1) + [PackedByte(image, page, n - 1)]
  }

  /** The bytes of the first p pages, page after page. */
  function FramePages(image: array2<u16>, p: nat): (frame: seq<byte>)
    requires ImageFits(image) && p <= Pages
    reads image
    ensures |frame| == p * Width
  {
    if p == 0 then [] else FramePages(image, p - 1) + PageBytes(image, p - 1, Width)
  }

  /** The whole packed frame. */
  function Frame(image: array2<u16>): (frame: seq<byte>)
    requires ImageFits(image)
    reads image
  {
    FramePages(image, Pages)
  }

  /** Bit k of the shifted value holds the pass made k passes before the last one. */
  lemma {:induction false} ShiftAllBits(passes: seq<bool>, k: nat)
    requires k < |passes|
    ensures BitSet(ShiftAll(passes), k) <==> passes[|passes| - 1 - k]
  {
    var n := |passes|;
    var front := passes[..n - 1];
    ShiftInBits(ShiftAll(front), passes[n - 1]);
    if k > 0 {
      ShiftAllBits(front, k - 1);
      assert front[n - 1 - 1 - (k - 1)] == passes[n - 1 - k];
    }
  }

  /** Shifting in a pass puts it in bit 0 and moves the earlier bits up by one. */
  lemma ShiftInBits(bits: nat, lit: bool)
    ensures ShiftIn(bits, lit) / 2 == bits
    ensures ShiftIn(bits, lit) % 2 == 1 <==> lit
  {
  }

  /** Bit k of the byte packed for column x of page is set exactly when pixel (x, 8 * page + k) is lit. */
  lemma PackedByteBits(image: array2<u16>, page: nat, x: nat, k: nat)
    requires ImageFits(image) && page < Pages && x < Width && k < 8
    ensures ByteBit(PackedByte(image, page, x), k) <==> Lit(image[x, page * 8 + k])
  {
    ShiftAllBits(ColumnPixels(image, page, x), k);
  }

  /** Byte x of a page's bytes is the byte packed for column x. */
  lemma {:induction false} PageBytesAt(image: array2<u16>, page: nat, n: nat, x: nat)
    requires ImageFits(image) && page < Pages && x < n <= Width
    ensures PageBytes(image, page, n)[x] == PackedByte(image, page, x)
  {
    if x < n - 1 {
      PageBytesAt(image, page, n - 1, x);
    }
  }

  /** Byte page * 128 + x of the first p pages is the byte packed for column x of page. */
  lemma {:induction false} FramePagesAt(image: array2<u16>, p: nat, page: nat, x: nat)
    requires ImageFits(image) && page < p <= Pages && x < Width
    ensures page * Width + x < p * Width
    ensures FramePages(image, p)[page * Width + x] == PackedByte(image, page, x)
  {
    if page < p - 1 {
      FramePagesAt(image, p - 1, page, x);
    } else {
      PageBytesAt(image, page, Width, x);
    }
  }

  /**
   * The frame has 8 * 128 bytes in page-major order, and bit k of the byte
   * at page * 128 + x is set exactly when pixel (x, 8 * page + k) is lit.
   */
  lemma FrameLayout(image: array2<u16>, page: nat, x: nat, k: nat)
    requires ImageFits(image) && page < Pages && x < Width && k < 8
    ensures |Frame(image)| == Pages * Width
    ensures Frame(image)[page * Width + x] == PackedByte(image, page, x)
    ensures ByteBit(Frame(image)[page * Width + x], k) <==> Lit(image[x, page * 8 + k])
  {
    FramePagesAt(image, Pages, page, x);
    PackedByteBits(image, page, x, k);
  }

  /** An image with no lit pixel packs to a frame of zero bytes. */
  lemma {:induction false} DarkImageFrame(image: array2<u16>, p: nat)
    requires ImageFits(image) && p <= Pages
    requires forall x, y :: 0 <= x < Width && 0 <= y < Height ==> image[x, y] == 0
    ensures FramePages(image, p) == Zeros(p * Width)
  {
    if p > 0 {
      DarkImageFrame(image, p - 1);
      DarkPage(image, p - 1, Width);
      assert Zeros(p * Width) == Zeros((p - 1) * Width) + Zeros(Width);
    }
  }

  lemma {:induction false} DarkPage(image: array2<u16>, page: nat, n: nat)
    requires ImageFits(image) && page < Pages && n <= Width
    requires forall x, y :: 0 <= x < Width && 0 <= y < Height ==> image[x, y] == 0
    ensures PageBytes(image, page, n) == Zeros(n)
  {
    if n > 0 {
      DarkPage(image, page, n - 1);
      var passes := ColumnPixels(image, page, n - 1);
      forall j | 0 <= j < 8
        ensures !passes[j]
      {
        assert passes[j] == Lit(image[n - 1, page * 8 + 7 - j]);
      }
      DarkShiftAll(passes);
      assert Zeros(n) == Zeros(n - 1) + [0];
    }
  }

  lemma {:induction false} DarkShiftAll(passes: seq<bool>)
    requires forall j :: 0 <= j < |passes| ==> !passes[j]
    ensures ShiftAll(passes) == 0
  {
    if |passes| > 0 {
      DarkShiftAll(passes[..|passes| - 1]);
    }
  }

  function Zeros(n: nat): (r: seq<byte>)
    ensures |r| == n && forall i :: 0 <= i < n ==> r[i] == 0
  {
    seq(n, i => 0)
  }

  function Min(a: int, b: int): (m: int) {
    if a <= b then a else b
  }

  /** The blocks `buffer.Skip(i).Take(16)` for i = start, start + 16, ... while i is below the length. */
  function ChunksFrom(buffer: seq<byte>, start: nat): (blocks: seq<seq<byte>>)
    decreases |buffer| - start
  {
    if start >= |buffer| then []
    else [buffer[start..Min(start + ChunkSize, |buffer|)]] + ChunksFrom(buffer, start + ChunkSize)
  }

  function Chunks(buffer: seq<byte>): (blocks: seq<seq<byte>>) {
    ChunksFrom(buffer, 0)
  }

  function Flatten(blocks: seq<seq<byte>>): (bytes: seq<byte>) {
    if |blocks| == 0 then [] else blocks[0] + Flatten(blocks[1..])
  }

  /** Sending the blocks in order puts back the buffer: their concatenation is the buffer. */
  lemma {:induction false} ChunksConcatenate(buffer: seq<byte>, start: nat)
    requires start <= |buffer|
    ensures Flatten(ChunksFrom(buffer, start)) == buffer[start..]
    decreases |buffer| - start
  {
    if start < |buffer| {
      var end := Min(start + ChunkSize, |buffer|);
      ChunksConcatenate(buffer, end);
      if end < start + ChunkSize {
        assert ChunksFrom(buffer, start + ChunkSize) == [];
      }
      assert buffer[start..] == buffer[start..end] + buffer[end..];
    }
  }

  /** Every block holds between 1 and 16 bytes. */
  lemma {:induction false} ChunkSizes(buffer: seq<byte>, start: nat)
    ensures forall c :: c in ChunksFrom(buffer, start) ==> 0 < |c| <= ChunkSize
    decreases |buffer| - start
  {
    if start < |buffer| {
      ChunkSizes(buffer, start + ChunkSize);
    }
  }

  /** When 16 divides what is left, there are exactly that many 16-byte blocks, all full. */
  lemma {:induction false} FullChunks(buffer: seq<byte>, start: nat, m: nat)
    requires start + m * ChunkSize == |buffer|
    ensures |ChunksFrom(buffer, start)| == m
    ensures forall c :: c in ChunksFrom(buffer, start) ==> |c| == ChunkSize
    decreases m
  {
    if m > 0 {
      FullChunks(buffer, start + ChunkSize, m - 1);
    }
  }

  /** A frame is sent as 64 blocks of 16 bytes that concatenate to the frame. */
  lemma FrameChunks(frame: seq<byte>)
    requires |frame| == FrameSize
    ensures |Chunks(frame)| == BlocksPerFrame
    ensures forall c :: c in Chunks(frame) ==> |c| == ChunkSize
    ensures Flatten(Chunks(frame)) == frame
  {
    FullChunks(frame, 0, BlocksPerFrame);
    ChunksConcatenate(frame, 0);
  }

  /** The data transfers carrying `blocks`, in order. */
  function DataBlocks(blocks: seq<seq<byte>>): (r: seq<Transfer>)
    ensures |r| == |blocks|
  {
    if |blocks| == 0 then [] else DataBlocks(blocks[..|blocks| - 1]) + [Data(blocks[|blocks| - 1])]
  }

  /** Transfer i carries block i. */
  lemma {:induction false} DataBlocksAt(blocks: seq<seq<byte>>, i: nat)
    requires i < |blocks|
    ensures DataBlocks(blocks)[i] == Data(blocks[i])
  {
    if i < |blocks| - 1 {
      DataBlocksAt(blocks[..|blocks| - 1], i);
    }
  }

  /** Sending one more block appends its data transfer. */
  lemma DataBlocksAppend(blocks: seq<seq<byte>>, block: seq<byte>)
    ensures DataBlocks(blocks + [block]) == DataBlocks(blocks) + [Data(block)]
  {
    assert (blocks + [block])[..|blocks|] == blocks;
  }

  /** The blocks `Clear` sends: 64 blocks of 16 zero bytes. */
  function ZeroBlocks(): (blocks: seq<seq<byte>>) {
    seq(BlocksPerFrame, i => Zeros(ChunkSize))
  }

  /**
   * `Clear` sends exactly what a frame of a dark image would send:
   * 64 blocks of 16 zero bytes, 1024 zero bytes in all.
   */
  lemma ClearSendsDarkFrame(image: array2<u16>)
    requires ImageFits(image)
    requires forall x, y :: 0 <= x < Width && 0 <= y < Height ==> image[x, y] == 0
    ensures ZeroBlocks() == Chunks(Frame(image))
    ensures Flatten(ZeroBlocks()) == Zeros(FrameSize)
  {
    DarkImageFrame(image, Pages);
    ZeroChunks(0);
    ChunksConcatenate(Zeros(FrameSize), 0);
  }

  /** Chunking a run of zero bytes from a block boundary gives blocks of 16 zeros. */
  lemma {:induction false} ZeroChunks(j: nat)
    requires j <= BlocksPerFrame
    ensures ChunksFrom(Zeros(FrameSize), j * ChunkSize) == ZeroBlocks()[j..]
    decreases BlocksPerFrame - j
  {
    if j < BlocksPerFrame {
      ZeroChunks(j + 1);
      assert Zeros(FrameSize)[j * ChunkSize..j * ChunkSize + ChunkSize] == Zeros(ChunkSize);
      assert ZeroBlocks()[j..] == [Zeros(ChunkSize)] + ZeroBlocks()[j + 1..];
    }
  }

  /** The bit loop of `DisplayImage`: shifts the 8 pixels of column x of page into one byte, bottom row first. */
  method PackColumn(image: array2<u16>, page: nat, x: nat) returns (b: byte)
    requires ImageFits(image) && page < Pages && x < Width
    ensures b == PackedByte(image, page, x)
  {
    ghost var passes := ColumnPixels(image, page, x);
    var bits: nat := 0;
    var bit := 0;
    while bit < 8
      invariant bit <= 8
      invariant bits == ShiftAll(passes[..bit])
    {
      assert passes[..bit + 1][..bit] == passes[..bit];
      bits := bits * 2;
      bits := bits + if Lit(image[x, page * 8 + 7 - bit]) then 1 else 0;
      bit := bit + 1;
    }
    assert passes[..8] == passes;
    assert Pow2(8) == 256;
    b := bits as byte;
  }

  /** Appends the 128 column bytes of one page, as the column loop of `DisplayImage` does. */
  method PackPage(image: array2<u16>, page: nat, prefix: seq<byte>) returns (buffer: seq<byte>)
    requires ImageFits(image) && page < Pages
    requires prefix == FramePages(image, page)
    ensures buffer == FramePages(image, page + 1)
  {
    buffer := prefix;
    for x := 0 to Width
      invariant buffer == prefix + PageBytes(image, page, x)
    {
      var bits := PackColumn(image, page, x);
      buffer := buffer + [bits];
    }
  }

  /** Packs the image into the page-major bit-plane frame, as the loops of `DisplayImage` do. */
  method PackFrame(image: array2<u16>) returns (buffer: seq<byte>)
    requires ImageFits(image)
    ensures |buffer| == Pages * Width
    ensures buffer == Frame(image)
  {
    buffer := [];
    for page := 0 to Pages
      invariant buffer == FramePages(image, page)
    {
      buffer := PackPage(image, page, buffer);
    }
  }

  /** The offsets of the clock text in `DisplayClock`: `height` counts up and wraps at the image height. */
  method ClockOffsets() returns (offsets: seq<nat>)
    ensures |offsets| == 100
    ensures forall i :: 0 <= i < 100 ==> offsets[i] == i % Height && offsets[i] < Height
  {
    offsets := [];
    var height := 0;
    for i := 0 to 100
      invariant |offsets| == i
      invariant height == i % Height
      invariant forall j :: 0 <= j < i ==> offsets[j] == j % Height
    {
      offsets := offsets + [height];
      height := height + 1;
      if height >= Height {
        height := 0;
      }
    }
  }

  /** The display, as the sequence of transfers it has received. */
  class OledDisplay {
    var sent: seq<Transfer>

    method SendCommand(command: Command)
      modifies this
      ensures sent == old(sent) + [Command(command)]
    {
      sent := sent + [Command(command)];
    }

    method SendData(bytes: seq<byte>)
      modifies this
      ensures sent == old(sent) + [Data(bytes)]
    {
      sent := sent + [Data(bytes)];
    }

    /** Sends the packed frame of `image` as consecutive 16-byte data blocks. */
    method DisplayImage(image: array2<u16>)
      requires ImageFits(image)
      modifies this
      ensures sent == old(sent) + DataBlocks(Chunks(Frame(image)))
    {
      var buffer := PackFrame(image);
      var i := 0;
      ghost var emitted: seq<seq<byte>> := [];
      while i < |buffer|
        invariant sent == old(sent) + DataBlocks(emitted)
        invariant emitted + ChunksFrom(buffer, i) == Chunks(buffer)
        decreases |buffer| - i
      {
        var block := buffer[i..Min(i + ChunkSize, |buffer|)];
        SendData(block);
        DataBlocksAppend(emitted, block);
        assert emitted + ChunksFrom(buffer, i) == (emitted + [block]) + ChunksFrom(buffer, i + ChunkSize);
        emitted := emitted + [block];
        i := i + ChunkSize;
      }
      assert emitted == Chunks(buffer);
    }

    /** Blanks the display: resets the address window and sends 64 blocks of 16 zero bytes. */
    method Clear()
      modifies this
      ensures sent == old(sent) + [Command(SetColumnAddress), Command(SetPageAddress(0, 7))]
                                + DataBlocks(ZeroBlocks())
    {
      SendCommand(SetColumnAddress);
      SendCommand(SetPageAddress(0, 7));
      ghost var start := sent;
      for cnt := 0 to BlocksPerFrame
        invariant sent == start + DataBlocks(ZeroBlocks()[..cnt])
      {
        var data := Zeros(ChunkSize);
        SendData(data);
        assert ZeroBlocks()[..cnt + 1][..cnt] == ZeroBlocks()[..cnt];
      }
      assert ZeroBlocks()[..BlocksPerFrame] == ZeroBlocks();
    }
  }
}
