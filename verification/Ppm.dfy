/**
 The pixel loops of the screenshot layer's writePPM. The image lies in memory with a row pitch and three or four
 bytes a pixel; the file gets three bytes a pixel without gaps. The main result: byte 3*(y*width+x)+c of the file is
 byte offset+y*rowPitch+n*x+c of the memory, for n channels.
 */
module Ppm {

  type byte = x: int | 0 <= x < 256

  datatype Layout = Layout(offset: nat, rowPitch: nat)

  /** The memory has all rows. */
  predicate Holds(memory: seq<byte>, layout: Layout, width: nat, height: nat, n: nat) {
    height > 0 ==> layout.offset + (height - 1) * layout.rowPitch + n * width <= |memory|
  }

  /** Where pixel `x` of row `y` starts. */
  function PixelAt(layout: Layout, n: nat, x: nat, y: nat): nat {
    layout.offset + y * layout.rowPitch + n * x
  }

  lemma {:induction false} Order(a: nat, b: nat, k: nat)
    requires a <= b
    ensures a * k <= b * k
  {
    assert (b - a) * k >= 0;
  }

  lemma {:induction false} PixelInside(memory: seq<byte>, layout: Layout, width: nat, height: nat, n: nat, x: nat,
                                       y: nat)
    requires Holds(memory, layout, width, height, n) && x < width && y < height
    ensures PixelAt(layout, n, x, y) + n <= |memory|
  {
    Order(y, height - 1, layout.rowPitch);
    Order(x + 1, width, n);
    assert (x + 1) * n == n * x + n && width * n == n * width;
  }

  lemma {:induction false} RowInside(memory: seq<byte>, layout: Layout, width: nat, height: nat, n: nat, y: nat)
    requires Holds(memory, layout, width, height, n) && y < height
    ensures PixelAt(layout, n, 0, y) + n * width <= |memory|
  {
    Order(y, height - 1, layout.rowPitch);
  }

  /** Byte `c` of pixel `x` in the file's row `y` is that of the memory. */
  predicate ByteIs(row: seq<byte>, memory: seq<byte>, layout: Layout, n: nat, x: nat, y: nat, c: nat) {
    && 3 * x + c < |row| && PixelAt(layout, n, x, y) + c < |memory|
    && row[3 * x + c] == memory[PixelAt(layout, n, x, y) + c]
  }

  /** The first `width` pixels of row `y` in the file are those of the memory. */
  ghost predicate RowIs(row: seq<byte>, memory: seq<byte>, layout: Layout, n: nat, width: nat, y: nat) {
    && |row| == 3 * width
    && forall x: nat, c: nat :: x < width && c < 3 ==> ByteIs(row, memory, layout, n, x, y, c)
  }

  /** The first `height` rows, without gaps. */
  ghost predicate BodyIs(body: seq<byte>, memory: seq<byte>, layout: Layout, n: nat, width: nat, height: nat) {
    && |body| == 3 * width * height
    && forall y: nat :: y < height ==>
         Fits(body, width, y) && RowIs(RowOf(body, width, y), memory, layout, n, width, y)
  }

  predicate Fits(body: seq<byte>, width: nat, y: nat) {
    3 * width * y + 3 * width <= |body|
  }

  function RowOf(body: seq<byte>, width: nat, y: nat): seq<byte>
    requires Fits(body, width, y)
  {
    body[3 * width * y..3 * width * y + 3 * width]
  }

  lemma {:induction false} NextRow(body: seq<byte>, row: seq<byte>, memory: seq<byte>, layout: Layout, n: nat,
                                   width: nat, y: nat)
    requires BodyIs(body, memory, layout, n, width, y) && RowIs(row, memory, layout, n, width, y)
    ensures BodyIs(body + row, memory, layout, n, width, y + 1)
  {
    var w := 3 * width;
    assert w * (y + 1) == w * y + w;
    forall z: nat | z < y + 1
      ensures Fits(body + row, width, z) && RowIs(RowOf(body + row, width, z), memory, layout, n, width, z)
    {
      if z < y {
        assert Fits(body, width, z);
        assert RowOf(body + row, width, z) == RowOf(body, width, z);
      } else {
        assert RowOf(body + row, width, z) == row;
      }
    }
  }

  /** Three channels: a row is one write. */
  method WriteRow3(memory: seq<byte>, layout: Layout, width: nat, height: nat, ghost y: nat, ptr: nat)
    returns (row: seq<byte>)
    requires Holds(memory, layout, width, height, 3) && y < height && ptr == PixelAt(layout, 3, 0, y)
    ensures RowIs(row, memory, layout, 3, width, y)
  {
    RowInside(memory, layout, width, height, 3, y);
    row := memory[ptr..ptr + 3 * width];
    forall x: nat, c: nat | x < width && c < 3
      ensures ByteIs(row, memory, layout, 3, x, y, c)
    {
      assert row[3 * x + c] == memory[ptr + (3 * x + c)];
    }
  }

  lemma {:induction false} NextPixel(row: seq<byte>, memory: seq<byte>, layout: Layout, width: nat, y: nat)
    requires RowIs(row, memory, layout, 4, width, y) && PixelAt(layout, 4, width, y) + 3 <= |memory|
    ensures var pixel := PixelAt(layout, 4, width, y);
            RowIs(row + memory[pixel..pixel + 3], memory, layout, 4, width + 1, y)
  {
    var pixel := PixelAt(layout, 4, width, y);
    var more := row + memory[pixel..pixel + 3];
    forall x: nat, c: nat | x < width + 1 && c < 3
      ensures ByteIs(more, memory, layout, 4, x, y, c)
    {
      if x < width {
        assert ByteIs(row, memory, layout, 4, x, y, c);
      } else {
        assert more[3 * width + c] == memory[pixel..pixel + 3][c];
      }
    }
  }

  /** Four channels: the first three bytes of each pixel. */
  method WriteRow4(memory: seq<byte>, layout: Layout, width: nat, height: nat, ghost y: nat, ptr: nat)
    returns (row: seq<byte>)
    requires Holds(memory, layout, width, height, 4) && y < height && ptr == PixelAt(layout, 4, 0, y)
    ensures RowIs(row, memory, layout, 4, width, y)
  {
    row := [];
    var pixel := ptr;
    for x := 0 to width
      invariant RowIs(row, memory, layout, 4, x, y) && pixel == PixelAt(layout, 4, x, y)
    {
      PixelInside(memory, layout, width, height, 4, x, y);
      NextPixel(row, memory, layout, x, y);
      row := row + memory[pixel..pixel + 3];
      pixel := pixel + 4;
    }
  }

  /** The loops of writePPM behind the header; any other number of channels writes nothing. */
  method WritePixels(memory: seq<byte>, layout: Layout, width: nat, height: nat, numChannels: nat)
    returns (body: seq<byte>)
    requires numChannels == 3 || numChannels == 4 ==> Holds(memory, layout, width, height, numChannels)
    ensures if numChannels == 3 || numChannels == 4 then BodyIs(body, memory, layout, numChannels, width, height)
            else body == []
  {
    body := [];
    var ptr := layout.offset;
    if numChannels == 3 {
      for y := 0 to height
        invariant BodyIs(body, memory, layout, 3, width, y) && ptr == PixelAt(layout, 3, 0, y)
      {
        var row := WriteRow3(memory, layout, width, height, y, ptr);
        NextRow(body, row, memory, layout, 3, width, y);
        body := body + row;
        assert (y + 1) * layout.rowPitch == y * layout.rowPitch + layout.rowPitch;
        ptr := ptr + layout.rowPitch;
      }
    } else if numChannels == 4 {
      for y := 0 to height
        invariant BodyIs(body, memory, layout, 4, width, y) && ptr == PixelAt(layout, 4, 0, y)
      {
        var row := WriteRow4(memory, layout, width, height, y, ptr);
        NextRow(body, row, memory, layout, 4, width, y);
        body := body + row;
        assert (y + 1) * layout.rowPitch == y * layout.rowPitch + layout.rowPitch;
        ptr := ptr + layout.rowPitch;
      }
    }
  }

  /** Every byte of the file, by its index. */
  lemma {:induction false} ByteAt(body: seq<byte>, memory: seq<byte>, layout: Layout, n: nat, width: nat, height: nat,
                                  x: nat, y: nat, c: nat)
    requires BodyIs(body, memory, layout, n, width, height) && x < width && y < height && c < 3
    ensures var source, target := layout.offset + y * layout.rowPitch + n * x + c, 3 * (y * width + x) + c;
            source < |memory| && target < |body| && body[target] == memory[source]
  {
    var row, start := RowOf(body, width, y), 3 * width * y;
    assert ByteIs(row, memory, layout, n, x, y, c);
    assert row[3 * x + c] == body[start + (3 * x + c)];
    assert start == 3 * (y * width);
  }
}
