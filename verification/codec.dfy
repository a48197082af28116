/**
 The diagnostic decoder `decode_stream`: it turns one four-byte bus packet
 back into three 8x8 grids. A grid is indexed `[x][y]`, `x` the column the
 column byte selects and `y` the LED in that column. Entries of columns the
 packet does not address hold the marker 2.

 The decoder takes packet bytes 0, 1 and 2 as the grids it returns first,
 second and third, which it calls red, green and blue. It does not undo the
 red/blue/green byte order the draw loop writes.
 */
module StreamCodec {
  import opened BitOps

  type Grid = seq<seq<int>>

  /** The marker for "this column is not in the packet". */
  const Unaddressed: int := 2

  /** An 8x8 grid. */
  predicate IsGrid(g: Grid) {
    |g| == 8 && forall x :: 0 <= x < 8 ==> |g[x]| == 8
  }

  /** The three grids `decode_stream` returns, in its order. */
  datatype Decoded = Decoded(red: Grid, green: Grid, blue: Grid)

  /** An 8x8 grid with every entry equal to `fill`. */
  function FilledGrid(fill: int): (g: Grid)
    ensures IsGrid(g)
    ensures forall x, y :: 0 <= x < 8 && 0 <= y < 8 ==> g[x][y] == fill
  {
    seq(8, _ => seq(8, _ => fill))
  }

  /**
   The grid held by the column loop of `decode_stream` after its first `n`
   rounds: starting from `frame`, row `x` becomes `bits` for every
   truthy entry `column[x]` with `x < n`.
   */
  function FillColumns(frame: Grid, bits: seq<int>, column: seq<int>, n: nat): (r: Grid)
    requires |frame| == 8 && |column| == 8 && n <= 8
    ensures |r| == 8
    ensures forall x :: 0 <= x < 8 ==> r[x] == (if x < n && Truthy(column[x]) then bits else frame[x])
  {
    if n == 0 then frame
    else
      var g := FillColumns(frame, bits, column, n - 1);
      if Truthy(column[n - 1]) then g[n - 1 := bits] else g
  }

  /**
   The decoded entry `[x][y]` of a channel byte: bit `y` of `channelByte` as
   0 or 1 when bit `x` of `columnByte` is set, and the marker otherwise.
   */
  function Cell(channelByte: Byte, columnByte: Byte, x: nat, y: nat): int
    requires x < 8 && y < 8
  {
    if GetBit(columnByte, x) then BitValue(GetBit(channelByte, y)) else Unaddressed
  }

  /**
   One channel of `decode_stream`: the all-marker grid in which every column
   selected by `columnByte` is replaced by the bit list of `channelByte`.
   */
  function DecodeChannel(channelByte: Byte, columnByte: Byte): (g: Grid)
    ensures IsGrid(g)
    ensures forall x, y :: 0 <= x < 8 && 0 <= y < 8 ==> g[x][y] == Cell(channelByte, columnByte, x, y)
  {
    var bits := GetBitsAsList(channelByte);
    var column := GetBitsAsList(columnByte);
    var g := FillColumns(FilledGrid(Unaddressed), bits, column, 8);
    assert forall x, y :: 0 <= x < 8 && 0 <= y < 8 ==> g[x][y] == Cell(channelByte, columnByte, x, y) by {
      forall x, y | 0 <= x < 8 && 0 <= y < 8
        ensures g[x][y] == Cell(channelByte, columnByte, x, y)
      {
        assert bits[y] == 0 || bits[y] == 1;
        assert Truthy(column[x]) <==> GetBit(columnByte, x);
      }
    }
    g
  }

  /**
   `decode_stream`: entry `[x][y]` of the k-th grid is bit `y` of byte `k`
   when bit `x` of the column byte is set, and 2 otherwise. Only the first
   four bytes are read.
   */
  function DecodeStream(writebytes: seq<Byte>): (r: Decoded)
    requires |writebytes| >= 4
    ensures IsGrid(r.red) && IsGrid(r.green) && IsGrid(r.blue)
    ensures forall x, y :: 0 <= x < 8 && 0 <= y < 8 ==>
      r.red[x][y] == Cell(writebytes[0], writebytes[3], x, y)
    ensures forall x, y :: 0 <= x < 8 && 0 <= y < 8 ==>
      r.green[x][y] == Cell(writebytes[1], writebytes[3], x, y)
    ensures forall x, y :: 0 <= x < 8 && 0 <= y < 8 ==>
      r.blue[x][y] == Cell(writebytes[2], writebytes[3], x, y)
  {
    Decoded(DecodeChannel(writebytes[0], writebytes[3]),
            DecodeChannel(writebytes[1], writebytes[3]),
            DecodeChannel(writebytes[2], writebytes[3]))
  }

  /** The grid that holds `row` in column `c` and the marker everywhere else. */
  function ColumnOnly(c: nat, row: seq<int>): (g: Grid)
    requires c < 8 && |row| == 8
    ensures IsGrid(g)
    ensures g[c] == row
    ensures forall x, y :: 0 <= x < 8 && x != c && 0 <= y < 8 ==> g[x][y] == Unaddressed
  {
    FilledGrid(Unaddressed)[c := row]
  }

  /** A packet whose column byte is zero decodes to three grids of markers. */
  lemma ZeroColumnDecodesUnaddressed(writebytes: seq<Byte>)
    requires |writebytes| >= 4 && writebytes[3] == 0
    ensures DecodeStream(writebytes) == Decoded(FilledGrid(Unaddressed), FilledGrid(Unaddressed), FilledGrid(Unaddressed))
  {
  }

  /**
   A column byte with several bits set fills every selected column with the
   same decoded bits.
   */
  lemma MultiColumnDecode(writebytes: seq<Byte>, x1: nat, x2: nat)
    requires |writebytes| >= 4 && x1 < 8 && x2 < 8
    requires GetBit(writebytes[3], x1) && GetBit(writebytes[3], x2)
    ensures DecodeStream(writebytes).red[x1] == DecodeStream(writebytes).red[x2] == GetBitsAsList(writebytes[0])
    ensures DecodeStream(writebytes).green[x1] == DecodeStream(writebytes).green[x2] == GetBitsAsList(writebytes[1])
    ensures DecodeStream(writebytes).blue[x1] == DecodeStream(writebytes).blue[x2] == GetBitsAsList(writebytes[2])
  {
  }

  /**
   Round trip: decoding the encoded rows `a`, `b`, `c` together with the
   one-hot column byte of column `col` gives `a`, `b`, `c` in column `col`
   and markers everywhere else.
   */
  lemma PacketRoundTrip(a: seq<int>, b: seq<int>, c: seq<int>, col: nat)
    requires |a| == 8 && |b| == 8 && |c| == 8
    requires IsBinary(a) && IsBinary(b) && IsBinary(c)
    requires col < 8
    ensures DecodeStream([SetBitsFromList(a), SetBitsFromList(b), SetBitsFromList(c), SetBit(col)])
         == Decoded(ColumnOnly(col, a), ColumnOnly(col, b), ColumnOnly(col, c))
  {
    var wb := [SetBitsFromList(a), SetBitsFromList(b), SetBitsFromList(c), SetBit(col)];
    OneHotDecode(wb, col);
    ListRoundTrip(a);
    ListRoundTrip(b);
    ListRoundTrip(c);
  }

  /**
   A packet with the one-hot column byte of column `col` decodes to the bit
   lists of its first three bytes in column `col` and markers elsewhere.
   */
  lemma OneHotDecode(writebytes: seq<Byte>, col: nat)
    requires |writebytes| >= 4 && col < 8 && writebytes[3] == SetBit(col)
    ensures DecodeStream(writebytes) == Decoded(ColumnOnly(col, GetBitsAsList(writebytes[0])),
                                               ColumnOnly(col, GetBitsAsList(writebytes[1])),
                                               ColumnOnly(col, GetBitsAsList(writebytes[2])))
  {
    var r := DecodeStream(writebytes);
    OneHot(col);
    ChannelOneColumn(r.red, writebytes[0], writebytes[3], col);
    ChannelOneColumn(r.green, writebytes[1], writebytes[3], col);
    ChannelOneColumn(r.blue, writebytes[2], writebytes[3], col);
  }

  /**
   One decoded channel when exactly bit `col` of the column byte is set: the
   grid is the bit list of `v` in column `col` and markers elsewhere.
   */
  lemma ChannelOneColumn(g: Grid, v: Byte, column: Byte, col: nat)
    requires col < 8 && IsGrid(g)
    requires forall x :: 0 <= x < 8 ==> (GetBit(column, x) <==> x == col)
    requires forall x, y :: 0 <= x < 8 && 0 <= y < 8 ==> g[x][y] == Cell(v, column, x, y)
    ensures g == ColumnOnly(col, GetBitsAsList(v))
  {
    var h := ColumnOnly(col, GetBitsAsList(v));
    forall x, y | 0 <= x < 8 && 0 <= y < 8
      ensures g[x][y] == h[x][y]
    {
      if x == col {
        var bits := GetBitsAsList(v);
        assert bits[y] == 0 || bits[y] == 1;
      }
    }
    RowsEqual(g, h);
  }

  /** Two 8x8 grids that agree entry by entry are equal. */
  lemma RowsEqual(g: Grid, h: Grid)
    requires IsGrid(g) && IsGrid(h)
    requires forall x, y :: 0 <= x < 8 && 0 <= y < 8 ==> g[x][y] == h[x][y]
    ensures g == h
  {
    assert forall x :: 0 <= x < 8 ==> g[x] == h[x];
  }
}
