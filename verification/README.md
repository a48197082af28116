# matrixdriver in Dafny

A model of the pure core of `driver/matrixdriver/matrixdriver.py`, the driver for
an 8x8 RGB LED matrix built on 74HC595 shift registers and fed over SPI. Each
refresh the driver streams, column by column, a four-byte packet: red byte, blue
byte, green byte, column-select byte. The model has three modules:

- `BitOps` (`bitops.dfy`): `set_bit`, `clear_bit`, `get_bit`,
  `set_bits_from_list` and `get_bits_as_list`, which convert between a byte and
  an eight-entry list of bits. Index 0 is the least significant bit.
- `StreamCodec` (`codec.dfy`): `decode_stream`, the diagnostic decoder. It turns
  one packet back into three 8x8 grids and uses the value 2 for entries the
  packet does not address.
- `MatrixDriver` (`driver.dfy`): the driver object built by `__init__`, the
  frame buffer set by `frames`, and `draw` as a pure function. That function
  maps the buffered grids, the iteration count and a transport fault to a
  trace of bus events: open, the optional speed setting, writes, and close.

Every Python default argument is a Dafny default value: `value := 0` for
`SetBit` and `ClearBit`, `spiMaxSpeedHz := None` and `debug := 0` for `Init`,
`mirror := true` for `Frames`, and `iterations := 1` for `Draw`. `Draw` also
takes the transport fault, which defaults to `NoFault`. The packet builder
calls `SetBit(line)` with the default value, as `draw` calls `set_bit(line)`.

Bytes are `bv8`, so every byte the model computes lies in 0..255 by its type.
Grid entries are Python integers (`int`), and an entry counts as set exactly when
it is non-zero. A grid's outer index is the column (`line` in `draw`). Its
inner index is the LED within that column.

The SPI transport appears only as the events of the trace. A transport error is
an input to `Draw`: either the open call raises, or the write at a given
position raises. In both cases the trace still ends with the close that the
`finally` block performs.

### Where the code and its documentation differ (the model follows the code)

- Polarity: a truthy list entry leaves its bit set, so an all-ones list encodes
  to 0xFF, and a column whose three rows encode to 0xFF is skipped. The list
  `[1,0,0,0,0,0,0,0]` encodes to 0x01, not to the 0xFE an active-low reading
  of the entries would give (`BitOps.SingleTruthyEntryEncoding`). The class
  docstring says 0 means "not on", while the test pattern uses 0 for the lit
  pixel. A fresh driver holds all-ones
  grids, so it writes nothing.
- `decode_stream` does not swap channels back. It reads packet bytes 0, 1 and 2
  as its red, green and blue grids, so decoding a packet written by `draw`
  (`[red, blue, green, column]`) gives the grids in the order red, blue, green
  (`MatrixDriver.DrawnPacketDecodes`).
- A column byte with several bits set fills every selected column. It does not
  produce all-2 grids (`StreamCodec.MultiColumnDecode`).
- `frames(mirror=True)` reverses the caller's outer lists in place and stores
  them by reference. It does not work on a copy. `Frames` therefore also returns
  the caller's lists after the call, and these equal the stored grids.
- The code checks no index ranges and no list lengths, and most out-of-range
  inputs do not raise. The model restricts them by precondition or by type:
  bit indices from 0 to 7, lists of at most eight entries, 8x8 grids for
  `draw`, grids of exactly eight rows for mirroring, and packets of at least
  four bytes for `decode_stream`. "## Left out" lists what the code does
  on the excluded inputs.

## Model

| member | source | states |
|---|---|---|
| `BitOps.SetBit` | driver/matrixdriver/matrixdriver.py:7-23 | afterwards bit `index` is set, and each of the other seven bits reads as it did before; `value` defaults to 0 |
| `BitOps.ClearBit` | driver/matrixdriver/matrixdriver.py:26-42 | afterwards bit `index` is clear, and each of the other seven bits reads as it did before; `value` defaults to 0 |
| `BitOps.BitExtensionality` | driver/matrixdriver/matrixdriver.py:66-82 | the eight `get_bit` answers determine a byte: two bytes that agree on all of them are equal |
| `BitOps.SetAfterClear` | driver/matrixdriver/matrixdriver.py:7-42 | clearing bit `i` before setting it has no effect on the result |
| `BitOps.ClearAfterSet` | driver/matrixdriver/matrixdriver.py:7-42 | setting bit `i` before clearing it has no effect on the result |
| `BitOps.OneHot` | driver/matrixdriver/matrixdriver.py:7-23 | `set_bit(index)` with the default start value 0 is non-zero and has exactly bit `index` set |
| `BitOps.EncodePrefix` | driver/matrixdriver/matrixdriver.py:59-63 | after `n` rounds of the encoding loop, bit `j < n` is set iff entry `j` is truthy, and all bits from `n` up are still set |
| `BitOps.SetBitsFromList` | driver/matrixdriver/matrixdriver.py:45-63 | bit `j` of the result is set iff list entry `j` is truthy; positions past the end of a short list stay set |
| `BitOps.AllTruthyEncodesFF` | driver/matrixdriver/matrixdriver.py:59-63 | eight truthy entries encode to 0xFF |
| `BitOps.AllZeroEncodes00` | driver/matrixdriver/matrixdriver.py:59-63 | eight zero entries encode to 0x00 |
| `BitOps.SingleTruthyEntryEncoding` | driver/matrixdriver/matrixdriver.py:59-63 | `[1,0,0,0,0,0,0,0]` encodes to 0x01, so entries are raw bit values |
| `BitOps.MarkPrefix` | driver/matrixdriver/matrixdriver.py:99-103 | after `n` rounds of the decoding loop the list has eight entries, and entry `i` is 1 iff `i < n` and bit `i` is set, otherwise 0 |
| `BitOps.GetBitsAsList` | driver/matrixdriver/matrixdriver.py:85-103 | the list has eight 0/1 entries, and entry `i` is 1 iff bit `i` of the byte is set |
| `BitOps.ListRoundTrip` | driver/matrixdriver/matrixdriver.py:45-103 | decoding the encoding of an eight-entry 0/1 list gives the list back |
| `BitOps.ByteRoundTrip` | driver/matrixdriver/matrixdriver.py:45-103 | encoding the bit list of any byte gives the byte back |
| `StreamCodec.FilledGrid` | driver/matrixdriver/matrixdriver.py:126 | the starting frame is 8x8 with every entry equal to the fill value |
| `StreamCodec.FillColumns` | driver/matrixdriver/matrixdriver.py:131-139 | after `n` rounds of the column loop, row `x` is the decoded list if `x < n` and column entry `x` is truthy; otherwise it is the starting row |
| `StreamCodec.DecodeChannel` | driver/matrixdriver/matrixdriver.py:122-139 | one decoded channel is 8x8; entry `[x][y]` is bit `y` of the channel byte when column bit `x` is set, otherwise 2 |
| `StreamCodec.DecodeStream` | driver/matrixdriver/matrixdriver.py:106-141 | the k-th returned grid is 8x8; entry `[x][y]` is bit `y` of byte `k` when bit `x` of byte 3 is set, otherwise 2; bytes beyond the fourth are ignored |
| `StreamCodec.ZeroColumnDecodesUnaddressed` | driver/matrixdriver/matrixdriver.py:126-139 | a zero column byte decodes to three grids of 2s |
| `StreamCodec.MultiColumnDecode` | driver/matrixdriver/matrixdriver.py:131-139 | with several column bits set, every selected column of each grid holds the same decoded list |
| `StreamCodec.OneHotDecode` | driver/matrixdriver/matrixdriver.py:122-141 | when the column byte is `set_bit(col)`, each grid holds the bit list of its byte in column `col` and 2 everywhere else |
| `StreamCodec.PacketRoundTrip` | driver/matrixdriver/matrixdriver.py:122-141 | decoding three encoded 0/1 rows with the column byte of `col` gives the three rows back in column `col` and 2 elsewhere |
| `MatrixDriver.Init` | driver/matrixdriver/matrixdriver.py:201-228 | the configuration is stored, and the three grids are 8x8 with every entry 1; the speed defaults to `None` and `debug` to 0 |
| `MatrixDriver.Mirror` | driver/matrixdriver/matrixdriver.py:286-293 | the reversed list has eight entries, and entry `i` is the old entry `7 - i` |
| `MatrixDriver.Frames` | driver/matrixdriver/matrixdriver.py:269-296 | only the three grids change; with `mirror` the stored grid row `i` is the given row `7 - i`, and the caller's lists now equal the stored grids; without it the given lists are stored unchanged; `mirror` defaults to true |
| `MatrixDriver.MirrorKeepsGrid` | driver/matrixdriver/matrixdriver.py:290-293 | mirroring an 8x8 grid gives an 8x8 grid |
| `MatrixDriver.MirrorTwice` | driver/matrixdriver/matrixdriver.py:286-293 | mirroring twice gives back the original grid |
| `MatrixDriver.FramesMirrorTwice` | driver/matrixdriver/matrixdriver.py:286-296 | a second mirrored `frames` call on the lists the first call left with the caller stores the grids the first call was given |
| `MatrixDriver.ColumnPacket` | driver/matrixdriver/matrixdriver.py:250-258 | the packet for a column has four bytes |
| `MatrixDriver.ColumnPacketLayout` | driver/matrixdriver/matrixdriver.py:250-258 | byte 0 encodes the red row, byte 1 the blue row and byte 2 the green row (bit set iff entry truthy); byte 3 has exactly the column's bit set |
| `MatrixDriver.ColumnPackets` | driver/matrixdriver/matrixdriver.py:249-253 | one four-byte packet is built for each of the eight columns |
| `MatrixDriver.ColumnGuardNeverFires` | driver/matrixdriver/matrixdriver.py:253-257 | the column byte is never zero, so a column is skipped iff every red, green and blue entry in it is truthy |
| `MatrixDriver.ColumnByteIncreasing` | driver/matrixdriver/matrixdriver.py:249-253 | a later column has a larger column byte |
| `MatrixDriver.LiveLines` | driver/matrixdriver/matrixdriver.py:249-257 | lists, in strictly increasing order, exactly the columns from `line` to 7 whose packet is not skipped |
| `MatrixDriver.SweepFrom` | driver/matrixdriver/matrixdriver.py:249-258 | the k-th packet written from column `line` on is the packet of the k-th column that is not skipped |
| `MatrixDriver.SweepOrder` | driver/matrixdriver/matrixdriver.py:249-258 | in one pass every written packet belongs to a column that is not skipped; column bytes are non-zero and strictly increasing; every column that is not skipped is written |
| `MatrixDriver.LiveLinesCount` | driver/matrixdriver/matrixdriver.py:249-257 | the list of columns from `line` on that are not skipped names each such column exactly once: its length is the size of that set |
| `MatrixDriver.SweepCount` | driver/matrixdriver/matrixdriver.py:249-258 | one pass writes as many packets as there are columns that are not skipped |
| `MatrixDriver.Repeat` | driver/matrixdriver/matrixdriver.py:247 | `n` passes have `n` times the length of one pass, and no entries when `n` is not positive |
| `MatrixDriver.RepeatSlice` | driver/matrixdriver/matrixdriver.py:247-258 | pass `i` of the outer loop occupies positions `i*s` to `(i+1)*s`, where `s` is the length of one pass |
| `MatrixDriver.WriteCount` | driver/matrixdriver/matrixdriver.py:247-258 | `draw(n)` writes `n` times the number of columns that are not skipped (none for `n` below 1) |
| `MatrixDriver.Trace` | driver/matrixdriver/matrixdriver.py:243-267 | the trace opens first and closes last, once each; it sets the speed only right after the open and only when that applies; it writes exactly the given packets in order |
| `MatrixDriver.Run` | driver/matrixdriver/matrixdriver.py:243-267 | the bus is opened first and always closed last, even when the open or a write raises; the speed is set iff it is truthy and positive and the open succeeded; the call raises iff the fault is reached; it writes all packets, or the prefix up to and including the failing write |
| `MatrixDriver.Draw` | driver/matrixdriver/matrixdriver.py:230-267 | the bus is opened first and closed last; the call raises iff the fault is reached; with no fault reached it writes exactly the packets of `iterations` passes; `iterations` defaults to 1 |
| `MatrixDriver.FreshDriverWritesNothing` | driver/matrixdriver/matrixdriver.py:224-258 | a driver fresh from `__init__` skips every column and writes nothing, for any iteration count |
| `MatrixDriver.DrawnPacketDecodes` | driver/matrixdriver/matrixdriver.py:258-262 | decoding the packet written for a column with 0/1 rows gives the red, blue and green rows in that column, in that order, and 2 elsewhere |
| `MatrixDriver.MirroredFramePackets` | driver/matrixdriver/matrixdriver.py:286-296 | after a mirrored `frames` call, the packet for column `l` carries the caller's rows `7 - l` |

## Left out

- The `spidev` transport (`open`, `max_speed_hz`, `writebytes`, `close`): it is a foreign library and appears only as events of the trace.
- `time.sleep(0.002)` after each write: wall-clock timing, with no effect on the trace.
- `print_rgb` and all printing at the `debug` levels: the output goes to the console and is not part of the trace. The `debug` value is stored and nothing else. Printing has one effect beyond output, which the `Frames` line below records.
- The `__main__` test-pattern loop: a manual hardware test that never ends.
- `imagedriver.py` (image loading and thresholding) and `driver/setup.py` (packaging): not part of the core.
- Inputs the preconditions exclude, because a byte has eight bits and the driver only produces the in-range cases. On them the code does not check anything, and it mostly returns a value rather than raising:
  - `set_bit` with an index of 8 or more returns a value above 255. For a byte, `clear_bit` returns the byte unchanged and `get_bit` returns false.
  - `set_bits_from_list` with more than eight entries ignores the extra entries, because clearing a bit above bit 7 of 0xFF changes nothing.
  - `draw` ignores rows past the eighth. It accepts rows of any length, and the bits of a short row's missing entries stay set. Only a grid with fewer than eight rows raises an `IndexError`.
  - `frames(mirror=True)` reverses only the first eight rows of a longer list. A list with fewer than eight rows raises an `IndexError`.
  - `set_bit`, `clear_bit` and `get_bit` with a negative index raise a `ValueError` from the negative shift count. The model's indices are `nat`.
  - `decode_stream` on a list of fewer than four bytes raises an `IndexError`.
- Byte values above 255 given to `set_bit`, `clear_bit`, `get_bit` or `get_bits_as_list`: bytes are `bv8`, and the code only ever passes bytes.
- `Run`: a failure of the `max_speed_hz` assignment is not a modelled fault; only the open and the writes can raise.
- `Frames`: with `debug > 0`, `frames` ends by printing the stored grids with `print_rgb`, which reads rows 0 to 7. A grid of fewer than eight rows given with `mirror=False` is therefore stored, and then the call raises an `IndexError`. `Frames` returns normally in that case, because console output is not modelled.
- `Frames`: the lasting alias between the caller's lists and the stored grids is not modelled. A later in-place change by the caller would also change the buffer.
- `Draw`: its own contract states open first, close last, when it raises, and the written packets. The remaining trace facts are stated on `Run`, which `Draw` applies to the packets of `Writes`.
