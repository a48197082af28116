/**
 The `MatrixDriver` class: the buffered red, green and blue grids, how
 `frames` replaces them (optionally reversing the outer index), and the bus
 traffic `draw` produces.

 The SPI transport is not modelled; `Draw` returns the sequence of bus
 operations it would perform: open, the optional speed setting, the packet
 writes and the final close. A transport failure is an input (`Fault`): the
 open call or the write with a given position raises, and the trace shows
 what was attempted before the close in the `finally` block.

 A grid's outer index is the column (`line` in `draw`), its inner index the
 LED in that column. Entries are raw bit values: a truthy entry leaves its
 bit set in the wire byte.
 */
module MatrixDriver {
  import opened BitOps
  import opened StreamCodec

  datatype Option<T> = None | Some(value: T)

  /** The driver object; `spiMaxSpeedHz` is `None` for Python's `None`. */
  datatype Driver = Driver(
    bus: int,
    device: int,
    spiMaxSpeedHz: Option<int>,
    debug: int,
    frameRed: Grid,
    frameGreen: Grid,
    frameBlue: Grid)

  /** All three buffered grids are 8x8, as `draw` needs. */
  predicate WellFormed(d: Driver) {
    IsGrid(d.frameRed) && IsGrid(d.frameGreen) && IsGrid(d.frameBlue)
  }

  /**
   `MatrixDriver.__init__`: the configuration is stored and every grid entry
   is 1. The speed defaults to `None` and the debug level to 0.
   */
  function Init(bus: int, device: int, spiMaxSpeedHz: Option<int> := None, debug: int := 0): (d: Driver)
    ensures d.bus == bus && d.device == device
    ensures d.spiMaxSpeedHz == spiMaxSpeedHz && d.debug == debug
    ensures WellFormed(d)
    ensures forall x, y :: 0 <= x < 8 && 0 <= y < 8 ==>
      d.frameRed[x][y] == 1 && d.frameGreen[x][y] == 1 && d.frameBlue[x][y] == 1
  {
    var empty := FilledGrid(1);
    Driver(bus, device, spiMaxSpeedHz, debug, empty, empty, empty)
  }

  // ---------------------------------------------------------------------------
  // Frame buffer
  // ---------------------------------------------------------------------------

  /** The outer list of `g` reversed: entry `i` is the old entry `7 - i`. */
  function Mirror(g: Grid): (r: Grid)
    requires |g| == 8
    ensures |r| == 8
    ensures forall i :: 0 <= i < 8 ==> r[i] == g[7 - i]
  {
    seq(8, i requires 0 <= i < 8 => g[7 - i])
  }

  /**
   What `frames` leaves behind: the updated driver and the caller's three
   lists after the call. With mirroring the caller's lists are reversed in
   place and stored by reference, so they equal the stored grids.
   */
  datatype FramesResult = FramesResult(driver: Driver, red: Grid, green: Grid, blue: Grid)

  /** `MatrixDriver.frames`; `mirror` defaults to true. */
  function Frames(d: Driver, red: Grid, green: Grid, blue: Grid, mirror: bool := true): (r: FramesResult)
    requires mirror ==> |red| == 8 && |green| == 8 && |blue| == 8
    ensures r.driver == d.(frameRed := r.red, frameGreen := r.green, frameBlue := r.blue)
    ensures mirror ==> |r.red| == 8 && |r.green| == 8 && |r.blue| == 8
    ensures mirror ==> forall i :: 0 <= i < 8 ==>
      r.red[i] == red[7 - i] && r.green[i] == green[7 - i] && r.blue[i] == blue[7 - i]
    ensures !mirror ==> r.red == red && r.green == green && r.blue == blue
  {
    if mirror then
      var red', green', blue' := Mirror(red), Mirror(green), Mirror(blue);
      FramesResult(d.(frameRed := red', frameGreen := green', frameBlue := blue'), red', green', blue')
    else
      FramesResult(d.(frameRed := red, frameGreen := green, frameBlue := blue), red, green, blue)
  }

  /** Mirroring keeps a grid 8x8. */
  lemma MirrorKeepsGrid(g: Grid)
    requires IsGrid(g)
    ensures IsGrid(Mirror(g))
  {
  }

  /** Mirroring twice gives the original grid back. */
  lemma MirrorTwice(g: Grid)
    requires |g| == 8
    ensures Mirror(Mirror(g)) == g
  {
  }

  /**
   Two mirrored `frames` calls, the second on the lists the first left with
   the caller, store the grids the first call was given.
   */
  lemma FramesMirrorTwice(d: Driver, red: Grid, green: Grid, blue: Grid)
    requires |red| == 8 && |green| == 8 && |blue| == 8
    ensures var once := Frames(d, red, green, blue, true);
            var twice := Frames(once.driver, once.red, once.green, once.blue, true);
            twice.driver == d.(frameRed := red, frameGreen := green, frameBlue := blue)
  {
  }

  // ---------------------------------------------------------------------------
  // Packets of one sweep
  // ---------------------------------------------------------------------------

  type Packet = seq<Byte>

  /**
   The packet `draw` builds for column `line`: the encoded red, blue and
   green rows of that column, in that order, then the column byte
   `set_bit(line)`.
   */
  function ColumnPacket(d: Driver, line: nat): (p: Packet)
    requires WellFormed(d) && line < 8
    ensures |p| == 4
  {
    var red := SetBitsFromList(d.frameRed[line]);
    var green := SetBitsFromList(d.frameGreen[line]);
    var blue := SetBitsFromList(d.frameBlue[line]);
    [red, blue, green, SetBit(line)]
  }

  /**
   Layout of a column packet: byte 0 holds the red row, byte 1 the blue row,
   byte 2 the green row, each bit set exactly for a truthy entry, and byte 3
   has exactly the bit of the column set.
   */
  lemma ColumnPacketLayout(d: Driver, line: nat)
    requires WellFormed(d) && line < 8
    ensures forall j :: 0 <= j < 8 ==> (GetBit(ColumnPacket(d, line)[0], j) <==> Truthy(d.frameRed[line][j]))
    ensures forall j :: 0 <= j < 8 ==> (GetBit(ColumnPacket(d, line)[1], j) <==> Truthy(d.frameBlue[line][j]))
    ensures forall j :: 0 <= j < 8 ==> (GetBit(ColumnPacket(d, line)[2], j) <==> Truthy(d.frameGreen[line][j]))
    ensures forall j :: 0 <= j < 8 ==> (GetBit(ColumnPacket(d, line)[3], j) <==> j == line)
  {
  }

  /** The eight packets `draw` builds, one per column, before any is skipped. */
  function ColumnPackets(d: Driver): (cols: seq<Packet>)
    requires WellFormed(d)
    ensures IsColumnTable(cols)
  {
    seq(8, l requires 0 <= l < 8 => ColumnPacket(d, l))
  }

  /** Eight four-byte packets, indexed by column. */
  predicate IsColumnTable(cols: seq<Packet>) {
    |cols| == 8 && forall l :: 0 <= l < 8 ==> |cols[l]| == 4
  }

  /**
   The skip test of `draw` on a packet `[red, blue, green, column]`: the
   column byte is zero, or red, green and blue are all 255.
   */
  predicate SkipPacket(p: Packet)
    requires |p| == 4
  {
    p[3] == 0 || (p[0] == 255 && p[2] == 255 && p[1] == 255)
  }

  /** Whether `draw` skips column `line`. */
  predicate Skipped(d: Driver, line: nat)
    requires WellFormed(d) && line < 8
  {
    SkipPacket(ColumnPacket(d, line))
  }

  /** The zero-column guard never fires: a column is skipped exactly when all its entries are truthy. */
  lemma ColumnGuardNeverFires(d: Driver, line: nat)
    requires WellFormed(d) && line < 8
    ensures ColumnPacket(d, line)[3] != 0
    ensures Skipped(d, line) <==>
      (forall j :: 0 <= j < 8 ==>
         Truthy(d.frameRed[line][j]) && Truthy(d.frameGreen[line][j]) && Truthy(d.frameBlue[line][j]))
  {
    OneHot(line);
    if forall j :: 0 <= j < 8 ==>
         Truthy(d.frameRed[line][j]) && Truthy(d.frameGreen[line][j]) && Truthy(d.frameBlue[line][j])
    {
      AllTruthyEncodesFF(d.frameRed[line]);
      AllTruthyEncodesFF(d.frameGreen[line]);
      AllTruthyEncodesFF(d.frameBlue[line]);
    }
  }

  /** Column bytes grow with the column index. */
  lemma ColumnByteIncreasing(a: nat, b: nat)
    requires a < b < 8
    ensures SetBit(a) < SetBit(b)
  {
  }

  /**
   The columns from `line` to 7 whose packet in `cols` is not skipped, in
   increasing order: a column is listed exactly when it is in range and its
   packet is not skipped.
   */
  function LiveLines(cols: seq<Packet>, line: nat): (r: seq<nat>)
    requires IsColumnTable(cols) && line <= 8
    ensures forall k :: 0 <= k < |r| ==> line <= r[k] < 8 && !SkipPacket(cols[r[k]])
    ensures forall l :: line <= l < 8 && !SkipPacket(cols[l]) ==> l in r
    ensures forall k1, k2 :: 0 <= k1 < k2 < |r| ==> r[k1] < r[k2]
    decreases 8 - line
  {
    if line == 8 then []
    else if SkipPacket(cols[line]) then LiveLines(cols, line + 1)
    else [line] + LiveLines(cols, line + 1)
  }

  /**
   The inner loop of `draw` from column `line` on, over the packets `cols`
   it builds: the k-th packet written is the packet of the k-th live column.
   */
  function SweepFrom(cols: seq<Packet>, line: nat): (r: seq<Packet>)
    requires IsColumnTable(cols) && line <= 8
    ensures |r| == |LiveLines(cols, line)|
    ensures forall k :: 0 <= k < |r| ==> r[k] == cols[LiveLines(cols, line)[k]]
    decreases 8 - line
  {
    if line == 8 then []
    else
      var rest := SweepFrom(cols, line + 1);
      if SkipPacket(cols[line]) then rest else [cols[line]] + rest
  }

  /** One round of `draw`'s outer loop: columns 0 to 7. */
  function Sweep(d: Driver): seq<Packet>
    requires WellFormed(d)
  {
    SweepFrom(ColumnPackets(d), 0)
  }

  /**
   Within one sweep every packet is the packet of a column that is not
   skipped, its column byte is non-zero, column bytes strictly increase,
   and every column that is not skipped has its packet.
   */
  lemma SweepOrder(d: Driver)
    requires WellFormed(d)
    ensures forall k :: 0 <= k < |Sweep(d)| ==>
      exists l :: 0 <= l < 8 && !Skipped(d, l) && Sweep(d)[k] == ColumnPacket(d, l)
    ensures forall k :: 0 <= k < |Sweep(d)| ==> |Sweep(d)[k]| == 4 && Sweep(d)[k][3] != 0
    ensures forall k1, k2 :: 0 <= k1 < k2 < |Sweep(d)| ==> Sweep(d)[k1][3] < Sweep(d)[k2][3]
    ensures forall l :: 0 <= l < 8 && !Skipped(d, l) ==> ColumnPacket(d, l) in Sweep(d)
  {
    var cols := ColumnPackets(d);
    var s := Sweep(d);
    var lines := LiveLines(cols, 0);
    forall k | 0 <= k < |s|
      ensures 0 <= lines[k] < 8 && !Skipped(d, lines[k]) && s[k] == ColumnPacket(d, lines[k])
      ensures |s[k]| == 4 && s[k][3] != 0
    {
      OneHot(lines[k]);
    }
    forall k1, k2 | 0 <= k1 < k2 < |s|
      ensures s[k1][3] < s[k2][3]
    {
      ColumnByteIncreasing(lines[k1], lines[k2]);
    }
    forall l | 0 <= l < 8 && !Skipped(d, l)
      ensures ColumnPacket(d, l) in s
    {
      assert !SkipPacket(cols[l]);
      var k :| 0 <= k < |lines| && lines[k] == l;
      assert s[k] == ColumnPacket(d, l);
    }
  }

  /** The columns of `cols` from `line` on that are not skipped, as a set. */
  function LiveSet(cols: seq<Packet>, line: nat): set<nat>
    requires IsColumnTable(cols) && line <= 8
  {
    set l: nat | line <= l < 8 && !SkipPacket(cols[l])
  }

  /** Splitting the first column off the live columns from `line` on. */
  lemma LiveSetStep(cols: seq<Packet>, line: nat)
    requires IsColumnTable(cols) && line < 8
    ensures line !in LiveSet(cols, line + 1)
    ensures LiveSet(cols, line) ==
      (if SkipPacket(cols[line]) then {} else {line}) + LiveSet(cols, line + 1)
  {
  }

  /** The live columns from `line` on are listed once each. */
  lemma {:induction false} LiveLinesCount(cols: seq<Packet>, line: nat)
    requires IsColumnTable(cols) && line <= 8
    ensures |LiveLines(cols, line)| == |LiveSet(cols, line)|
    decreases 8 - line
  {
    if line < 8 {
      LiveLinesCount(cols, line + 1);
      LiveSetStep(cols, line);
    } else {
      assert LiveSet(cols, line) == {};
    }
  }

  /** The columns of the driver that `draw` does not skip. */
  function LiveColumns(d: Driver): set<nat>
    requires WellFormed(d)
  {
    LiveSet(ColumnPackets(d), 0)
  }

  /** One sweep writes one packet per column that is not skipped. */
  lemma SweepCount(d: Driver)
    requires WellFormed(d)
    ensures |Sweep(d)| == |LiveColumns(d)|
  {
    var cols := ColumnPackets(d);
    LiveLinesCount(cols, 0);
  }

  /**
   `n` copies of `s` one after the other; no copy for a negative `n`, as
   Python's `range(n)` is then empty.
   */
  function Repeat<T>(s: seq<T>, n: int): (r: seq<T>)
    ensures |r| == (if n > 0 then n else 0) * |s|
    decreases n
  {
    if n <= 0 then [] else Repeat(s, n - 1) + s
  }

  /** Copy `i` of `Repeat(s, n)` sits at positions `i * |s|` to `(i + 1) * |s|`. */
  lemma {:induction false} RepeatSlice<T>(s: seq<T>, n: int, i: nat)
    requires i < n
    ensures (i + 1) * |s| <= |Repeat(s, n)|
    ensures Repeat(s, n)[i * |s| .. (i + 1) * |s|] == s
    decreases n
  {
    var prev := Repeat(s, n - 1);
    assert Repeat(s, n) == prev + s;
    if i == n - 1 {
      assert |prev| == i * |s|;
      assert (i + 1) * |s| == i * |s| + |s|;
    } else {
      RepeatSlice(s, n - 1, i);
      assert (i + 1) * |s| <= |prev|;
      assert Repeat(s, n)[i * |s| .. (i + 1) * |s|] == prev[i * |s| .. (i + 1) * |s|];
    }
  }

  /** The packets `draw(iterations)` writes: one sweep per iteration. */
  function Writes(d: Driver, iterations: int): seq<Packet>
    requires WellFormed(d)
  {
    Repeat(Sweep(d), iterations)
  }

  /** The number of writes is the iteration count times the number of live columns. */
  lemma WriteCount(d: Driver, iterations: int)
    requires WellFormed(d)
    ensures |Writes(d, iterations)| == (if iterations > 0 then iterations else 0) * |LiveColumns(d)|
  {
    SweepCount(d);
  }

  /** One bus operation of `draw`. */
  datatype BusEvent =
    | Open(bus: int, device: int)
    | SetMaxSpeed(hz: int)
    | Write(packet: Packet)
    | Close

  /** Which transport call, if any, raises. `WriteFails(k)` is the write at position `k`, counted from 0. */
  datatype Fault = NoFault | OpenFails | WriteFails(index: nat)

  /** The bus trace of a `draw` call, and whether the call raised. */
  datatype DrawResult = DrawResult(events: seq<BusEvent>, raised: bool)

  /** Whether `draw` sets the bus speed: the configured value is truthy and positive, which for an integer is just positive. */
  predicate SpeedApplies(d: Driver) {
    match d.spiMaxSpeedHz
    case None => false
    case Some(hz) => hz > 0
  }

  function SpeedEvents(d: Driver): seq<BusEvent> {
    if SpeedApplies(d) then [SetMaxSpeed(d.spiMaxSpeedHz.value)] else []
  }

  function WriteEvents(ps: seq<Packet>): (r: seq<BusEvent>)
    ensures |r| == |ps|
    ensures forall i :: 0 <= i < |r| ==> r[i] == Write(ps[i])
  {
    seq(|ps|, i requires 0 <= i < |ps| => Write(ps[i]))
  }

  /** The packets a trace writes, in order. */
  function Written(events: seq<BusEvent>): seq<Packet> {
    if events == [] then []
    else (if events[0].Write? then [events[0].packet] else []) + Written(events[1..])
  }

  lemma {:induction false} WrittenAppend(a: seq<BusEvent>, b: seq<BusEvent>)
    ensures Written(a + b) == Written(a) + Written(b)
  {
    if a != [] {
      assert (a + b)[1..] == a[1..] + b;
      WrittenAppend(a[1..], b);
    } else {
      assert a + b == b;
    }
  }

  lemma {:induction false} WrittenWriteEvents(ps: seq<Packet>)
    ensures Written(WriteEvents(ps)) == ps
  {
    if ps != [] {
      assert WriteEvents(ps)[1..] == WriteEvents(ps[1..]);
      WrittenWriteEvents(ps[1..]);
    }
  }

  /** Whether the fault is reached when `draw` has `count` packets to write. */
  predicate Raises(fault: Fault, count: nat) {
    match fault
    case NoFault => false
    case OpenFails => true
    case WriteFails(k) => k < count
  }

  /** Open, the optional speed setting, the given writes and the close. */
  function Trace(d: Driver, ps: seq<Packet>): (r: seq<BusEvent>)
    ensures |r| >= 2
    ensures r[0] == Open(d.bus, d.device)
    ensures r[|r| - 1] == Close
    ensures forall i :: 0 < i < |r| ==> !r[i].Open?
    ensures forall i :: 0 <= i < |r| - 1 ==> !r[i].Close?
    ensures forall i :: 0 <= i < |r| && r[i].SetMaxSpeed? ==>
      i == 1 && SpeedApplies(d) && r[i].hz == d.spiMaxSpeedHz.value
    ensures SpeedApplies(d) ==> r[1] == SetMaxSpeed(d.spiMaxSpeedHz.value)
    ensures Written(r) == ps
  {
    var r := [Open(d.bus, d.device)] + SpeedEvents(d) + WriteEvents(ps) + [Close];
    WrittenAppend([Open(d.bus, d.device)] + SpeedEvents(d) + WriteEvents(ps), [Close]);
    WrittenAppend([Open(d.bus, d.device)] + SpeedEvents(d), WriteEvents(ps));
    WrittenAppend([Open(d.bus, d.device)], SpeedEvents(d));
    WrittenWriteEvents(ps);
    assert Written([Close]) == [];
    assert Written([Open(d.bus, d.device)]) == [];
    assert Written(SpeedEvents(d)) == [];
    r
  }

  /**
   The `try`/`finally` frame of `MatrixDriver.draw` around the writes of
   `packets`: the trace opens the bus first and closes it last, exactly
   once each; the speed is set, right after the open, exactly when it
   applies and the open succeeded; the call raises exactly when the fault is
   reached; and the trace writes all of `packets`, or the prefix up to and
   including the failing write.
   */
  function Run(d: Driver, packets: seq<Packet>, fault: Fault): (r: DrawResult)
    ensures |r.events| >= 2
    ensures r.events[0] == Open(d.bus, d.device)
    ensures r.events[|r.events| - 1] == Close
    ensures forall i :: 0 < i < |r.events| ==> !r.events[i].Open?
    ensures forall i :: 0 <= i < |r.events| - 1 ==> !r.events[i].Close?
    ensures forall i :: 0 <= i < |r.events| && r.events[i].SetMaxSpeed? ==>
      i == 1 && SpeedApplies(d) && r.events[i].hz == d.spiMaxSpeedHz.value
    ensures fault != OpenFails && SpeedApplies(d) ==> r.events[1] == SetMaxSpeed(d.spiMaxSpeedHz.value)
    ensures fault == OpenFails ==> r.events == [Open(d.bus, d.device), Close]
    ensures r.raised <==> Raises(fault, |packets|)
    ensures !r.raised ==> Written(r.events) == packets
    ensures r.raised && fault.WriteFails? ==>
      fault.index < |packets| && Written(r.events) == packets[..fault.index + 1]
  {
    match fault
    case OpenFails => DrawResult([Open(d.bus, d.device), Close], true)
    case WriteFails(k) =>
      if k < |packets| then DrawResult(Trace(d, packets[..k + 1]), true)
      else DrawResult(Trace(d, packets), false)
    case NoFault => DrawResult(Trace(d, packets), false)
  }

  /**
   `MatrixDriver.draw(iterations)`: the bus is opened first and closed
   last, and unless the fault is reached the trace writes exactly the
   packets of `iterations` sweeps. `iterations` defaults to 1, and by
   default the transport does not fail.
   */
  function Draw(d: Driver, iterations: int := 1, fault: Fault := NoFault): (r: DrawResult)
    requires WellFormed(d)
    ensures |r.events| >= 2
    ensures r.events[0] == Open(d.bus, d.device) && r.events[|r.events| - 1] == Close
    ensures r.raised <==> Raises(fault, |Writes(d, iterations)|)
    ensures !r.raised ==> Written(r.events) == Writes(d, iterations)
  {
    Run(d, Writes(d, iterations), fault)
  }

  // ---------------------------------------------------------------------------
  // Properties across operations
  // ---------------------------------------------------------------------------

  /** A fresh driver, whose grids are all ones, writes nothing: every column is skipped. */
  lemma FreshDriverWritesNothing(bus: int, device: int, spiMaxSpeedHz: Option<int>, debug: int, iterations: int)
    ensures Writes(Init(bus, device, spiMaxSpeedHz, debug), iterations) == []
    ensures Written(Draw(Init(bus, device, spiMaxSpeedHz, debug), iterations, NoFault).events) == []
  {
    var d := Init(bus, device, spiMaxSpeedHz, debug);
    var cols := ColumnPackets(d);
    forall l | 0 <= l < 8
      ensures SkipPacket(cols[l])
    {
      ColumnGuardNeverFires(d, l);
    }
    assert LiveColumns(d) == {};
    WriteCount(d, iterations);
  }

  /**
   The diagnostic decode of a packet `draw` writes, for 0/1 rows: the red,
   blue and green rows of that column, in that order, in the decoded column,
   and markers elsewhere. The decoder's second grid is the blue one.
   */
  lemma DrawnPacketDecodes(d: Driver, line: nat)
    requires WellFormed(d) && line < 8
    requires IsBinary(d.frameRed[line]) && IsBinary(d.frameGreen[line]) && IsBinary(d.frameBlue[line])
    ensures DecodeStream(ColumnPacket(d, line)) ==
      Decoded(ColumnOnly(line, d.frameRed[line]), ColumnOnly(line, d.frameBlue[line]), ColumnOnly(line, d.frameGreen[line]))
  {
    PacketRoundTrip(d.frameRed[line], d.frameBlue[line], d.frameGreen[line], line);
  }

  /**
   After a mirrored `frames` call, the packet `draw` writes for column `l`
   carries the caller's rows `7 - l`.
   */
  lemma MirroredFramePackets(d: Driver, red: Grid, green: Grid, blue: Grid, l: nat)
    requires IsGrid(red) && IsGrid(green) && IsGrid(blue) && l < 8
    ensures WellFormed(Frames(d, red, green, blue, true).driver)
    ensures ColumnPacket(Frames(d, red, green, blue, true).driver, l) ==
      [SetBitsFromList(red[7 - l]), SetBitsFromList(blue[7 - l]), SetBitsFromList(green[7 - l]), SetBit(l)]
  {
  }
}
