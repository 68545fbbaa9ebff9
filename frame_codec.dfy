/**
 * Frame encoding into the three TX buffers and frame decoding from the two RX
 * buffers. A buffer is CTRL at its base, SIDH, SIDL, EID8, EID0, DLC at
 * base+1..+5 and D0..D7 at base+6..+13.
 */
module FrameCodec {
  import opened CanDefs
  import opened CanId
  import opened RegisterFile

  const TX_SIDH: seq<byte> := [TXB0SIDH, TXB1SIDH, TXB2SIDH]
  const TX_D0: seq<byte> := [TXB0D0, TXB1D0, TXB2D0]

  /** Registers of one TX or RX buffer: CTRL, five header bytes, eight data bytes. */
  const BUFFER_SIZE: nat := 14

  // ---------------------------------------------------------------------------
  // Transmit

  predicate IsExtendedTx(frameType: byte) {
    frameType == EXTENDED_DATA_FRAME || frameType == EXTENDED_REMOTE_FRAME
  }

  predicate IsRemoteTx(frameType: byte) {
    frameType == STANDARD_REMOTE_FRAME || frameType == EXTENDED_REMOTE_FRAME
  }

  /** The identifier group of a TX frame: extended layout with EXIDE for the extended tags, standard layout otherwise. */
  function TxIdGroup(f: TxFrame): (g: seq<byte>)
    ensures |g| == 4
  {
    if IsExtendedTx(f.frameType) then PackExtendedFlagged(f.id, true) else PackStandard(f.id)
  }

  /**
   * The identifier group of an extended TX frame holds the low 29 bits of the
   * identifier with EXIDE set; that of a standard frame holds the low 11 bits
   * with SIDL bits 4..0, EID8 and EID0 clear.
   */
  lemma TxIdGroupLayout(f: TxFrame)
    ensures var g := TxIdGroup(f);
      && (IsExtendedTx(f.frameType) ==> ExtendedIdOf(g) == f.id & 0x1FFF_FFFF && g[1] & 0x1C == SIDL_IDE)
      && (!IsExtendedTx(f.frameType) ==>
            UnpackStandard(g[0], g[1]) == f.id & 0x7FF && g[1] & 0x1F == 0 && g[2] == 0 && g[3] == 0)
  {
    if IsExtendedTx(f.frameType) {
      FlaggedPackingKeepsId(f.id, true);
      ExideBits(PackExtendedFlagged(f.id, true)[1]);
    }
  }

  lemma ExideBits(sidl: byte)
    requires sidl & 0x14 == 0 && sidl & SIDL_IDE == SIDL_IDE
    ensures sidl & 0x1C == SIDL_IDE
  {
  }

  /** The DLC byte of a TX frame: the data length, with RTR set for the remote tags. */
  function TxDlc(f: TxFrame): (dlc: byte)
    ensures dlc & !DLC_RTR == f.dataLength & !DLC_RTR
    ensures IsRemoteTx(f.frameType) ==> dlc & DLC_RTR == DLC_RTR
    ensures !IsRemoteTx(f.frameType) ==> dlc == f.dataLength
  {
    if IsRemoteTx(f.frameType) then f.dataLength | DLC_RTR else f.dataLength
  }

  /** The five bytes written at TXBnSIDH: identifier group, then DLC. */
  function TxHeader(f: TxFrame): (h: seq<byte>)
    ensures |h| == 5 && h[..4] == TxIdGroup(f) && h[4] == TxDlc(f)
  {
    TxIdGroup(f) + [TxDlc(f)]
  }

  /** The frame can be loaded without overrunning its 8-byte data array: remote, or at most 8 data bytes. */
  predicate Loadable(f: TxFrame) {
    f.WellFormed() && (IsRemoteTx(f.frameType) || f.dataLength <= 8)
  }

  /** The bytes written at D0: the first dataLength data bytes, none for a remote frame. */
  function TxData(f: TxFrame): (d: seq<byte>)
    requires Loadable(f)
    ensures |d| <= 8
    ensures IsRemoteTx(f.frameType) ==> d == []
    ensures !IsRemoteTx(f.frameType) ==> |d| == f.dataLength as nat && d == f.data[..f.dataLength]
  {
    if IsRemoteTx(f.frameType) then [] else f.data[..f.dataLength]
  }

  /**
   * The writes that load a TX buffer whose CTRL, SIDH and D0 registers are
   * `ctrl`, `sidh` and `d0` with a 5-byte header and the data bytes: header
   * at SIDH, the data at D0 unless the frame is remote, then CTRL = TXREQ to
   * request transmission.
   */
  function LoadPlan(ctrl: byte, sidh: byte, d0: byte, header: seq<byte>, data: seq<byte>, remote: bool): (ops: seq<RegOp>)
    requires ctrl as nat < REGISTER_COUNT && sidh as nat + 5 <= REGISTER_COUNT && d0 as nat + |data| <= REGISTER_COUNT
    requires |header| == 5
    ensures AllFit(ops)
    ensures |ops| == if remote then 2 else 3
  {
    if remote then [Write(sidh, header), Write(ctrl, [TXREQ])]
    else [Write(sidh, header), Write(d0, data), Write(ctrl, [TXREQ])]
  }

  /** The writes that load frame `f` into TX buffer `i`. */
  function BufferPlan(i: nat, f: TxFrame): (ops: seq<RegOp>)
    requires i < 3 && Loadable(f)
    ensures AllFit(ops)
    ensures |ops| == if IsRemoteTx(f.frameType) then 2 else 3
  {
    TxAddresses(i);
    LoadPlan(TX_CTRL[i], TX_SIDH[i], TX_D0[i], TxHeader(f), TxData(f), IsRemoteTx(f.frameType))
  }

  /**
   * Reference contents of a TX buffer's 14 registers after loading `f` into a
   * buffer that held `prev`: CTRL is exactly TXREQ (the priority bits are
   * cleared), then the header, then the data bytes written, then the data
   * registers beyond them with their previous contents.
   */
  function LoadedBuffer(prev: seq<byte>, f: TxFrame): (b: seq<byte>)
    requires |prev| == BUFFER_SIZE && Loadable(f)
    ensures |b| == BUFFER_SIZE
  {
    LoadedBytes(prev, TxHeader(f), TxData(f))
  }

  /** A buffer's registers after a load of `header` and `data`: CTRL = TXREQ, header, data, the rest as it was. */
  function LoadedBytes(prev: seq<byte>, header: seq<byte>, data: seq<byte>): (b: seq<byte>)
    requires |prev| == BUFFER_SIZE && |header| == 5 && |data| <= 8
    ensures |b| == BUFFER_SIZE
  {
    [TXREQ] + header + data + prev[6 + |data|..]
  }

  /** What a loaded buffer holds, field by field. */
  lemma LoadedBufferFields(prev: seq<byte>, f: TxFrame)
    requires |prev| == BUFFER_SIZE && Loadable(f)
    ensures var b := LoadedBuffer(prev, f);
      && b[0] == TXREQ && b[0] & TXP == 0
      && b[1..5] == TxIdGroup(f) && b[5] == TxDlc(f)
      && (!IsRemoteTx(f.frameType) ==> b[6..6 + f.dataLength as nat] == f.data[..f.dataLength])
      && (IsRemoteTx(f.frameType) ==> b[6..] == prev[6..])
  {
    var b := LoadedBuffer(prev, f);
    assert b[1..6] == TxHeader(f);
    assert b[1..5] == TxHeader(f)[..4];
  }

  /** Register `a` belongs to TX buffer `i`. */
  predicate InTxBuffer(i: nat, a: nat)
    requires i < 3
  {
    TX_CTRL[i] as nat <= a < TX_CTRL[i] as nat + BUFFER_SIZE
  }

  /** The 14 registers of TX buffer `i`. */
  function TxSlice(r: seq<byte>, i: nat): (b: seq<byte>)
    requires |r| == REGISTER_COUNT && i < 3
    ensures |b| == BUFFER_SIZE
  {
    var base := TX_CTRL[i] as nat;
    r[base..base + BUFFER_SIZE]
  }

  /**
   * Three writes, the header at base+1, the data at base+6 and the control
   * byte at base, amount to one write of the buffer's 14 registers: control
   * byte, header, data, then the data registers beyond as they were.
   */
  lemma LoadWrites(r: seq<byte>, base: nat, h: seq<byte>, d: seq<byte>, c: byte)
    requires |r| == REGISTER_COUNT && |h| == 5 && |d| <= 8 && base + BUFFER_SIZE <= REGISTER_COUNT
    ensures Written(Written(Written(r, base + 1, h), base + 6, d), base, [c])
         == Written(r, base, [c] + h + d + r[base + 6 + |d|..base + BUFFER_SIZE])
  {
    var x := Written(Written(Written(r, base + 1, h), base + 6, d), base, [c]);
    var y := Written(r, base, [c] + h + d + r[base + 6 + |d|..base + BUFFER_SIZE]);
    forall k | 0 <= k < REGISTER_COUNT
      ensures x[k] == y[k]
    {
    }
  }

  /** Applying a two- or three-operation list is applying its operations in turn. */
  lemma ApplyAllTwo(r: seq<byte>, x: RegOp, y: RegOp)
    requires |r| == REGISTER_COUNT && Fits(x) && Fits(y)
    ensures AllFit([x, y]) && ApplyAll(r, [x, y]) == Apply(Apply(r, x), y)
  {
    assert [x, y][1..] == [y];
    ApplyAllSingle(Apply(r, x), y);
  }

  lemma ApplyAllThree(r: seq<byte>, x: RegOp, y: RegOp, z: RegOp)
    requires |r| == REGISTER_COUNT && Fits(x) && Fits(y) && Fits(z)
    ensures AllFit([x, y, z]) && ApplyAll(r, [x, y, z]) == Apply(Apply(Apply(r, x), y), z)
  {
    assert [x, y, z][1..] == [y, z];
    ApplyAllTwo(Apply(r, x), y, z);
  }

  /** Addresses of TX buffer `i`: SIDH and D0 follow CTRL at +1 and +6, and the buffer lies in the register file. */
  lemma TxAddresses(i: nat)
    requires i < 3
    ensures TX_SIDH[i] as nat == TX_CTRL[i] as nat + 1 && TX_D0[i] as nat == TX_CTRL[i] as nat + 6
    ensures TX_CTRL[i] as nat + BUFFER_SIZE <= REGISTER_COUNT
  {
  }

  /** The three writes of a data-frame load, applied in turn, give the states r1, r2, r3. */
  lemma DataLoadSteps(r: seq<byte>, r1: seq<byte>, r2: seq<byte>, r3: seq<byte>, base: nat,
                      sidh: byte, d0: byte, ctrl: byte, header: seq<byte>, data: seq<byte>)
    requires |r| == REGISTER_COUNT && base + BUFFER_SIZE <= REGISTER_COUNT && |header| == 5 && |data| <= 8
    requires sidh as nat == base + 1 && d0 as nat == base + 6 && ctrl as nat == base
    requires r1 == Written(r, base + 1, header) && r2 == Written(r1, base + 6, data) && r3 == Written(r2, base, [TXREQ])
    ensures AllFit([Write(sidh, header), Write(d0, data), Write(ctrl, [TXREQ])])
    ensures ApplyAll(r, [Write(sidh, header), Write(d0, data), Write(ctrl, [TXREQ])]) == r3
  {
    var h, d, c := Write(sidh, header), Write(d0, data), Write(ctrl, [TXREQ]);
    ApplyWritten(r, sidh, header, base + 1);
    ApplyWritten(r1, d0, data, base + 6);
    ApplyWritten(r2, ctrl, [TXREQ], base);
    ApplyAllThree(r, h, d, c);
  }

  /** The two writes of a remote-frame load, applied in turn, give the states r1, r3. */
  lemma RemoteLoadSteps(r: seq<byte>, r1: seq<byte>, r3: seq<byte>, base: nat, sidh: byte, ctrl: byte, header: seq<byte>)
    requires |r| == REGISTER_COUNT && base + BUFFER_SIZE <= REGISTER_COUNT && |header| == 5
    requires sidh as nat == base + 1 && ctrl as nat == base
    requires r1 == Written(r, base + 1, header) && r3 == Written(r1, base, [TXREQ])
    ensures AllFit([Write(sidh, header), Write(ctrl, [TXREQ])])
    ensures ApplyAll(r, [Write(sidh, header), Write(ctrl, [TXREQ])]) == r3
  {
    var h, c := Write(sidh, header), Write(ctrl, [TXREQ]);
    ApplyWritten(r, sidh, header, base + 1);
    ApplyWritten(r1, ctrl, [TXREQ], base);
    ApplyAllTwo(r, h, c);
  }

  /** Three stacked writes, as states r1, r2, r3, amount to one write of the buffer (LoadWrites). */
  lemma StackedWrites(r: seq<byte>, r1: seq<byte>, r2: seq<byte>, r3: seq<byte>, base: nat, header: seq<byte>, data: seq<byte>)
    requires |r| == REGISTER_COUNT && base + BUFFER_SIZE <= REGISTER_COUNT && |header| == 5 && |data| <= 8
    requires r1 == Written(r, base + 1, header) && r2 == Written(r1, base + 6, data) && r3 == Written(r2, base, [TXREQ])
    ensures r3 == Written(r, base, [TXREQ] + header + data + r[base + 6 + |data|..base + BUFFER_SIZE])
  {
    LoadWrites(r, base, header, data, TXREQ);
  }

  /** Loading a header and data into the buffer at `base` is one write of its 14 registers. */
  lemma LoadPlanEffect(r: seq<byte>, base: nat, ctrl: byte, sidh: byte, d0: byte, header: seq<byte>, data: seq<byte>, remote: bool)
    requires |r| == REGISTER_COUNT && base + BUFFER_SIZE <= REGISTER_COUNT && |header| == 5 && |data| <= 8 && (remote ==> data == [])
    requires ctrl as nat == base && sidh as nat == base + 1 && d0 as nat == base + 6
    ensures ApplyAll(r, LoadPlan(ctrl, sidh, d0, header, data, remote)) == Written(r, base, LoadedBytes(r[base..base + BUFFER_SIZE], header, data))
  {
    var r1 := Written(r, base + 1, header);
    var r2 := Written(r1, base + 6, data);
    var r3 := Written(r2, base, [TXREQ]);
    LoadPlanSteps(r, r1, r2, r3, base, ctrl, sidh, d0, header, data, remote);
    StackedWrites(r, r1, r2, r3, base, header, data);
    LoadedBytesInPlace(r, base, header, data);
  }

  /** The plan's writes, applied in turn, give the states r1, r2, r3 (r2 == r1 for a remote frame). */
  lemma LoadPlanSteps(r: seq<byte>, r1: seq<byte>, r2: seq<byte>, r3: seq<byte>, base: nat,
                      ctrl: byte, sidh: byte, d0: byte, header: seq<byte>, data: seq<byte>, remote: bool)
    requires |r| == REGISTER_COUNT && base + BUFFER_SIZE <= REGISTER_COUNT && |header| == 5 && |data| <= 8 && (remote ==> data == [])
    requires ctrl as nat == base && sidh as nat == base + 1 && d0 as nat == base + 6
    requires r1 == Written(r, base + 1, header) && r2 == Written(r1, base + 6, data) && r3 == Written(r2, base, [TXREQ])
    ensures ApplyAll(r, LoadPlan(ctrl, sidh, d0, header, data, remote)) == r3
  {
    if remote {
      WrittenNothing(r1, base + 6);
      RemoteLoadSteps(r, r1, r3, base, sidh, ctrl, header);
    } else {
      DataLoadSteps(r, r1, r2, r3, base, sidh, d0, ctrl, header, data);
    }
  }

  /** LoadedBytes of a buffer's registers, spelled with the registers that follow the data. */
  lemma LoadedBytesInPlace(r: seq<byte>, base: nat, header: seq<byte>, data: seq<byte>)
    requires |r| == REGISTER_COUNT && base + BUFFER_SIZE <= REGISTER_COUNT && |header| == 5 && |data| <= 8
    ensures LoadedBytes(r[base..base + BUFFER_SIZE], header, data) == [TXREQ] + header + data + r[base + 6 + |data|..base + BUFFER_SIZE]
  {
    assert r[base..base + BUFFER_SIZE][6 + |data|..] == r[base + 6 + |data|..base + BUFFER_SIZE];
  }

  /** Loading frame `f` into buffer `i` writes LoadedBuffer over the buffer's registers and nothing else. */
  lemma BufferPlanEffect(r: seq<byte>, i: nat, f: TxFrame)
    requires |r| == REGISTER_COUNT && i < 3 && Loadable(f)
    ensures TX_CTRL[i] as nat + BUFFER_SIZE <= REGISTER_COUNT
    ensures ApplyAll(r, BufferPlan(i, f)) == Written(r, TX_CTRL[i] as nat, LoadedBuffer(TxSlice(r, i), f))
  {
    TxAddresses(i);
    var base := TX_CTRL[i] as nat;
    LoadedBufferInPlace(r, i, base, f);
    LoadPlanEffect(r, base, TX_CTRL[i], TX_SIDH[i], TX_D0[i], TxHeader(f), TxData(f), IsRemoteTx(f.frameType));
  }

  /** LoadedBuffer of buffer `i`'s registers is LoadedBytes of the same registers. */
  lemma LoadedBufferInPlace(r: seq<byte>, i: nat, base: nat, f: TxFrame)
    requires |r| == REGISTER_COUNT && i < 3 && base == TX_CTRL[i] as nat && Loadable(f)
    ensures base + BUFFER_SIZE <= REGISTER_COUNT
    ensures LoadedBuffer(TxSlice(r, i), f) == LoadedBytes(r[base..base + BUFFER_SIZE], TxHeader(f), TxData(f))
  {
    TxAddresses(i);
  }

  const TX_SELECT: seq<byte> := [TXB0, TXB1, TXB2]

  /** All selected buffers can be loaded. */
  predicate SendableConfig(tx: TxConfig) {
    tx.WellFormed() && forall i | 0 <= i < 3 && tx.select & TX_SELECT[i] == TX_SELECT[i] :: Loadable(tx.frames[i])
  }

  /** The writes for buffer `i` of a send: its load if selected, nothing otherwise. */
  function SelectedLoad(tx: TxConfig, i: nat): (ops: seq<RegOp>)
    requires SendableConfig(tx) && i < 3
    ensures AllFit(ops)
  {
    if tx.select & TX_SELECT[i] == TX_SELECT[i] then BufferPlan(i, tx.frames[i]) else []
  }

  /** The writes of a send: the selected buffers' loads, in the order TXB0, TXB1, TXB2. */
  function SendPlan(tx: TxConfig): (ops: seq<RegOp>)
    requires SendableConfig(tx)
    ensures AllFit(ops)
  {
    AllFitAppend(SelectedLoad(tx, 0), SelectedLoad(tx, 1));
    AllFitAppend(SelectedLoad(tx, 0) + SelectedLoad(tx, 1), SelectedLoad(tx, 2));
    SelectedLoad(tx, 0) + SelectedLoad(tx, 1) + SelectedLoad(tx, 2)
  }

  /** Reference contents of TX buffer `i` after a send, from its contents `prev` before. */
  function SentBuffer(prev: seq<byte>, tx: TxConfig, i: nat): (b: seq<byte>)
    requires |prev| == BUFFER_SIZE && SendableConfig(tx) && i < 3
    ensures |b| == BUFFER_SIZE
    ensures tx.select & TX_SELECT[i] != TX_SELECT[i] ==> b == prev
  {
    if tx.select & TX_SELECT[i] == TX_SELECT[i] then LoadedBuffer(prev, tx.frames[i]) else prev
  }

  /** Register file after a send: each buffer's registers overwritten with SentBuffer, in order. */
  function SentRegisters(r: seq<byte>, tx: TxConfig): (r': seq<byte>)
    requires |r| == REGISTER_COUNT && SendableConfig(tx)
    ensures |r'| == REGISTER_COUNT
  {
    Written(Written(Written(r,
      TXB0CTRL as nat, SentBuffer(TxSlice(r, 0), tx, 0)),
      TXB1CTRL as nat, SentBuffer(TxSlice(r, 1), tx, 1)),
      TXB2CTRL as nat, SentBuffer(TxSlice(r, 2), tx, 2))
  }

  /** One step of a send writes SentBuffer over buffer `i`. */
  lemma SelectedLoadEffect(r: seq<byte>, tx: TxConfig, i: nat)
    requires |r| == REGISTER_COUNT && SendableConfig(tx) && i < 3
    ensures TX_CTRL[i] as nat + BUFFER_SIZE <= REGISTER_COUNT
    ensures ApplyAll(r, SelectedLoad(tx, i)) == Written(r, TX_CTRL[i] as nat, SentBuffer(TxSlice(r, i), tx, i))
  {
    TxAddresses(i);
    if tx.select & TX_SELECT[i] == TX_SELECT[i] {
      SelectedBufferEffect(r, tx, i);
    } else {
      UnselectedBufferEffect(r, tx, i);
    }
  }

  lemma SelectedBufferEffect(r: seq<byte>, tx: TxConfig, i: nat)
    requires |r| == REGISTER_COUNT && SendableConfig(tx) && i < 3 && tx.select & TX_SELECT[i] == TX_SELECT[i]
    ensures TX_CTRL[i] as nat + BUFFER_SIZE <= REGISTER_COUNT
    ensures ApplyAll(r, SelectedLoad(tx, i)) == Written(r, TX_CTRL[i] as nat, SentBuffer(TxSlice(r, i), tx, i))
  {
    BufferPlanEffect(r, i, tx.frames[i]);
  }

  lemma UnselectedBufferEffect(r: seq<byte>, tx: TxConfig, i: nat)
    requires |r| == REGISTER_COUNT && SendableConfig(tx) && i < 3 && tx.select & TX_SELECT[i] != TX_SELECT[i]
    ensures TX_CTRL[i] as nat + BUFFER_SIZE <= REGISTER_COUNT
    ensures ApplyAll(r, SelectedLoad(tx, i)) == Written(r, TX_CTRL[i] as nat, SentBuffer(TxSlice(r, i), tx, i))
  {
    TxAddresses(i);
    WrittenUnchanged(r, TX_CTRL[i] as nat, BUFFER_SIZE);
  }

  /** The slice of buffer `j` is kept by a write of buffer `i`, i != j. */
  lemma OtherBufferKept(r: seq<byte>, i: nat, b: seq<byte>, j: nat)
    requires |r| == REGISTER_COUNT && i < 3 && j < 3 && i != j && |b| == BUFFER_SIZE
    ensures TX_CTRL[i] as nat + BUFFER_SIZE <= REGISTER_COUNT
    ensures TxSlice(Written(r, TX_CTRL[i] as nat, b), j) == TxSlice(r, j)
  {
    TxAddresses(i);
    TxAddresses(j);
    WrittenSliceDisjoint(r, TX_CTRL[i] as nat, b, TX_CTRL[j] as nat, TX_CTRL[j] as nat + BUFFER_SIZE);
  }

  /** A send is the three selected loads, in order TXB0, TXB1, TXB2. */
  lemma SendPlanEffect(r: seq<byte>, tx: TxConfig)
    requires |r| == REGISTER_COUNT && SendableConfig(tx)
    ensures ApplyAll(r, SendPlan(tx)) == SentRegisters(r, tx)
  {
    var p0, p1, p2 := SelectedLoad(tx, 0), SelectedLoad(tx, 1), SelectedLoad(tx, 2);
    var r1 := ApplyAll(r, p0);
    var r2 := ApplyAll(r1, p1);
    SelectedLoadEffect(r, tx, 0);
    SelectedLoadEffect(r1, tx, 1);
    SelectedLoadEffect(r2, tx, 2);
    OtherBufferKept(r, 0, SentBuffer(TxSlice(r, 0), tx, 0), 1);
    OtherBufferKept(r, 0, SentBuffer(TxSlice(r, 0), tx, 0), 2);
    OtherBufferKept(r1, 1, SentBuffer(TxSlice(r1, 1), tx, 1), 2);
    ApplyAllAppend(r, p0, p1);
    ApplyAllAppend(r, p0 + p1, p2);
  }

  /**
   * After a send each TX buffer holds SentBuffer: the selected ones are loaded
   * with their frames (LoadedBuffer), the unselected ones keep their
   * registers; every register outside the three buffers is unchanged.
   */
  lemma SentRegistersFields(r: seq<byte>, tx: TxConfig)
    requires |r| == REGISTER_COUNT && SendableConfig(tx)
    ensures var r' := SentRegisters(r, tx);
      && TxSlice(r', 0) == SentBuffer(TxSlice(r, 0), tx, 0)
      && TxSlice(r', 1) == SentBuffer(TxSlice(r, 1), tx, 1)
      && TxSlice(r', 2) == SentBuffer(TxSlice(r, 2), tx, 2)
      && (forall a | 0 <= a < REGISTER_COUNT && OutsideTx(a) :: r'[a] == r[a])
  {
    var b0, b1, b2 := SentBuffer(TxSlice(r, 0), tx, 0), SentBuffer(TxSlice(r, 1), tx, 1), SentBuffer(TxSlice(r, 2), tx, 2);
    var r1 := Written(r, TXB0CTRL as nat, b0);
    var r2 := Written(r1, TXB1CTRL as nat, b1);
    var r3 := Written(r2, TXB2CTRL as nat, b2);
    WrittenSlice(r, TXB0CTRL as nat, b0);
    WrittenSlice(r1, TXB1CTRL as nat, b1);
    WrittenSlice(r2, TXB2CTRL as nat, b2);
    OtherBufferKept(r1, 1, b1, 0);
    OtherBufferKept(r2, 2, b2, 0);
    OtherBufferKept(r2, 2, b2, 1);
  }

  /** Register `a` lies outside the three TX buffers. */
  predicate OutsideTx(a: nat) {
    !InTxBuffer(0, a) && !InTxBuffer(1, a) && !InTxBuffer(2, a)
  }

  /** The bit time is defined whenever a buffer is selected: the speed is not zero. */
  predicate Timed(tx: TxConfig, baud: word) {
    forall i | 0 <= i < 3 && tx.select & TX_SELECT[i] == TX_SELECT[i] :: baud != 0
  }

  /** The wait after loading buffer `i`: its frame's length in bits times the bit time, if selected. */
  function BufferWaitUs(tx: TxConfig, i: nat, baud: word): (us: nat)
    requires tx.WellFormed() && i < 3 && (tx.select & TX_SELECT[i] == TX_SELECT[i] ==> baud != 0)
    ensures tx.select & TX_SELECT[i] != TX_SELECT[i] ==> us == 0
  {
    if tx.select & TX_SELECT[i] == TX_SELECT[i]
    then FrameWaitUs(tx.frames[i].frameType, tx.frames[i].dataLength as nat, baud as nat) else 0
  }

  /** The frame waits of a send, one per selected buffer. */
  function SendWaitUs(tx: TxConfig, baud: word): (us: nat)
    requires tx.WellFormed() && Timed(tx, baud)
  {
    BufferWaitUs(tx, 0, baud) + BufferWaitUs(tx, 1, baud) + BufferWaitUs(tx, 2, baud)
  }

  /**
   * For a send of loadable frames at a supported speed, the total wait is at
   * most three 8-byte extended frames and fits the 32-bit delay argument for
   * each buffer.
   */
  lemma SendWaitBounded(tx: TxConfig, baud: word)
    requires SendableConfig(tx) && SupportedBaud(baud)
    requires forall i | 0 <= i < 3 :: tx.frames[i].dataLength <= 8
    ensures forall i | 0 <= i < 3 :: BufferWaitUs(tx, i, baud) <= 157 * BitTimeUs(baud as nat) < 0x1_0000_0000
    ensures SendWaitUs(tx, baud) <= 3 * 157 * BitTimeUs(baud as nat)
  {
    BufferWaitBounded(tx, 0, baud);
    BufferWaitBounded(tx, 1, baud);
    BufferWaitBounded(tx, 2, baud);
    forall i | 0 <= i < 3
      ensures BufferWaitUs(tx, i, baud) <= 157 * BitTimeUs(baud as nat) < 0x1_0000_0000
    {
      BufferWaitBounded(tx, i, baud);
    }
  }

  /** The wait after loading one buffer is at most that of an 8-byte extended frame, which fits 32 bits. */
  lemma BufferWaitBounded(tx: TxConfig, i: nat, baud: word)
    requires SendableConfig(tx) && baud != 0 && i < 3 && tx.frames[i].dataLength <= 8
    ensures BufferWaitUs(tx, i, baud) <= 157 * BitTimeUs(baud as nat) < 0x1_0000_0000
  {
    FrameWaitFitsWord(tx.frames[i].frameType, tx.frames[i].dataLength as nat, baud as nat);
  }

  // ---------------------------------------------------------------------------
  // Receive

  /** The six header registers of an RX buffer read in one transfer: CTRL, SIDH, SIDL, EID8, EID0, DLC. */
  predicate IsExtendedRx(hdr: seq<byte>)
    requires |hdr| == 6
  {
    hdr[2] & SIDL_IDE == SIDL_IDE
  }

  /** A received frame is remote when SRR is set (standard) or RTR is set in the DLC register (extended). */
  predicate IsRemoteRx(hdr: seq<byte>)
    requires |hdr| == 6
  {
    if IsExtendedRx(hdr) then hdr[5] & DLC_RTR == DLC_RTR else hdr[2] & SIDL_SRR == SIDL_SRR
  }

  /** The frame type tag of a received frame: bit 0 extended, bit 1 remote. */
  function RxFrameType(hdr: seq<byte>): (t: byte)
    requires |hdr| == 6
    ensures t <= EXTENDED_REMOTE_FRAME
    ensures (t & 1 == 1) == IsExtendedRx(hdr) && (t & 2 == 2) == IsRemoteRx(hdr)
  {
    if IsExtendedRx(hdr) then
      if hdr[5] & DLC_RTR == DLC_RTR then EXTENDED_REMOTE_FRAME else EXTENDED_DATA_FRAME
    else
      if hdr[2] & SIDL_SRR == SIDL_SRR then STANDARD_REMOTE_FRAME else STANDARD_DATA_FRAME
  }

  /** The identifier of a received frame: the extended decode (as written) or the 11-bit SID. */
  function RxId(hdr: seq<byte>): (id: word)
    requires |hdr| == 6
    ensures IsExtendedRx(hdr) ==> id == UnpackExtended(hdr[1..5])
    ensures !IsExtendedRx(hdr) ==> id == UnpackStandard(hdr[1], hdr[2]) && id < 0x800
  {
    if IsExtendedRx(hdr) then UnpackExtended(hdr[1..5]) else UnpackStandard(hdr[1], hdr[2])
  }

  /**
   * The acceptance filter reported: bit 0 (FILHIT0) of RXB0CTRL for RXB0,
   * bits 2..0 (FILHIT) of RXB1CTRL for RXB1; every higher bit of the result
   * is zero, so the other control bits never leak into it.
   */
  function RxAccFilter(b: nat, ctrl: byte): (f: byte)
    requires b < 2
    ensures b == 0 ==> f <= 1 && f & 1 == ctrl & 1
    ensures b == 1 ==> f <= 7 && f & 7 == ctrl & 7
  {
    if b == 0 then ctrl & FILHIT0 else ctrl & FILHIT
  }

  /** RXB0 rolled over into RXB1: BUKT, BUKT1 and FILHIT0 of RXB0CTRL read as 6 or 7. */
  predicate RolledOver(ctrl: byte) {
    ctrl & (BUKT_ROLLOVER | BUKT1 | FILHIT0) >= ROLLOVER_ACCEPTANCE_FILTER_0
  }

  /** Rollover is signalled exactly when both BUKT and BUKT1 are set, whatever FILHIT0 says. */
  lemma RolledOverIff(ctrl: byte)
    ensures RolledOver(ctrl) <==> ctrl & (BUKT_ROLLOVER | BUKT1) == BUKT_ROLLOVER | BUKT1
  {
  }

  /** The register the data of a data frame in RX buffer `b` is read from. */
  function RxDataAddr(b: nat, hdr: seq<byte>): (a: byte)
    requires b < 2 && |hdr| == 6
    ensures b == 0 ==> a == if RolledOver(hdr[0]) then RXB1D0 else RXB0D0
    ensures b == 1 ==> a == if IsExtendedRx(hdr) then RXB1D0 else RXB1D1
  {
    if b == 0 then (if RolledOver(hdr[0]) then RXB1D0 else RXB0D0)
    else if IsExtendedRx(hdr) then RXB1D0 else RXB1D1
  }

  function RxHeader(r: seq<byte>, b: nat): (hdr: seq<byte>)
    requires |r| == REGISTER_COUNT && b < 2
    ensures |hdr| == 6 && hdr == r[RX_CTRL[b]..RX_CTRL[b] as nat + 6]
  {
    r[RX_CTRL[b]..RX_CTRL[b] as nat + 6]
  }

  /** The frame in RX buffer `b` can be read without overrunning the 8-byte data array. */
  predicate Readable(r: seq<byte>, b: nat)
    requires |r| == REGISTER_COUNT && b < 2
  {
    var hdr := RxHeader(r, b);
    IsRemoteRx(hdr) || hdr[5] & DLC_MASK <= 8
  }

  /**
   * The descriptor slot after reading RX buffer `b`: frame type, data length,
   * acceptance filter and identifier decoded from the header; for a data frame
   * the first dataLength data bytes come from the data source register, the
   * others keep their values; a remote frame keeps the old data.
   */
  function ReceiveSlot(r: seq<byte>, b: nat, prev: RxSlot): (s: RxSlot)
    requires |r| == REGISTER_COUNT && b < 2 && prev.WellFormed() && Readable(r, b)
    ensures s.WellFormed()
  {
    var hdr := RxHeader(r, b);
    RxSlot(RxFrameType(hdr), hdr[5] & DLC_MASK, RxAccFilter(b, hdr[0]), ReceivedData(r, b, prev.data), RxId(hdr))
  }

  /**
   * The data bytes of the slot after reading RX buffer `b` over `prev`: for a
   * data frame the first dataLength bytes come from the data source register
   * and the others keep their values; a remote frame keeps them all.
   */
  function ReceivedData(r: seq<byte>, b: nat, prev: seq<byte>): (data: seq<byte>)
    requires |r| == REGISTER_COUNT && b < 2 && |prev| == 8 && Readable(r, b)
    ensures |data| == 8
  {
    var hdr := RxHeader(r, b);
    var d := (hdr[5] & DLC_MASK) as nat;
    if IsRemoteRx(hdr) then prev
    else
      var a := RxDataAddr(b, hdr) as nat;
      r[a..a + d] + prev[d..]
  }

  /** The rollover status after reading: written only for a data frame in RXB0. */
  function RolloverAfter(r: seq<byte>, b: nat, prev: byte): (st: byte)
    requires |r| == REGISTER_COUNT && b < 2
    ensures st == if b == 0 && !IsRemoteRx(RxHeader(r, 0)) then (if RolledOver(r[RXB0CTRL]) then ROLLOVER_OCCURRED else ROLLOVER_NOT_OCCURRED) else prev
  {
    RxRollover(b, RxHeader(r, b), prev)
  }

  /** The rollover status stored after reading header `hdr` from RX buffer `b`. */
  function RxRollover(b: nat, hdr: seq<byte>, prev: byte): (st: byte)
    requires |hdr| == 6
  {
    if b == 0 && !IsRemoteRx(hdr) then
      if RolledOver(hdr[0]) then ROLLOVER_OCCURRED else ROLLOVER_NOT_OCCURRED
    else prev
  }

  /** The READ transactions of reading RX buffer `b`: the six header registers, then the data bytes for a data frame. */
  function RxWire(r: seq<byte>, b: nat): (ts: seq<seq<byte>>)
    requires |r| == REGISTER_COUNT && b < 2 && Readable(r, b)
    ensures |ts| == if IsRemoteRx(RxHeader(r, b)) then 1 else 2
  {
    [ReadWire(RX_CTRL[b], RxHeader(r, b))] + RxDataWire(r, b)
  }

  /** The READ transaction of the data bytes of RX buffer `b`: none for a remote frame. */
  function RxDataWire(r: seq<byte>, b: nat): (ts: seq<seq<byte>>)
    requires |r| == REGISTER_COUNT && b < 2 && Readable(r, b)
    ensures |ts| == if IsRemoteRx(RxHeader(r, b)) then 0 else 1
  {
    var hdr := RxHeader(r, b);
    var d := (hdr[5] & DLC_MASK) as nat;
    if IsRemoteRx(hdr) then []
    else
      var a := RxDataAddr(b, hdr);
      [ReadWire(a, r[a..a as nat + d])]
  }

  /**
   * What a data frame in RX buffer `b` yields: the first dataLength data bytes
   * are the registers starting at RXB0D0 (RXB0, no rollover), RXB1D0 (RXB0
   * after rollover, RXB1 extended) or RXB1D1 (RXB1 standard, one past D0), and
   * the other data bytes are left as they were.
   */
  lemma ReceiveDataFrame(r: seq<byte>, b: nat, prev: RxSlot)
    requires |r| == REGISTER_COUNT && b < 2 && prev.WellFormed() && Readable(r, b)
    requires !IsRemoteRx(RxHeader(r, b))
    ensures var s := ReceiveSlot(r, b, prev);
      var d := s.dataLength as nat;
      var a := if b == 0 then (if RolledOver(r[RXB0CTRL]) then RXB1D0 else RXB0D0)
               else if IsExtendedRx(RxHeader(r, 1)) then RXB1D0 else RXB1D1;
      && d <= 8
      && s.data[..d] == r[a..a as nat + d]
      && s.data[d..] == prev.data[d..]
  {
    var s := ReceiveSlot(r, b, prev);
    var d := s.dataLength as nat;
    var a := RxDataAddr(b, RxHeader(r, b)) as nat;
    assert s.data == r[a..a + d] + prev.data[d..];
  }

  /** A remote frame reads no data: the data bytes and the rollover status keep their values. */
  lemma ReceiveRemoteFrame(r: seq<byte>, b: nat, prev: RxSlot, rollover: byte)
    requires |r| == REGISTER_COUNT && b < 2 && prev.WellFormed() && Readable(r, b)
    requires IsRemoteRx(RxHeader(r, b))
    ensures ReceiveSlot(r, b, prev).data == prev.data
    ensures RolloverAfter(r, b, rollover) == rollover
    ensures RxFrameType(RxHeader(r, b)) in {STANDARD_REMOTE_FRAME, EXTENDED_REMOTE_FRAME}
  {
  }

  // ---------------------------------------------------------------------------
  // Reading a frame: the selected RX buffers, RXB0 first

  const RX_SELECT: seq<byte> := [RXB0, RXB1]

  /** RX buffer `b` is selected by bit RXB0 or RXB1 of the descriptor's buffer field. */
  predicate RxSelected(buffers: byte, b: nat)
    requires b < 2
  {
    buffers & RX_SELECT[b] == RX_SELECT[b]
  }

  /** How many RX buffers the descriptor selects. */
  function SelectedCount(buffers: byte): (n: nat)
    ensures n <= 2
    ensures n == 0 <==> !RxSelected(buffers, 0) && !RxSelected(buffers, 1)
    ensures n == 2 <==> RxSelected(buffers, 0) && RxSelected(buffers, 1)
  {
    (if RxSelected(buffers, 0) then 1 else 0) + (if RxSelected(buffers, 1) then 1 else 0)
  }

  /** Every selected RX buffer can be read. */
  predicate ReadableSelected(r: seq<byte>, buffers: byte)
    requires |r| == REGISTER_COUNT
  {
    (RxSelected(buffers, 0) ==> Readable(r, 0)) && (RxSelected(buffers, 1) ==> Readable(r, 1))
  }

  /** Slot `b` after a frame read: the received frame if buffer `b` is selected, `prev` otherwise. */
  function SlotAfterRead(r: seq<byte>, buffers: byte, b: nat, prev: RxSlot): (s: RxSlot)
    requires |r| == REGISTER_COUNT && b < 2 && prev.WellFormed() && ReadableSelected(r, buffers)
    ensures s.WellFormed()
  {
    if RxSelected(buffers, b) then ReceiveSlot(r, b, prev) else prev
  }

  /** The rollover status after a frame read: only a read of RXB0 can set it. */
  function RolloverAfterRead(r: seq<byte>, buffers: byte, prev: byte): (st: byte)
    requires |r| == REGISTER_COUNT
  {
    if RxSelected(buffers, 0) then RolloverAfter(r, 0, prev) else prev
  }

  /** The transactions of a frame read: those of RXB0 if selected, then those of RXB1 if selected. */
  function FrameReadWire(r: seq<byte>, buffers: byte): (ts: seq<seq<byte>>)
    requires |r| == REGISTER_COUNT && ReadableSelected(r, buffers)
    ensures |ts| <= 4
  {
    BufferReadWire(r, buffers, 0) + BufferReadWire(r, buffers, 1)
  }

  function BufferReadWire(r: seq<byte>, buffers: byte, b: nat): (ts: seq<seq<byte>>)
    requires |r| == REGISTER_COUNT && b < 2 && ReadableSelected(r, buffers)
    ensures |ts| <= 2
  {
    if RxSelected(buffers, b) then RxWire(r, b) else []
  }

  /**
   * A frame read only reads: every transaction is a READ, which the chip
   * does not decode as a register-changing operation.
   */
  lemma FrameReadOnlyReads(r: seq<byte>, buffers: byte)
    requires |r| == REGISTER_COUNT && ReadableSelected(r, buffers)
    ensures forall t | t in FrameReadWire(r, buffers) :: |t| >= 2 && t[0] == READ_INS && ParseTransaction(t) == None
  {
    forall b | 0 <= b < 2
      ensures forall t | t in BufferReadWire(r, buffers, b) :: |t| >= 2 && t[0] == READ_INS
    {
      if RxSelected(buffers, b) {
        var hdr := RxHeader(r, b);
        assert RxWire(r, b) == [ReadWire(RX_CTRL[b], hdr)] + RxDataWire(r, b);
      }
    }
    assert FrameReadWire(r, buffers) == BufferReadWire(r, buffers, 0) + BufferReadWire(r, buffers, 1);
  }

  /**
   * The first transaction of a frame read is the header READ of RXB0 when
   * RXB0 is selected, otherwise that of RXB1 when RXB1 is selected; with
   * neither selected nothing is read.
   */
  lemma FrameReadFirst(r: seq<byte>, buffers: byte)
    requires |r| == REGISTER_COUNT && ReadableSelected(r, buffers)
    ensures RxSelected(buffers, 0) ==> FrameReadWire(r, buffers)[0] == ReadWire(RXB0CTRL, RxHeader(r, 0))
    ensures !RxSelected(buffers, 0) && RxSelected(buffers, 1) ==> FrameReadWire(r, buffers)[0] == ReadWire(RXB1CTRL, RxHeader(r, 1))
    ensures FrameReadWire(r, buffers) == [] <==> !RxSelected(buffers, 0) && !RxSelected(buffers, 1)
  {
    BufferGroupLayout();
  }

  // ---------------------------------------------------------------------------
  // Transmit to receive

  /**
   * The header registers of the receiving buffer for a frame sent with `f`:
   * the same identifier and DLC bytes, except that the receiver flags a
   * standard remote frame with SRR in SIDL.
   */
  function ReceivedHeader(ctrl: byte, f: TxFrame): (hdr: seq<byte>)
    ensures |hdr| == 6
  {
    var g := TxIdGroup(f);
    var sidl := if f.frameType == STANDARD_REMOTE_FRAME then g[1] | SIDL_SRR else g[1];
    [ctrl, g[0], sidl, g[2], g[3], TxDlc(f)]
  }

  /**
   * Frames sent by the driver come back through the receive decode with their
   * type, data length and identifier: every tag 0..3 with at most 8 data bytes,
   * for every 11-bit standard identifier and for every extended identifier
   * whose bits 18..20 are zero (the decode as written loses those bits).
   */
  lemma TxRxRoundTrip(ctrl: byte, f: TxFrame)
    requires f.frameType <= EXTENDED_REMOTE_FRAME && f.dataLength <= 8
    requires if IsExtendedTx(f.frameType) then f.id < 0x2000_0000 && f.id & 0x1C_0000 == 0 else f.id < 0x800
    ensures var hdr := ReceivedHeader(ctrl, f);
      && RxFrameType(hdr) == f.frameType
      && hdr[5] & DLC_MASK == f.dataLength
      && RxId(hdr) == f.id
  {
    RoundTripDlc(f);
    if IsExtendedTx(f.frameType) {
      ExtendedTxRxRoundTrip(ctrl, f);
    } else {
      StandardTxRxRoundTrip(ctrl, f);
    }
  }

  /** The DLC register gives back the data length, and its RTR bit says whether the tag is remote. */
  lemma RoundTripDlc(f: TxFrame)
    requires f.dataLength <= 8
    ensures TxDlc(f) & DLC_MASK == f.dataLength
    ensures (TxDlc(f) & DLC_RTR == DLC_RTR) == IsRemoteTx(f.frameType)
  {
  }

  lemma StandardTxRxRoundTrip(ctrl: byte, f: TxFrame)
    requires f.frameType <= EXTENDED_REMOTE_FRAME && !IsExtendedTx(f.frameType) && f.id < 0x800
    ensures var hdr := ReceivedHeader(ctrl, f);
      && !IsExtendedRx(hdr)
      && IsRemoteRx(hdr) == IsRemoteTx(f.frameType)
      && RxId(hdr) == f.id
  {
    var hdr := ReceivedHeader(ctrl, f);
    var g := TxIdGroup(f);
    TxIdGroupLayout(f);
    var flags: byte := if f.frameType == STANDARD_REMOTE_FRAME then SIDL_SRR else 0;
    assert hdr[2] == g[1] | flags;
    StandardRoundTrip(f.id, flags);
  }

  lemma ExtendedTxRxRoundTrip(ctrl: byte, f: TxFrame)
    requires IsExtendedTx(f.frameType) && f.dataLength <= 8
    requires f.id < 0x2000_0000 && f.id & 0x1C_0000 == 0
    ensures var hdr := ReceivedHeader(ctrl, f);
      && IsExtendedRx(hdr)
      && IsRemoteRx(hdr) == IsRemoteTx(f.frameType)
      && RxId(hdr) == f.id
  {
    ExtendedHeaderShape(ctrl, f);
    var hdr := ReceivedHeader(ctrl, f);
    assert IsRemoteRx(hdr) == IsRemoteTx(f.frameType) by {
      RoundTripDlc(f);
    }
    assert RxId(hdr) == f.id by {
      ExtendedFrameRoundTrip(f.id);
    }
  }

  /** An extended frame's receive header carries the flagged extended group and the DLC byte unchanged. */
  lemma ExtendedHeaderShape(ctrl: byte, f: TxFrame)
    requires IsExtendedTx(f.frameType)
    ensures var hdr := ReceivedHeader(ctrl, f);
      && hdr[1..5] == PackExtendedFlagged(f.id, true)
      && hdr[5] == TxDlc(f)
      && IsExtendedRx(hdr)
  {
    var hdr := ReceivedHeader(ctrl, f);
    var g := PackExtendedFlagged(f.id, true);
    assert TxIdGroup(f) == g;
    assert hdr == [ctrl, g[0], g[1], g[2], g[3], TxDlc(f)];
  }

  // ---------------------------------------------------------------------------
  // Transmit to receive: the data bytes

  /** The 14 registers of RX buffer `b`. */
  function RxSlice(r: seq<byte>, b: nat): (buf: seq<byte>)
    requires |r| == REGISTER_COUNT && b < 2
    ensures |buf| == BUFFER_SIZE && buf[..6] == RxHeader(r, b)
  {
    r[RX_CTRL[b]..RX_CTRL[b] as nat + BUFFER_SIZE]
  }

  /**
   * A buffer holds frame `f` as loading `f` into a TX buffer lays it out: the
   * identifier group and the DLC byte at +1..+5, the data bytes written from
   * D0 at +6 on.
   */
  predicate HoldsFrame(buf: seq<byte>, f: TxFrame)
    requires |buf| == BUFFER_SIZE && Loadable(f)
  {
    buf[1..6] == TxHeader(f) && buf[6..6 + |TxData(f)|] == TxData(f)
  }

  /** A loaded TX buffer holds its frame. */
  lemma LoadedBufferHoldsFrame(prev: seq<byte>, f: TxFrame)
    requires |prev| == BUFFER_SIZE && Loadable(f)
    ensures HoldsFrame(LoadedBuffer(prev, f), f)
  {
    var b := LoadedBuffer(prev, f);
    assert b == [TXREQ] + TxHeader(f) + TxData(f) + prev[6 + |TxData(f)|..];
  }

  /**
   * A data frame held in an RX buffer reads back as a data frame of the same
   * kind, with the frame's data length in its DLC register.
   */
  lemma HeldDataFrame(r: seq<byte>, b: nat, f: TxFrame)
    requires |r| == REGISTER_COUNT && b < 2 && Loadable(f) && !IsRemoteTx(f.frameType)
    requires HoldsFrame(RxSlice(r, b), f)
    ensures var hdr := RxHeader(r, b);
      && Readable(r, b) && !IsRemoteRx(hdr)
      && hdr[5] & DLC_MASK == f.dataLength
      && IsExtendedRx(hdr) == IsExtendedTx(f.frameType)
  {
    var hdr := RxHeader(r, b);
    var buf := RxSlice(r, b);
    assert hdr[1..6] == buf[1..6];
    assert hdr[2] == TxIdGroup(f)[1] && hdr[5] == TxDlc(f);
    RoundTripDlc(f);
    TxIdGroupLayout(f);
  }

  /** The data bytes of a held data frame are the registers from D0 of its buffer on. */
  lemma HeldData(r: seq<byte>, b: nat, f: TxFrame)
    requires |r| == REGISTER_COUNT && b < 2 && Loadable(f) && !IsRemoteTx(f.frameType)
    requires HoldsFrame(RxSlice(r, b), f)
    ensures var a := RX_CTRL[b] as nat + 6; r[a..a + f.dataLength as nat] == f.data[..f.dataLength]
  {
    var base, d := RX_CTRL[b] as nat, f.dataLength as nat;
    assert |TxData(f)| == d;
    SliceOfSlice(r, base, base + BUFFER_SIZE, 6, 6 + d);
  }

  lemma SliceOfSlice(r: seq<byte>, lo: nat, hi: nat, i: nat, j: nat)
    requires lo <= hi <= |r| && i <= j <= hi - lo
    ensures r[lo..hi][i..j] == r[lo + i..lo + j]
  {
    forall k | 0 <= k < j - i
      ensures r[lo..hi][i..j][k] == r[lo + i..lo + j][k]
    {
    }
  }

  /**
   * Data round trip: a data frame held in RXB0 (without rollover) or, with an
   * extended identifier, in RXB1 comes back with its data bytes, and the
   * slot's bytes beyond the data length keep their values.
   */
  lemma RxDataRoundTrip(r: seq<byte>, b: nat, f: TxFrame, prev: seq<byte>)
    requires |r| == REGISTER_COUNT && b < 2 && Loadable(f) && !IsRemoteTx(f.frameType) && |prev| == 8
    requires HoldsFrame(RxSlice(r, b), f)
    requires b == 0 ==> !RolledOver(r[RXB0CTRL])
    requires b == 1 ==> IsExtendedTx(f.frameType)
    ensures Readable(r, b)
    ensures var data, d := ReceivedData(r, b, prev), f.dataLength as nat;
      data[..d] == TxData(f) && data[d..] == prev[d..]
  {
    HeldDataFrame(r, b, f);
    HeldData(r, b, f);
    var d := f.dataLength as nat;
    var a := RxDataAddr(b, RxHeader(r, b)) as nat;
    assert a == RX_CTRL[b] as nat + 6;
    assert ReceivedData(r, b, prev) == r[a..a + d] + prev[d..];
  }

  /**
   * As written, a standard data frame in RXB1 is read from RXB1D1, one register
   * past D0: the slot's first dataLength - 1 bytes are the frame's bytes from
   * the second on, and its last byte is the register after the frame's data.
   */
  lemma RxbOneStandardShifted(r: seq<byte>, f: TxFrame, prev: seq<byte>)
    requires |r| == REGISTER_COUNT && Loadable(f) && |prev| == 8
    requires !IsRemoteTx(f.frameType) && !IsExtendedTx(f.frameType) && f.dataLength >= 1
    requires HoldsFrame(RxSlice(r, 1), f)
    ensures Readable(r, 1)
    ensures var data, d := ReceivedData(r, 1, prev), f.dataLength as nat;
      && data[..d - 1] == f.data[1..d]
      && data[d - 1] == r[RXB1D0 as nat + d]
  {
    HeldDataFrame(r, 1, f);
    HeldData(r, 1, f);
    var d := f.dataLength as nat;
    var a := RXB1D0 as nat;
    var data, src := ReceivedData(r, 1, prev), r[a + 1..a + 1 + d];
    assert data == src + prev[d..];
    assert data[..d - 1] == src[..d - 1] && data[d - 1] == src[d - 1];
    SliceOfSlice(r, a + 1, a + 1 + d, 0, d - 1);
    SliceOfSlice(r, a, a + d, 1, d);
    assert r[a..a + d][1..] == f.data[..d][1..] == f.data[1..d];
  }

  /**
   * The standard data frame 0x555 with bytes 1..8 comes back from RXB1 as
   * 2..8 followed by register 0x7E, which lies outside the buffer.
   */
  lemma RxbOneStandardDemo(r: seq<byte>, prev: seq<byte>)
    requires |r| == REGISTER_COUNT && |prev| == 8
    requires HoldsFrame(RxSlice(r, 1), TxFrame(STANDARD_DATA_FRAME, 8, [1, 2, 3, 4, 5, 6, 7, 8], 0x555))
    ensures Readable(r, 1)
    ensures ReceivedData(r, 1, prev) == [2, 3, 4, 5, 6, 7, 8, r[0x7E]]
    ensures ReceivedData(r, 1, prev)[0] != 1
  {
    var f := TxFrame(STANDARD_DATA_FRAME, 8, [1, 2, 3, 4, 5, 6, 7, 8], 0x555);
    RxbOneStandardShifted(r, f, prev);
    assert f.data[1..8] == [2, 3, 4, 5, 6, 7, 8];
  }

  /** The register the data of a data frame in RX buffer `b` is evidently meant to come from: D0 of RXB1 for either identifier kind. */
  function RxDataAddrIntended(b: nat, hdr: seq<byte>): (a: byte)
    requires b < 2 && |hdr| == 6
    ensures b == 0 || IsExtendedRx(hdr) ==> a == RxDataAddr(b, hdr)
    ensures b == 1 ==> a == RXB1D0
  {
    if b == 0 then RxDataAddr(b, hdr) else RXB1D0
  }

  /** The data bytes of the slot with the data read from the intended register. */
  function ReceivedDataIntended(r: seq<byte>, b: nat, prev: seq<byte>): (data: seq<byte>)
    requires |r| == REGISTER_COUNT && b < 2 && |prev| == 8 && Readable(r, b)
    ensures |data| == 8
    ensures b == 0 || IsExtendedRx(RxHeader(r, b)) ==> data == ReceivedData(r, b, prev)
  {
    var hdr := RxHeader(r, b);
    var d := (hdr[5] & DLC_MASK) as nat;
    if IsRemoteRx(hdr) then prev
    else
      var a := RxDataAddrIntended(b, hdr) as nat;
      r[a..a + d] + prev[d..]
  }

  /** With the intended register, a data frame in RXB1 comes back with its data bytes whatever its identifier kind. */
  lemma RxDataRoundTripIntended(r: seq<byte>, b: nat, f: TxFrame, prev: seq<byte>)
    requires |r| == REGISTER_COUNT && b < 2 && Loadable(f) && !IsRemoteTx(f.frameType) && |prev| == 8
    requires HoldsFrame(RxSlice(r, b), f)
    requires b == 0 ==> !RolledOver(r[RXB0CTRL])
    ensures Readable(r, b)
    ensures var data, d := ReceivedDataIntended(r, b, prev), f.dataLength as nat;
      data[..d] == TxData(f) && data[d..] == prev[d..]
  {
    HeldDataFrame(r, b, f);
    HeldData(r, b, f);
    var d := f.dataLength as nat;
    var a := RX_CTRL[b] as nat + 6;
    assert ReceivedDataIntended(r, b, prev) == r[a..a + d] + prev[d..];
  }

  /** The identifier of a received frame decoded by the register layout: ExtendedIdOf for extended frames. */
  function RxIdIntended(hdr: seq<byte>): (id: word)
    requires |hdr| == 6
    ensures IsExtendedRx(hdr) ==> id == ExtendedIdOf(hdr[1..5])
    ensures !IsExtendedRx(hdr) ==> id == RxId(hdr)
  {
    if IsExtendedRx(hdr) then ExtendedIdOf(hdr[1..5]) else RxId(hdr)
  }

  /** With the layout decode every 29-bit extended identifier and every 11-bit standard one comes back. */
  lemma TxRxIdRoundTripIntended(ctrl: byte, f: TxFrame)
    requires f.frameType <= EXTENDED_REMOTE_FRAME
    requires if IsExtendedTx(f.frameType) then f.id < 0x2000_0000 else f.id < 0x800
    ensures RxIdIntended(ReceivedHeader(ctrl, f)) == f.id
  {
    if IsExtendedTx(f.frameType) {
      ExtendedIdRoundTripIntended(ctrl, f);
    } else {
      StandardTxRxRoundTrip(ctrl, f);
    }
  }

  lemma ExtendedIdRoundTripIntended(ctrl: byte, f: TxFrame)
    requires IsExtendedTx(f.frameType) && f.id < 0x2000_0000
    ensures RxIdIntended(ReceivedHeader(ctrl, f)) == f.id
  {
    var hdr := ReceivedHeader(ctrl, f);
    ExtendedHeaderShape(ctrl, f);
    FlaggedPackingKeepsId(f.id, true);
    LowBitsOfSmall(f.id);
    assert ExtendedIdOf(hdr[1..5]) == f.id;
  }

  lemma LowBitsOfSmall(id: word)
    requires id < 0x2000_0000
    ensures id & 0x1FFF_FFFF == id
  {
  }
}
