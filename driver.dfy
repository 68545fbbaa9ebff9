/**
 * The driver routines as operations on one MCP2515 reached through the SPI
 * selector of a handle. The chip is its 128 registers; what the driver puts on
 * the bus (one byte string per chip-select transaction) and the time it spends
 * in the microsecond delay are recorded as ghost state. Each routine is proved
 * to issue exactly the register operations of its plan (ConfigPlan,
 * FrameCodec), so the properties proved about the plans hold of the routines.
 */
module Driver {
  import opened CanDefs
  import opened CanId
  import opened TxStatus
  import opened BitTiming
  import opened RegisterFile
  import opened ConfigPlan
  import opened FrameCodec

  /** The delay after every chip-select transaction, in microseconds. */
  const TRANSACTION_US: nat := 50

  /** What can be observed of the chip and the link: registers, transactions so far, total delay. */
  datatype Snapshot = Snapshot(regs: seq<byte>, log: seq<seq<byte>>, delayUs: nat)

  /**
   * The snapshot after the driver issues the register operations `ops` in
   * order. With a valid selector each one changes the registers and goes on
   * the bus; with an invalid one nothing reaches the chip. Either way each is
   * followed by the transaction delay.
   */
  function Run(valid: bool, s: Snapshot, ops: seq<RegOp>): (t: Snapshot)
    requires |s.regs| == REGISTER_COUNT && (valid ==> AllFit(ops))
    ensures |t.regs| == REGISTER_COUNT
  {
    Snapshot(if valid then ApplyAll(s.regs, ops) else s.regs,
             if valid then s.log + WireAll(ops) else s.log,
             s.delayUs + TRANSACTION_US * |ops|)
  }

  /** The snapshot after waiting `us` more microseconds. */
  function Wait(s: Snapshot, us: nat): (t: Snapshot)
    ensures t.regs == s.regs && t.log == s.log && t.delayUs == s.delayUs + us
  {
    s.(delayUs := s.delayUs + us)
  }

  /** Issuing one plan after another is issuing their concatenation. */
  lemma RunAppend(valid: bool, s: Snapshot, a: seq<RegOp>, b: seq<RegOp>)
    requires |s.regs| == REGISTER_COUNT && AllFit(a) && AllFit(b)
    ensures AllFit(a + b)
    ensures Run(valid, Run(valid, s, a), b) == Run(valid, s, a + b)
  {
    ApplyAllAppend(s.regs, a, b);
    LogAppend(s.log, a, b);
    var t, u := Run(valid, Run(valid, s, a), b), Run(valid, s, a + b);
    assert t.regs == u.regs;
    assert t.log == u.log;
    assert t.delayUs == u.delayUs;
  }

  lemma LogAppend(log: seq<seq<byte>>, a: seq<RegOp>, b: seq<RegOp>)
    ensures log + WireAll(a) + WireAll(b) == log + WireAll(a + b)
  {
    WireAllAppend(a, b);
    ConcatAssoc(log, WireAll(a), WireAll(b));
  }

  lemma ConcatAssoc<T>(x: seq<T>, y: seq<T>, z: seq<T>)
    ensures x + y + z == x + (y + z)
  {
  }

  /** Issuing no operation changes nothing, and waiting commutes with issuing operations. */
  lemma RunNothing(valid: bool, s: Snapshot, ops: seq<RegOp>, us: nat)
    requires |s.regs| == REGISTER_COUNT && AllFit(ops)
    ensures Run(valid, s, []) == s
    ensures Run(valid, Wait(s, us), ops) == Wait(Run(valid, s, ops), us)
  {
    assert s.log + [] == s.log;
  }

  /** Issuing a single operation: its effect and its transaction, then one delay. */
  lemma RunOne(valid: bool, s: Snapshot, op: RegOp)
    requires |s.regs| == REGISTER_COUNT && (valid ==> Fits(op))
    ensures valid ==> AllFit([op])
    ensures Run(valid, s, [op]) ==
      Snapshot(if valid then Apply(s.regs, op) else s.regs, if valid then s.log + [Wire(op)] else s.log,
               s.delayUs + TRANSACTION_US)
  {
    if valid {
      ApplyAllSingle(s.regs, op);
    }
    assert WireAll([op]) == [Wire(op)];
  }

  /**
   * The snapshot after the RESET instruction: with a valid selector the
   * registers return to the chip's reset values and the one-byte instruction
   * goes on the bus; either way the driver then waits the transaction delay
   * and the oscillator start-up time.
   */
  function ResetRun(valid: bool, s: Snapshot, resetImage: seq<byte>): (t: Snapshot)
    requires |s.regs| == REGISTER_COUNT && |resetImage| == REGISTER_COUNT
    ensures |t.regs| == REGISTER_COUNT
    ensures t.delayUs == s.delayUs + 66
    ensures valid ==> t.regs == resetImage && t.log == s.log + [[RESET_INS]]
    ensures !valid ==> t.regs == s.regs && t.log == s.log
  {
    OscStartupForBoard();
    Snapshot(if valid then resetImage else s.regs,
             if valid then s.log + [RESET_WIRE] else s.log,
             s.delayUs + TRANSACTION_US + OscStartupUs(OSC1_FREQ))
  }

  /** The MCP2515: its register file, the values a RESET restores, and what the driver did to it. */
  class Chip {
    /** Registers 0x00..0x7F. */
    const regs: array<byte>
    /** The register values after a RESET instruction (the chip's documented defaults). */
    const resetImage: seq<byte>
    /** Every chip-select transaction so far, as the bytes clocked out and (for reads) back in. */
    ghost var log: seq<seq<byte>>
    /** Total time spent in the microsecond delay. */
    ghost var delayUs: nat

    ghost predicate Valid()
      reads this
    {
      regs.Length == REGISTER_COUNT && |resetImage| == REGISTER_COUNT
    }

    ghost function Now(): (s: Snapshot)
      reads this, regs
      requires Valid()
      ensures |s.regs| == REGISTER_COUNT
    {
      Snapshot(regs[..], log, delayUs)
    }

    /** A chip powered up with `image` in its registers (the reset values), before any transaction. */
    constructor (image: seq<byte>)
      requires |image| == REGISTER_COUNT
      ensures Valid() && fresh(regs)
      ensures resetImage == image && Now() == Snapshot(image, [], 0)
    {
      regs := new byte[REGISTER_COUNT](k requires 0 <= k < REGISTER_COUNT => image[k]);
      resetImage := image;
      log := [];
      delayUs := 0;
      new;
      assert regs[..] == image;
    }

    // -------------------------------------------------------------------------
    // Register primitives

    /** WRITE: `data` goes to consecutive registers from `addr`; with an invalid selector nothing reaches the chip. */
    method RegisterWrite(h: Handle, addr: byte, data: seq<byte>)
      requires Valid() && (SpiSelectorValid(h.spi) ==> addr as nat + |data| <= REGISTER_COUNT)
      modifies this, regs
      ensures Valid()
      ensures Now() == Run(SpiSelectorValid(h.spi), old(Now()), [Write(addr, data)])
    {
      RunOne(SpiSelectorValid(h.spi), Now(), Write(addr, data));
      if h.spi == CAN_SPI1 || h.spi == CAN_SPI2 {
        log := log + [[WRITE_INS, addr] + data];
        Store(addr, data);
      }
      delayUs := delayUs + TRANSACTION_US;
    }

    /** The chip side of a WRITE: each byte received goes to the next register, from `addr` on. */
    method Store(addr: byte, data: seq<byte>)
      requires Valid() && addr as nat + |data| <= REGISTER_COUNT
      modifies regs
      ensures regs[..] == Written(old(regs[..]), addr as nat, data)
    {
      ghost var r := regs[..];
      var k := 0;
      while k < |data|
        invariant 0 <= k <= |data|
        invariant forall j | 0 <= j < REGISTER_COUNT ::
          regs[j] == if addr as nat <= j < addr as nat + k then data[j - addr as nat] else r[j]
      {
        regs[addr as nat + k] := data[k];
        k := k + 1;
      }
      assert regs[..] == Written(r, addr as nat, data);
    }

    /**
     * READ: `size` consecutive registers from `addr` are copied into `dst`
     * from index `off`. With an invalid selector `dst` is left as it was.
     */
    method RegisterRead(h: Handle, addr: byte, dst: array<byte>, off: nat, size: nat)
      requires Valid() && dst != regs
      requires SpiSelectorValid(h.spi) ==> addr as nat + size <= REGISTER_COUNT && off + size <= dst.Length
      modifies this, dst
      ensures Valid() && regs[..] == old(regs[..])
      ensures SpiSelectorValid(h.spi) ==>
        && dst[..] == Written(old(dst[..]), off, regs[addr..addr as nat + size])
        && log == old(log) + [ReadWire(addr, regs[addr..addr as nat + size])]
      ensures !SpiSelectorValid(h.spi) ==> dst[..] == old(dst[..]) && log == old(log)
      ensures delayUs == old(delayUs) + TRANSACTION_US
    {
      if h.spi == CAN_SPI1 || h.spi == CAN_SPI2 {
        Fetch(addr, dst, off, size);
        log := log + [[READ_INS, addr] + regs[addr..addr as nat + size]];
      }
      delayUs := delayUs + TRANSACTION_US;
    }

    /** The chip side of a READ: the registers from `addr` on are clocked into `dst` from `off`. */
    method Fetch(addr: byte, dst: array<byte>, off: nat, size: nat)
      requires Valid() && dst != regs
      requires addr as nat + size <= REGISTER_COUNT && off + size <= dst.Length
      modifies dst
      ensures dst[..] == Written(old(dst[..]), off, regs[addr..addr as nat + size])
    {
      ghost var d := dst[..];
      ghost var src := regs[addr..addr as nat + size];
      WrittenNothing(d, off);
      assert src[..0] == [];
      var k := 0;
      while k < size
        invariant 0 <= k <= size
        invariant dst[..] == Written(d, off, src[..k])
      {
        WrittenExtend(d, off, src, k);
        assert regs[addr as nat + k] == src[k];
        dst[off + k] := regs[addr as nat + k];
        k := k + 1;
      }
      assert src[..size] == src;
    }

    /** BIT MODIFY: the chip updates the bits of `mask` in register `addr` to those of `data`. */
    method RegisterBit(h: Handle, addr: byte, mask: byte, data: byte)
      requires Valid() && (SpiSelectorValid(h.spi) ==> addr as nat < REGISTER_COUNT)
      modifies this, regs
      ensures Valid()
      ensures Now() == Run(SpiSelectorValid(h.spi), old(Now()), [BitModify(addr, mask, data)])
    {
      RunOne(SpiSelectorValid(h.spi), Now(), BitModify(addr, mask, data));
      if h.spi == CAN_SPI1 || h.spi == CAN_SPI2 {
        log := log + [[BIT_MODIFY_INS, addr, mask, data]];
        regs[addr] := BitModified(regs[addr], EffectiveMask(addr, mask), data);
      }
      delayUs := delayUs + TRANSACTION_US;
    }

    // -------------------------------------------------------------------------
    // Configuration

    /** RESET, then the transaction delay and the oscillator start-up time (16 us at 8 MHz). */
    method Reset(h: Handle)
      requires Valid()
      modifies this, regs
      ensures Valid()
      ensures Now() == ResetRun(SpiSelectorValid(h.spi), old(Now()), resetImage)
    {
      var ost: nat := OscStartupUs(OSC1_FREQ);
      if h.spi == CAN_SPI1 || h.spi == CAN_SPI2 {
        log := log + [[RESET_INS]];
        forall k | 0 <= k < REGISTER_COUNT {
          regs[k] := resetImage[k];
        }
        assert regs[..] == resetImage;
      }
      delayUs := delayUs + TRANSACTION_US;
      delayUs := delayUs + ost;
    }

    /** Requests operation mode `mode` by writing CANCTRL; an unknown mode writes nothing. */
    method SetOpMode(h: Handle, mode: byte)
      requires Valid()
      modifies this, regs
      ensures Valid()
      ensures Now() == Run(SpiSelectorValid(h.spi), old(Now()), OpModePlan(mode, h.oneshot))
    {
      match OpModeControl(mode, h.oneshot)
      case Some(canctrl) =>
        RegisterWrite(h, CANCTRL, [canctrl]);
      case None =>
        RunNothing(SpiSelectorValid(h.spi), Now(), [], 0);
    }

    /** Writes the CNF3, CNF2, CNF1 entry for `baud`; an unsupported speed writes nothing. */
    method SetBaudRate(h: Handle, baud: word)
      requires Valid()
      modifies this, regs
      ensures Valid()
      ensures Now() == Run(SpiSelectorValid(h.spi), old(Now()), BaudPlan(baud, h.wakeupfilter, h.samplepoint))
    {
      match BaudRegisters(baud, h.wakeupfilter, h.samplepoint)
      case Some(cnf) =>
        RegisterWrite(h, CNF3, cnf);
      case None =>
        RunNothing(SpiSelectorValid(h.spi), Now(), [], 0);
    }

    /**
     * One mask or filter block: when bit `i` of `select` is set, identifier
     * `values[i]` is packed into the four registers at `bases[i]`, with EXIDE
     * added when bit `i` of `exide` is set.
     */
    method SetIdGroup(h: Handle, bases: seq<byte>, values: seq<word>, exide: byte, select: byte, i: nat)
      requires Valid() && IdGroups(bases, values, exide) && i < |bases|
      modifies this, regs
      ensures Valid()
      ensures Run(SpiSelectorValid(h.spi), Now(), GroupPlan(bases, GroupsOf(values, exide), select, i + 1))
           == Run(SpiSelectorValid(h.spi), old(Now()), GroupPlan(bases, GroupsOf(values, exide), select, i))
    {
      ghost var s0 := Now();
      if select & SelBit(i) == SelBit(i) {
        var group := PackExtended(values[i]);
        if exide & SelBit(i) == SelBit(i) {
          group := group[1 := group[1] | SIDL_IDE];
        }
        assert group == GroupsOf(values, exide)[i];
        RegisterWrite(h, bases[i], group);
      }
      GroupStep(SpiSelectorValid(h.spi), bases, GroupsOf(values, exide), select, i, s0, Now());
    }

    /** Blocks `i` to the last of a mask or filter bank, in increasing order. */
    method SetIdGroupsFrom(h: Handle, bases: seq<byte>, values: seq<word>, exide: byte, select: byte, i: nat)
      requires Valid() && IdGroups(bases, values, exide) && i <= |bases|
      modifies this, regs
      ensures Valid()
      ensures Now() == Run(SpiSelectorValid(h.spi), old(Now()), GroupPlan(bases, GroupsOf(values, exide), select, i))
      decreases |bases| - i
    {
      if i == |bases| {
        RunNothing(SpiSelectorValid(h.spi), Now(), [], 0);
      } else {
        SetIdGroup(h, bases, values, exide, select, i);
        SetIdGroupsFrom(h, bases, values, exide, select, i + 1);
      }
    }

    /** Writes mask 0 and then mask 1, each only if selected. */
    method SetRxMask(h: Handle, m: RxMaskConfig)
      requires Valid() && m.WellFormed()
      modifies this, regs
      ensures Valid()
      ensures Now() == Run(SpiSelectorValid(h.spi), old(Now()), MaskPlan(m))
    {
      MaskGroupsLayout();
      assert IdGroups(MASK_SIDH, m.values, 0);
      SetIdGroupsFrom(h, MASK_SIDH, m.values, 0, m.select, 0);
    }

    /** Writes filters 0 to 5 in order, each only if selected, EXIDE from its extended-only bit. */
    method SetRxFilter(h: Handle, f: RxFilterConfig)
      requires Valid() && f.WellFormed()
      modifies this, regs
      ensures Valid()
      ensures Now() == Run(SpiSelectorValid(h.spi), old(Now()), FilterPlan(f))
    {
      FilterGroupsLayout();
      assert IdGroups(FILTER_SIDH, f.values, f.extendedIdEnable);
      SetIdGroupsFrom(h, FILTER_SIDH, f.values, f.extendedIdEnable, f.select, 0);
    }

    /**
     * Initialisation: with a valid selector, RESET, then the bit timing, the
     * RX buffer control registers and the operation mode of the handle; with
     * an invalid one nothing at all, not even a delay.
     */
    method Init(h: Handle)
      requires Valid()
      modifies this, regs
      ensures Valid()
      ensures !SpiSelectorValid(h.spi) ==> Now() == old(Now())
      ensures SpiSelectorValid(h.spi) ==> Now() == Run(true, ResetRun(true, old(Now()), resetImage), InitPlan(h))
    {
      if h.spi == CAN_SPI1 || h.spi == CAN_SPI2 {
        Reset(h);
        ghost var s0 := Now();
        SetBaudRate(h, h.baudrate);
        ghost var s1 := Now();
        var spiWrite: byte := 0;
        if h.rxbufferopmode & RXB0_TURN_MASKS_FILTERS_OFF == RXB0_TURN_MASKS_FILTERS_OFF {
          spiWrite := spiWrite | RXM_RECEIVE_ANY_MESSAGE;
        }
        if h.rxbuffer0rollover & RXB0_ROLLOVER_ENABLED == RXB0_ROLLOVER_ENABLED {
          spiWrite := spiWrite | BUKT_ROLLOVER;
        }
        assert spiWrite == Rxb0Control(h);
        if spiWrite != 0 {
          RegisterWrite(h, RXB0CTRL, [spiWrite]);
        } else {
          RunNothing(true, Now(), [], 0);
        }
        ghost var s2 := Now();
        if h.rxbufferopmode & RXB1_TURN_MASKS_FILTERS_OFF == RXB1_TURN_MASKS_FILTERS_OFF {
          spiWrite := RXM_RECEIVE_ANY_MESSAGE;
          RegisterWrite(h, RXB1CTRL, [spiWrite]);
        } else {
          RunNothing(true, Now(), [], 0);
        }
        ghost var s3 := Now();
        SetOpMode(h, h.opmode);
        InitRuns(h, s0, s1, s2, s3, Now());
      }
    }

    // -------------------------------------------------------------------------
    // Transmission

    /**
     * One TX buffer of a send, if selected: the identifier group and DLC at
     * SIDH, the data bytes at D0 unless the frame is remote, TXREQ into CTRL,
     * then the wait for the frame to go out on the bus.
     */
    method SendBuffer(h: Handle, tx: TxConfig, i: nat)
      requires Valid() && SendableConfig(tx) && Timed(tx, h.baudrate) && i < 3
      modifies this, regs
      ensures Valid()
      ensures Now() == SendStep(SpiSelectorValid(h.spi), old(Now()), tx, i, h.baudrate)
    {
      ghost var s0 := Now();
      if tx.select & TX_SELECT[i] == TX_SELECT[i] {
        var f := tx.frames[i];
        var wait := FrameWaitUs(f.frameType, f.dataLength as nat, h.baudrate as nat);
        LoadBuffer(h, i, f, wait);
        SelectedStep(SpiSelectorValid(h.spi), s0, Now(), tx, i, h.baudrate);
      } else {
        SkippedStep(SpiSelectorValid(h.spi), s0, tx, i, h.baudrate);
      }
    }

    /** Loads `f` into TX buffer `i`, requests its transmission and waits `wait` microseconds. */
    method LoadBuffer(h: Handle, i: nat, f: TxFrame, wait: nat)
      requires Valid() && i < 3 && Loadable(f)
      modifies this, regs
      ensures Valid()
      ensures Now() == Wait(Run(SpiSelectorValid(h.spi), old(Now()), BufferPlan(i, f)), wait)
    {
      TxAddresses(i);
      var header, data := TxHeader(f), TxData(f);
      LoadWrites(h, TX_CTRL[i], TX_SIDH[i], TX_D0[i], header, data, IsRemoteTx(f.frameType));
      delayUs := delayUs + wait;
    }

    /**
     * The writes of a load: the identifier group and DLC at SIDH, the data at
     * D0 unless the frame is remote, then TXREQ into CTRL.
     */
    method LoadWrites(h: Handle, ctrl: byte, sidh: byte, d0: byte, header: seq<byte>, data: seq<byte>, remote: bool)
      requires Valid() && |header| == 5
      requires ctrl as nat < REGISTER_COUNT && sidh as nat + 5 <= REGISTER_COUNT && d0 as nat + |data| <= REGISTER_COUNT
      modifies this, regs
      ensures Valid()
      ensures Now() == Run(SpiSelectorValid(h.spi), old(Now()), LoadPlan(ctrl, sidh, d0, header, data, remote))
    {
      ghost var v := SpiSelectorValid(h.spi);
      ghost var a, b, c := [Write(sidh, header)], if remote then [] else [Write(d0, data)], [Write(ctrl, [TXREQ])];
      assert a + b + c == LoadPlan(ctrl, sidh, d0, header, data, remote);
      assert AllFit(a) && AllFit(b) && AllFit(c);
      ghost var s0 := Now();
      RegisterWrite(h, sidh, header);
      if !remote {
        RegisterWrite(h, d0, data);
        RunAppend(v, s0, a, b);
      } else {
        assert a + b == a;
      }
      assert Now() == Run(v, s0, a + b);
      RegisterWrite(h, ctrl, [TXREQ]);
      RunAppend(v, s0, a + b, c);
    }

    /**
     * Sends from the selected TX buffers in the order TXB0, TXB1, TXB2: the
     * registers end as SentRegisters describes, and the total delay is one
     * transaction delay per write plus the frame wait of each selected buffer.
     */
    method SendCanFrame(h: Handle, tx: TxConfig)
      requires Valid() && SendableConfig(tx) && Timed(tx, h.baudrate)
      modifies this, regs
      ensures Valid()
      ensures Now() == Wait(Run(SpiSelectorValid(h.spi), old(Now()), SendPlan(tx)), SendWaitUs(tx, h.baudrate))
      ensures SpiSelectorValid(h.spi) ==> regs[..] == SentRegisters(old(regs[..]), tx)
    {
      ghost var s0 := Now();
      SendBuffer(h, tx, 0);
      ghost var s1 := Now();
      SendBuffer(h, tx, 1);
      ghost var s2 := Now();
      SendBuffer(h, tx, 2);
      SendRuns(SpiSelectorValid(h.spi), s0, s1, s2, Now(), tx, h.baudrate);
      SendPlanEffect(s0.regs, tx);
    }

    /** Clears TXREQ of each selected TX buffer, in the order TXB0, TXB1, TXB2. */
    method TxCanAbort(h: Handle, txBuffers: byte)
      requires Valid()
      modifies this, regs
      ensures Valid()
      ensures Now() == Run(SpiSelectorValid(h.spi), old(Now()), AbortPlan(txBuffers))
    {
      ghost var v := SpiSelectorValid(h.spi);
      ghost var s0 := Now();
      if txBuffers & TXB0 == TXB0 {
        RegisterBit(h, TXB0CTRL, TXREQ, 0);
      } else {
        RunNothing(v, Now(), [], 0);
      }
      ghost var s1 := Now();
      if txBuffers & TXB1 == TXB1 {
        RegisterBit(h, TXB1CTRL, TXREQ, 0);
      } else {
        RunNothing(v, Now(), [], 0);
      }
      ghost var s2 := Now();
      if txBuffers & TXB2 == TXB2 {
        RegisterBit(h, TXB2CTRL, TXREQ, 0);
      } else {
        RunNothing(v, Now(), [], 0);
      }
      ThreeRuns(v, s0, s1, s2, AbortStep(txBuffers & TXB0 == TXB0, TXB0CTRL),
                AbortStep(txBuffers & TXB1 == TXB1, TXB1CTRL), AbortStep(txBuffers & TXB2 == TXB2, TXB2CTRL));
    }

    /** Sets ABAT in CANCTRL to abort every pending transmission, then clears it again. */
    method TxCanAbortAll(h: Handle)
      requires Valid()
      modifies this, regs
      ensures Valid()
      ensures Now() == Run(SpiSelectorValid(h.spi), old(Now()), ABORT_ALL_PLAN)
    {
      RegisterBit(h, CANCTRL, ABAT, ABAT);
      ghost var s1 := Now();
      RegisterBit(h, CANCTRL, ABAT, 0);
      RunAppend(SpiSelectorValid(h.spi), old(Now()), [ABORT_ALL_PLAN[0]], [ABORT_ALL_PLAN[1]]);
    }

    /** Writes the interrupt enable byte to CANINTE. */
    method EnableInt(h: Handle, interrupts: byte)
      requires Valid()
      modifies this, regs
      ensures Valid()
      ensures Now() == Run(SpiSelectorValid(h.spi), old(Now()), EnableIntPlan(interrupts))
    {
      RegisterWrite(h, CANINTE, [interrupts]);
    }

    /** Clears the selected interrupt flags in CANINTF. */
    method ClearIntStatus(h: Handle, interrupts: byte)
      requires Valid()
      modifies this, regs
      ensures Valid()
      ensures Now() == Run(SpiSelectorValid(h.spi), old(Now()), ClearFlagsPlan(CANINTF, interrupts))
    {
      RegisterBit(h, CANINTF, interrupts, 0);
    }

    /** Clears the selected error flags in EFLG. */
    method ClearErrStatus(h: Handle, errors: byte)
      requires Valid()
      modifies this, regs
      ensures Valid()
      ensures Now() == Run(SpiSelectorValid(h.spi), old(Now()), ClearFlagsPlan(EFLG, errors))
    {
      RegisterBit(h, EFLG, errors, 0);
    }

    // -------------------------------------------------------------------------
    // Status reads

    /**
     * The transmit state of one TX buffer: TXB0, TXB1 or TXB2 has its control
     * register read and decoded. Above TXB2 the state is pending and nothing is
     * read; 0 and 3 pass the range test but name no buffer, so nothing is read
     * and the uninitialised local is decoded.
     */
    method TxCanStatus(h: Handle, txBuffer: byte) returns (state: byte)
      requires Valid()
      modifies this
      ensures Valid() && regs[..] == old(regs[..])
      ensures state <= TX_SUCCESS
      ensures txBuffer > TXB2 ==> state == TX_PENDING
      ensures !StatusRead(txBuffer) ==> log == old(log) && delayUs == old(delayUs)
      ensures StatusRead(txBuffer) ==> delayUs == old(delayUs) + TRANSACTION_US
      ensures StatusRead(txBuffer) && SpiSelectorValid(h.spi) ==>
        && state == DecodeTxStatus(regs[StatusCtrl(txBuffer)])
        && log == old(log) + [ReadWire(StatusCtrl(txBuffer), [regs[StatusCtrl(txBuffer)]])]
      ensures StatusRead(txBuffer) && !SpiSelectorValid(h.spi) ==> log == old(log)
    {
      var spiRead := Uninitialised(1);
      SingleRegister(regs[..], TXB0CTRL);
      SingleRegister(regs[..], TXB1CTRL);
      SingleRegister(regs[..], TXB2CTRL);
      state := TX_PENDING;
      if txBuffer <= TXB2 {
        if txBuffer == TXB0 {
          RegisterRead(h, TXB0CTRL, spiRead, 0, 1);
        } else if txBuffer == TXB1 {
          RegisterRead(h, TXB1CTRL, spiRead, 0, 1);
        } else if txBuffer == TXB2 {
          RegisterRead(h, TXB2CTRL, spiRead, 0, 1);
        }
        SingleByte(spiRead[..]);
        state := DecodeTxStatus(spiRead[0]);
      }
    }

    /** The interrupt flags: one read of CANINTF. */
    method IntStatus(h: Handle) returns (flags: byte)
      requires Valid()
      modifies this
      ensures Valid() && regs[..] == old(regs[..])
      ensures delayUs == old(delayUs) + TRANSACTION_US
      ensures SpiSelectorValid(h.spi) ==> flags == regs[CANINTF] && log == old(log) + [ReadWire(CANINTF, [flags])]
      ensures !SpiSelectorValid(h.spi) ==> log == old(log)
    {
      var spiRead := Uninitialised(1);
      SingleRegister(regs[..], CANINTF);
      RegisterRead(h, CANINTF, spiRead, 0, 1);
      flags := spiRead[0];
      SingleByte(spiRead[..]);
    }

    /** The error flags: one read of EFLG. */
    method ErrStatus(h: Handle) returns (errors: byte)
      requires Valid()
      modifies this
      ensures Valid() && regs[..] == old(regs[..])
      ensures delayUs == old(delayUs) + TRANSACTION_US
      ensures SpiSelectorValid(h.spi) ==> errors == regs[EFLG] && log == old(log) + [ReadWire(EFLG, [errors])]
      ensures !SpiSelectorValid(h.spi) ==> log == old(log)
    {
      var spiRead := Uninitialised(1);
      SingleRegister(regs[..], EFLG);
      RegisterRead(h, EFLG, spiRead, 0, 1);
      errors := spiRead[0];
      SingleByte(spiRead[..]);
    }

    // -------------------------------------------------------------------------
    // Reception

    /** The six registers CTRL, SIDH, SIDL, EID8, EID0 and DLC of RX buffer `b`, in one READ. */
    method ReadRxHeader(h: Handle, b: nat) returns (hdr: seq<byte>)
      requires Valid() && b < 2
      modifies this
      ensures Valid() && regs[..] == old(regs[..]) && |hdr| == 6
      ensures delayUs == old(delayUs) + TRANSACTION_US
      ensures SpiSelectorValid(h.spi) ==> hdr == RxHeader(regs[..], b) && log == old(log) + [ReadWire(RX_CTRL[b], hdr)]
      ensures !SpiSelectorValid(h.spi) ==> log == old(log)
    {
      BufferGroupLayout();
      var spiRead := Uninitialised(6);
      RegisterRead(h, RX_CTRL[b], spiRead, 0, 6);
      hdr := spiRead[..];
    }

    /**
     * The data of a data frame in RX buffer `b`, dataLength bytes into the
     * descriptor's row `b`: RXB0 reads from RXB1D0 after a rollover and from
     * RXB0D0 otherwise; RXB1 reads from RXB1D0 for an extended frame and from
     * RXB1D1 for a standard one.
     */
    method ReadRxData(h: Handle, rx: RxDescriptor, b: nat, hdr: seq<byte>, ghost r: seq<byte>)
      requires Valid() && rx.Valid() && rx.data != regs && b < 2 && |hdr| == 6 && regs[..] == r
      requires SpiSelectorValid(h.spi) ==> hdr[5] & DLC_MASK <= 8
      modifies this, rx.data
      ensures Valid() && regs[..] == r
      ensures delayUs == old(delayUs) + TRANSACTION_US
      ensures SpiSelectorValid(h.spi) ==>
        var a, d := RxDataAddr(b, hdr) as nat, (hdr[5] & DLC_MASK) as nat;
        && a + d <= REGISTER_COUNT
        && rx.data[..] == Written(old(rx.data[..]), 8 * b, r[a..a + d])
        && log == old(log) + [ReadWire(a as byte, r[a..a + d])]
      ensures !SpiSelectorValid(h.spi) ==> rx.data[..] == old(rx.data[..]) && log == old(log)
    {
      BufferGroupLayout();
      var d := (hdr[5] & DLC_MASK) as nat;
      var addr: byte;
      if b == 0 {
        addr := if RolledOver(hdr[0]) then RXB1D0 else RXB0D0;
      } else {
        addr := if IsExtendedRx(hdr) then RXB1D0 else RXB1D1;
      }
      assert addr == RxDataAddr(b, hdr);
      RegisterRead(h, addr, rx.data, 8 * b, d);
    }

    /**
     * Reads RX buffer `b` into slot `b` of the descriptor: the header fields
     * always, the rollover status for a data frame in RXB0, the data bytes for
     * a data frame. The other slot is not touched. With an invalid selector the
     * header is an uninitialised local, so the decoded fields are unconstrained,
     * but no data byte is stored and nothing goes on the bus.
     */
    method ReadRxBuffer(h: Handle, rx: RxDescriptor, b: nat)
      requires Valid() && rx.Valid() && rx.data != regs && b < 2
      requires SpiSelectorValid(h.spi) ==> Readable(regs[..], b)
      modifies this, rx, rx.data
      ensures Valid() && rx.Valid() && regs[..] == old(regs[..]) && rx.rxBuffers == old(rx.rxBuffers)
      ensures rx.Slot(1 - b) == old(rx.Slot(1 - b))
      ensures b == 1 ==> rx.rolloverStatus == old(rx.rolloverStatus)
      ensures SpiSelectorValid(h.spi) ==>
        && rx.Slot(b) == ReceiveSlot(regs[..], b, old(rx.Slot(b)))
        && rx.rolloverStatus == RolloverAfter(regs[..], b, old(rx.rolloverStatus))
        && log == old(log) + RxWire(regs[..], b)
        && delayUs == old(delayUs) + TRANSACTION_US * |RxWire(regs[..], b)|
      ensures !SpiSelectorValid(h.spi) ==>
        && rx.data[..] == old(rx.data[..]) && log == old(log)
        && old(delayUs) + TRANSACTION_US <= delayUs <= old(delayUs) + 2 * TRANSACTION_US
    {
      ghost var r := regs[..];
      var hdr := ReadRxHeader(h, b);
      StoreRxFrame(h, rx, b, hdr, r);
    }

    /**
     * Read_CAN_Frame: RXB0 if selected in the descriptor, then RXB1 if
     * selected, each read into its own slot. The register file is not changed.
     */
    method ReadCanFrame(h: Handle, rx: RxDescriptor)
      requires Valid() && rx.Valid() && rx.data != regs
      requires SpiSelectorValid(h.spi) ==> ReadableSelected(regs[..], rx.rxBuffers)
      modifies this, rx, rx.data
      ensures Valid() && rx.Valid() && regs[..] == old(regs[..]) && rx.rxBuffers == old(rx.rxBuffers)
      ensures SpiSelectorValid(h.spi) ==>
        && rx.Slot(0) == SlotAfterRead(regs[..], rx.rxBuffers, 0, old(rx.Slot(0)))
        && rx.Slot(1) == SlotAfterRead(regs[..], rx.rxBuffers, 1, old(rx.Slot(1)))
        && rx.rolloverStatus == RolloverAfterRead(regs[..], rx.rxBuffers, old(rx.rolloverStatus))
        && log == old(log) + FrameReadWire(regs[..], rx.rxBuffers)
        && delayUs == old(delayUs) + TRANSACTION_US * |FrameReadWire(regs[..], rx.rxBuffers)|
      ensures !SpiSelectorValid(h.spi) ==>
        && rx.data[..] == old(rx.data[..]) && log == old(log)
        && old(delayUs) + TRANSACTION_US * SelectedCount(rx.rxBuffers) <= delayUs
        && delayUs <= old(delayUs) + 2 * TRANSACTION_US * SelectedCount(rx.rxBuffers)
    {
      ghost var r, log0, us0 := regs[..], log, delayUs;
      ReadIfSelected(h, rx, 0, r, rx.rxBuffers);
      ghost var log1, us1 := log, delayUs;
      ReadIfSelected(h, rx, 1, r, rx.rxBuffers);
      if SpiSelectorValid(h.spi) {
        FrameReadSteps(r, rx.rxBuffers, log0, log1, log, us0, us1, delayUs);
      }
    }

    /** One of the two steps of Read_CAN_Frame: RX buffer `b` is read if the descriptor selects it. */
    method ReadIfSelected(h: Handle, rx: RxDescriptor, b: nat, ghost r: seq<byte>, ghost buffers: byte)
      requires Valid() && rx.Valid() && rx.data != regs && b < 2 && regs[..] == r && rx.rxBuffers == buffers
      requires SpiSelectorValid(h.spi) ==> ReadableSelected(r, buffers)
      modifies this, rx, rx.data
      ensures Valid() && rx.Valid() && regs[..] == r && rx.rxBuffers == buffers
      ensures rx.Slot(1 - b) == old(rx.Slot(1 - b))
      ensures b == 1 ==> rx.rolloverStatus == old(rx.rolloverStatus)
      ensures SpiSelectorValid(h.spi) ==>
        && rx.Slot(b) == SlotAfterRead(r, buffers, b, old(rx.Slot(b)))
        && (b == 0 ==> rx.rolloverStatus == RolloverAfterRead(r, buffers, old(rx.rolloverStatus)))
        && log == old(log) + BufferReadWire(r, buffers, b)
        && delayUs == old(delayUs) + TRANSACTION_US * |BufferReadWire(r, buffers, b)|
      ensures !SpiSelectorValid(h.spi) ==> rx.data[..] == old(rx.data[..]) && log == old(log)
      ensures !SpiSelectorValid(h.spi) && RxSelected(buffers, b) ==>
        old(delayUs) + TRANSACTION_US <= delayUs <= old(delayUs) + 2 * TRANSACTION_US
      ensures !SpiSelectorValid(h.spi) && !RxSelected(buffers, b) ==> delayUs == old(delayUs)
    {
      ghost var slot, rollover, log0, us0 := rx.Slot(b), rx.rolloverStatus, log, delayUs;
      if rx.rxBuffers & RX_SELECT[b] == RX_SELECT[b] {
        ReadRxBuffer(h, rx, b);
      }
      if SpiSelectorValid(h.spi) {
        ReadStep(r, buffers, b, slot, rx.Slot(b), rollover, rx.rolloverStatus, log0, log, us0, delayUs);
      }
    }

    /**
     * The part of reading RX buffer `b` after its header is in `hdr`: the
     * fields decoded into slot `b`, then the data of a data frame read into
     * row `b`. `r` is the register file, which reading does not change.
     */
    method StoreRxFrame(h: Handle, rx: RxDescriptor, b: nat, hdr: seq<byte>, ghost r: seq<byte>)
      requires Valid() && rx.Valid() && rx.data != regs && b < 2 && |hdr| == 6 && regs[..] == r
      requires SpiSelectorValid(h.spi) ==> Readable(r, b) && hdr == RxHeader(r, b)
      modifies this, rx, rx.data
      ensures Valid() && rx.Valid() && regs[..] == r && rx.rxBuffers == old(rx.rxBuffers)
      ensures rx.Slot(1 - b) == old(rx.Slot(1 - b))
      ensures b == 1 ==> rx.rolloverStatus == old(rx.rolloverStatus)
      ensures SpiSelectorValid(h.spi) ==>
        && rx.Slot(b) == ReceiveSlot(r, b, old(rx.Slot(b)))
        && rx.rolloverStatus == RolloverAfter(r, b, old(rx.rolloverStatus))
        && log == old(log) + RxDataWire(r, b)
        && delayUs == old(delayUs) + TRANSACTION_US * |RxDataWire(r, b)|
      ensures !SpiSelectorValid(h.spi) ==>
        && rx.data[..] == old(rx.data[..]) && log == old(log)
        && old(delayUs) <= delayUs <= old(delayUs) + TRANSACTION_US
    {
      ghost var prev := rx.Slot(b);
      rx.Record(b, hdr);
      StoreRxData(h, rx, b, hdr, r);
      if SpiSelectorValid(h.spi) {
        SlotStep(r, b, hdr, prev, rx.Slot(b));
      }
    }

    /**
     * The data READ of RX buffer `b` after its header `hdr`: for a data frame
     * the data bytes go into row `b` of the descriptor; a remote frame reads
     * nothing. The other row is not touched.
     */
    method StoreRxData(h: Handle, rx: RxDescriptor, b: nat, hdr: seq<byte>, ghost r: seq<byte>)
      requires Valid() && rx.Valid() && rx.data != regs && b < 2 && |hdr| == 6 && regs[..] == r
      requires SpiSelectorValid(h.spi) ==> Readable(r, b) && hdr == RxHeader(r, b)
      modifies this, rx.data
      ensures Valid() && regs[..] == r
      ensures rx.data[8 * (1 - b)..8 * (1 - b) + 8] == old(rx.data[8 * (1 - b)..8 * (1 - b) + 8])
      ensures SpiSelectorValid(h.spi) ==>
        && rx.data[8 * b..8 * b + 8] == ReceivedData(r, b, old(rx.data[8 * b..8 * b + 8]))
        && log == old(log) + RxDataWire(r, b)
        && delayUs == old(delayUs) + TRANSACTION_US * |RxDataWire(r, b)|
      ensures !SpiSelectorValid(h.spi) ==>
        && rx.data[..] == old(rx.data[..]) && log == old(log)
        && old(delayUs) <= delayUs <= old(delayUs) + TRANSACTION_US
    {
      ghost var row, log0 := rx.data[..], log;
      if !IsRemoteRx(hdr) {
        ReadRxData(h, rx, b, hdr, r);
      }
      if SpiSelectorValid(h.spi) {
        DataStep(r, b, hdr, row, rx.data[..], log0, log);
      }
    }
  }

  /** Reading RX buffer `b` when selected, and nothing otherwise, gives SlotAfterRead, RolloverAfterRead and BufferReadWire. */
  lemma ReadStep(r: seq<byte>, buffers: byte, b: nat, slot: RxSlot, slot': RxSlot, rollover: byte, rollover': byte,
                 log0: seq<seq<byte>>, log1: seq<seq<byte>>, us0: nat, us1: nat)
    requires |r| == REGISTER_COUNT && b < 2 && ReadableSelected(r, buffers) && slot.WellFormed()
    requires RxSelected(buffers, b) ==>
      && slot' == ReceiveSlot(r, b, slot)
      && rollover' == RolloverAfter(r, b, rollover)
      && log1 == log0 + RxWire(r, b)
      && us1 == us0 + TRANSACTION_US * |RxWire(r, b)|
    requires !RxSelected(buffers, b) ==> slot' == slot && rollover' == rollover && log1 == log0 && us1 == us0
    ensures slot' == SlotAfterRead(r, buffers, b, slot)
    ensures b == 0 ==> rollover' == RolloverAfterRead(r, buffers, rollover)
    ensures log1 == log0 + BufferReadWire(r, buffers, b)
    ensures us1 == us0 + TRANSACTION_US * |BufferReadWire(r, buffers, b)|
  {
    if !RxSelected(buffers, b) {
      assert log0 + [] == log0;
    }
  }

  /** The logs and delays of the two buffer reads of Read_CAN_Frame add up to those of the frame read. */
  lemma FrameReadSteps(r: seq<byte>, buffers: byte, log0: seq<seq<byte>>, log1: seq<seq<byte>>, log2: seq<seq<byte>>, us0: nat, us1: nat, us2: nat)
    requires |r| == REGISTER_COUNT && ReadableSelected(r, buffers)
    requires log1 == log0 + BufferReadWire(r, buffers, 0) && us1 == us0 + TRANSACTION_US * |BufferReadWire(r, buffers, 0)|
    requires log2 == log1 + BufferReadWire(r, buffers, 1) && us2 == us1 + TRANSACTION_US * |BufferReadWire(r, buffers, 1)|
    ensures log2 == log0 + FrameReadWire(r, buffers)
    ensures us2 == us0 + TRANSACTION_US * |FrameReadWire(r, buffers)|
  {
    ConcatAssoc(log0, BufferReadWire(r, buffers, 0), BufferReadWire(r, buffers, 1));
  }

  /** Identifier groups packed from `values` fit the four-register blocks at `bases`. */
  predicate IdGroups(bases: seq<byte>, values: seq<word>, exide: byte) {
    |values| <= 8 && GroupShape(bases, GroupsOf(values, exide))
  }

  /** Writing group `i` when it is selected, and nothing otherwise, is the first step of GroupPlan from `i`. */
  lemma GroupStep(valid: bool, bases: seq<byte>, groups: seq<seq<byte>>, select: byte, i: nat, s0: Snapshot, s1: Snapshot)
    requires GroupShape(bases, groups) && i < |bases| && |s0.regs| == REGISTER_COUNT
    requires Selected(select, i) ==> s1 == Run(valid, s0, [Write(bases[i], groups[i])])
    requires !Selected(select, i) ==> s1 == s0
    ensures Run(valid, s1, GroupPlan(bases, groups, select, i + 1)) == Run(valid, s0, GroupPlan(bases, groups, select, i))
  {
    if Selected(select, i) {
      RunAppend(valid, s0, [Write(bases[i], groups[i])], GroupPlan(bases, groups, select, i + 1));
    }
  }

  /** Init's snapshots after the reset, the bit timing, the two RX control writes and the mode write chain into one run of InitPlan. */
  lemma InitRuns(h: Handle, s0: Snapshot, s1: Snapshot, s2: Snapshot, s3: Snapshot, s4: Snapshot)
    requires |s0.regs| == REGISTER_COUNT
    requires s1 == Run(true, s0, BaudPlan(h.baudrate, h.wakeupfilter, h.samplepoint))
    requires s2 == Run(true, s1, if Rxb0Control(h) != 0 then [Write(RXB0CTRL, [Rxb0Control(h)])] else [])
    requires s3 == Run(true, s2, if h.rxbufferopmode & RXB1_TURN_MASKS_FILTERS_OFF == RXB1_TURN_MASKS_FILTERS_OFF
                                 then [Write(RXB1CTRL, [RXM_RECEIVE_ANY_MESSAGE])] else [])
    requires s4 == Run(true, s3, OpModePlan(h.opmode, h.oneshot))
    ensures s4 == Run(true, s0, InitPlan(h))
  {
    var b := BaudPlan(h.baudrate, h.wakeupfilter, h.samplepoint);
    var x0 := if Rxb0Control(h) != 0 then [Write(RXB0CTRL, [Rxb0Control(h)])] else [];
    var x1 := if h.rxbufferopmode & RXB1_TURN_MASKS_FILTERS_OFF == RXB1_TURN_MASKS_FILTERS_OFF
              then [Write(RXB1CTRL, [RXM_RECEIVE_ANY_MESSAGE])] else [];
    var o := OpModePlan(h.opmode, h.oneshot);
    assert RxControlPlan(h) == x0 + x1;
    FourRuns(true, s0, s1, s2, s3, b, x0, x1, o);
  }

  /** Four runs in a row are one run of the first plan, the middle two concatenated, and the last. */
  lemma FourRuns(valid: bool, s0: Snapshot, s1: Snapshot, s2: Snapshot, s3: Snapshot,
                 a: seq<RegOp>, b: seq<RegOp>, c: seq<RegOp>, d: seq<RegOp>)
    requires |s0.regs| == REGISTER_COUNT && AllFit(a) && AllFit(b) && AllFit(c) && AllFit(d)
    requires s1 == Run(valid, s0, a) && s2 == Run(valid, s1, b) && s3 == Run(valid, s2, c)
    ensures AllFit(a + (b + c) + d) && Run(valid, s3, d) == Run(valid, s0, a + (b + c) + d)
  {
    RunAppend(valid, s0, a, b);
    RunAppend(valid, s0, a + b, c);
    RunAppend(valid, s0, a + b + c, d);
    assert a + b + c == a + (b + c);
  }

  /** Three runs in a row are one run of the concatenated plans. */
  lemma ThreeRuns(valid: bool, s0: Snapshot, s1: Snapshot, s2: Snapshot, a: seq<RegOp>, b: seq<RegOp>, c: seq<RegOp>)
    requires |s0.regs| == REGISTER_COUNT && AllFit(a) && AllFit(b) && AllFit(c)
    requires s1 == Run(valid, s0, a) && s2 == Run(valid, s1, b)
    ensures AllFit(a + b + c) && Run(valid, s2, c) == Run(valid, s0, a + b + c)
  {
    RunAppend(valid, s0, a, b);
    RunAppend(valid, s0, a + b, c);
  }

  /** One buffer step of a send: the buffer's load if selected, then its frame wait. */
  function SendStep(valid: bool, s: Snapshot, tx: TxConfig, i: nat, baud: word): (t: Snapshot)
    requires |s.regs| == REGISTER_COUNT && SendableConfig(tx) && Timed(tx, baud) && i < 3
    ensures |t.regs| == REGISTER_COUNT
  {
    Wait(Run(valid, s, SelectedLoad(tx, i)), BufferWaitUs(tx, i, baud))
  }

  lemma SelectedStep(valid: bool, s0: Snapshot, s1: Snapshot, tx: TxConfig, i: nat, baud: word)
    requires |s0.regs| == REGISTER_COUNT && SendableConfig(tx) && Timed(tx, baud) && i < 3
    requires tx.select & TX_SELECT[i] == TX_SELECT[i]
    requires Loadable(tx.frames[i]) && baud != 0
    requires s1 == Wait(Run(valid, s0, BufferPlan(i, tx.frames[i])),
                        FrameWaitUs(tx.frames[i].frameType, tx.frames[i].dataLength as nat, baud as nat))
    ensures s1 == SendStep(valid, s0, tx, i, baud)
  {
  }

  lemma SkippedStep(valid: bool, s0: Snapshot, tx: TxConfig, i: nat, baud: word)
    requires |s0.regs| == REGISTER_COUNT && SendableConfig(tx) && Timed(tx, baud) && i < 3
    requires tx.select & TX_SELECT[i] != TX_SELECT[i]
    ensures s0 == SendStep(valid, s0, tx, i, baud)
  {
    RunNothing(valid, s0, [], 0);
  }

  /** The three buffer steps of a send are one run of SendPlan followed by the total wait. */
  lemma SendRuns(valid: bool, s0: Snapshot, s1: Snapshot, s2: Snapshot, s3: Snapshot, tx: TxConfig, baud: word)
    requires |s0.regs| == REGISTER_COUNT && SendableConfig(tx) && Timed(tx, baud)
    requires s1 == SendStep(valid, s0, tx, 0, baud)
    requires s2 == SendStep(valid, s1, tx, 1, baud)
    requires s3 == SendStep(valid, s2, tx, 2, baud)
    ensures s3 == Wait(Run(valid, s0, SendPlan(tx)), SendWaitUs(tx, baud))
  {
    var p0, p1, p2 := SelectedLoad(tx, 0), SelectedLoad(tx, 1), SelectedLoad(tx, 2);
    var w0, w1, w2 := BufferWaitUs(tx, 0, baud), BufferWaitUs(tx, 1, baud), BufferWaitUs(tx, 2, baud);
    var r1 := Run(valid, s0, p0);
    RunNothing(valid, r1, p1, w0);
    RunAppend(valid, s0, p0, p1);
    var r2 := Run(valid, s0, p0 + p1);
    RunNothing(valid, Wait(r2, w0), p2, w1);
    RunNothing(valid, r2, p2, w0);
    RunAppend(valid, s0, p0 + p1, p2);
  }

  /** The slot after storing the header fields and the data read is ReceiveSlot. */
  lemma SlotStep(r: seq<byte>, b: nat, hdr: seq<byte>, prev: RxSlot, s: RxSlot)
    requires |r| == REGISTER_COUNT && b < 2 && Readable(r, b) && hdr == RxHeader(r, b) && prev.WellFormed()
    requires s.frameType == RxFrameType(hdr) && s.dataLength == hdr[5] & DLC_MASK
    requires s.accFilter == RxAccFilter(b, hdr[0]) && s.id == RxId(hdr)
    requires s.data == ReceivedData(r, b, prev.data)
    ensures s == ReceiveSlot(r, b, prev)
  {
  }

  /** The data read of RX buffer `b`, if any, gives ReceivedData in row `b`, keeps the other row and logs RxDataWire. */
  lemma DataStep(r: seq<byte>, b: nat, hdr: seq<byte>, row: seq<byte>, row': seq<byte>, log1: seq<seq<byte>>, log2: seq<seq<byte>>)
    requires |r| == REGISTER_COUNT && b < 2 && Readable(r, b) && hdr == RxHeader(r, b) && |row| == 16 && |row'| == 16
    requires IsRemoteRx(hdr) ==> row' == row && log2 == log1
    requires !IsRemoteRx(hdr) ==>
      var a, d := RxDataAddr(b, hdr) as nat, (hdr[5] & DLC_MASK) as nat;
      && a + d <= REGISTER_COUNT
      && row' == Written(row, 8 * b, r[a..a + d])
      && log2 == log1 + [ReadWire(a as byte, r[a..a + d])]
    ensures row'[8 * b..8 * b + 8] == ReceivedData(r, b, row[8 * b..8 * b + 8])
    ensures row'[8 * (1 - b)..8 * (1 - b) + 8] == row[8 * (1 - b)..8 * (1 - b) + 8]
    ensures log2 == log1 + RxDataWire(r, b)
  {
    if !IsRemoteRx(hdr) {
      var a, d := RxDataAddr(b, hdr) as nat, (hdr[5] & DLC_MASK) as nat;
      RowRead(row, b, r[a..a + d], row');
    }
  }

  /** A read of `w` into row `b` of the descriptor's data: row `b` starts with `w` and keeps the rest, the other row is kept. */
  lemma RowRead(row: seq<byte>, b: nat, w: seq<byte>, row': seq<byte>)
    requires |row| == 16 && b < 2 && |w| <= 8 && row' == Written(row, 8 * b, w)
    ensures row'[8 * b..8 * b + 8] == w + row[8 * b..8 * b + 8][|w|..]
    ensures row'[8 * (1 - b)..8 * (1 - b) + 8] == row[8 * (1 - b)..8 * (1 - b) + 8]
  {
    WrittenSliceDisjoint(row, 8 * b, w, 8 * (1 - b), 8 * (1 - b) + 8);
  }

  /** A one-register slice is that register. */
  lemma SingleRegister(r: seq<byte>, addr: byte)
    requires addr as nat < |r|
    ensures r[addr..addr as nat + 1] == [r[addr]]
  {
  }

  /** A one-byte buffer read into is its only byte. */
  lemma SingleByte(x: seq<byte>)
    requires |x| == 1
    ensures x == [x[0]]
  {
  }

  /** TX_CAN_Status reads a control register only for TXB0, TXB1 and TXB2. */
  predicate StatusRead(txBuffer: byte) {
    txBuffer == TXB0 || txBuffer == TXB1 || txBuffer == TXB2
  }

  /** The control register read for a TX buffer number. */
  function StatusCtrl(txBuffer: byte): (ctrl: byte)
    requires StatusRead(txBuffer)
    ensures ctrl in TX_CTRL
  {
    if txBuffer == TXB0 then TXB0CTRL else if txBuffer == TXB1 then TXB1CTRL else TXB2CTRL
  }

  /** A local buffer of `n` bytes: its contents are whatever was there before, so nothing is known of them. */
  method Uninitialised(n: nat) returns (a: array<byte>)
    ensures fresh(a) && a.Length == n
  {
    a := new byte[n];
  }

  /**
   * The receive descriptor the caller passes in: the RX buffers to read and,
   * per buffer, the frame type, data length, acceptance filter, identifier and
   * eight data bytes last read, plus the rollover status of RXB0.
   */
  class RxDescriptor {
    /** RXB0 and/or RXB1: the buffers to read. */
    var rxBuffers: byte
    var frameType: seq<byte>
    var dataLength: seq<byte>
    var accFilter: seq<byte>
    var id: seq<word>
    var rolloverStatus: byte
    /** The two data rows: RXB0's bytes at 0..7, RXB1's at 8..15. */
    const data: array<byte>

    ghost predicate Valid()
      reads this
    {
      |frameType| == 2 && |dataLength| == 2 && |accFilter| == 2 && |id| == 2 && data.Length == 16
    }

    /** What the descriptor holds for RX buffer `b`. */
    function Slot(b: nat): (s: RxSlot)
      reads this, data
      requires Valid() && b < 2
      ensures s.WellFormed()
    {
      RxSlot(frameType[b], dataLength[b], accFilter[b], data[8 * b..8 * b + 8], id[b])
    }

    constructor (buffers: byte)
      ensures Valid() && rxBuffers == buffers && fresh(data)
    {
      rxBuffers := buffers;
      frameType, dataLength, accFilter, id := [0, 0], [0, 0], [0, 0], [0, 0];
      rolloverStatus := ROLLOVER_NOT_OCCURRED;
      data := new byte[16];
    }

    /**
     * Stores the fields of slot `b` decoded from header `hdr`: the acceptance
     * filter from CTRL, the data length from DLC, the identifier and the frame
     * type; for a data frame in RXB0 also the rollover status.
     */
    method Record(b: nat, hdr: seq<byte>)
      requires Valid() && b < 2 && |hdr| == 6
      modifies this
      ensures Valid() && rxBuffers == old(rxBuffers)
      ensures accFilter == old(accFilter)[b := RxAccFilter(b, hdr[0])]
      ensures dataLength == old(dataLength)[b := hdr[5] & DLC_MASK]
      ensures id == old(id)[b := RxId(hdr)]
      ensures frameType == old(frameType)[b := RxFrameType(hdr)]
      ensures rolloverStatus == RxRollover(b, hdr, old(rolloverStatus))
    {
      accFilter := accFilter[b := RxAccFilter(b, hdr[0])];
      dataLength := dataLength[b := hdr[5] & DLC_MASK];
      id := id[b := RxId(hdr)];
      frameType := frameType[b := RxFrameType(hdr)];
      if b == 0 && !IsRemoteRx(hdr) {
        rolloverStatus := if RolledOver(hdr[0]) then ROLLOVER_OCCURRED else ROLLOVER_NOT_OCCURRED;
      }
    }
  }
}
