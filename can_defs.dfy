/**
 * The MCP2515 driver header: the chip's instruction opcodes and register map,
 * the bit fields the driver uses, the driver's own selector constants, the
 * configuration/frame descriptors handed to the driver, and the timing
 * formulas (oscillator start-up time and worst-case frame lengths).
 */
module CanDefs {

  type byte = bv8
  /** `uint32_t` */
  type word = bv32

  datatype Option<T> = None | Some(value: T)

  /** Truncating cast of a 32-bit value to `uint8_t`. */
  function Lo8(x: word): (b: byte)
    ensures b as word == x & 0xFF
  {
    (x & 0xFF) as byte
  }

  // ---------------------------------------------------------------------------
  // Board and chip constants

  /** External crystal on the MCP2515 board, in Hz. */
  const OSC1_FREQ: nat := 8000000

  /** SPI peripheral selectors of the handle. */
  const CAN_SPI1: byte := 0x00
  const CAN_SPI2: byte := 0x01

  predicate SpiSelectorValid(spi: byte) {
    spi == CAN_SPI1 || spi == CAN_SPI2
  }

  /** Instruction opcodes the driver sends. */
  const RESET_INS: byte := 0xC0
  const WRITE_INS: byte := 0x02
  const READ_INS: byte := 0x03
  const BIT_MODIFY_INS: byte := 0x05

  /** Supported bus speeds, in bit/s. */
  const CAN_BAUD_500_KBPS: word := 500000
  const CAN_BAUD_250_KBPS: word := 250000
  const CAN_BAUD_125_KBPS: word := 125000
  const CAN_BAUD_100_KBPS: word := 100000
  const CAN_BAUD_50_KBPS: word := 50000

  predicate SupportedBaud(b: word) {
    b == CAN_BAUD_500_KBPS || b == CAN_BAUD_250_KBPS || b == CAN_BAUD_125_KBPS
    || b == CAN_BAUD_100_KBPS || b == CAN_BAUD_50_KBPS
  }

  /** Operation modes accepted by the mode setter. */
  const NORMAL_OP_MODE: byte := 0x00
  const SLEEP_OP_MODE: byte := 0x01
  const LOOPBACK_OP_MODE: byte := 0x02
  const LISTEN_ONLY_OP_MODE: byte := 0x03
  const CONFIGURATION_OP_MODE: byte := 0x04

  /** RX buffer operating-mode and rollover selectors of the handle. */
  const RXB0_TURN_MASKS_FILTERS_OFF: byte := 0x01
  const RXB1_TURN_MASKS_FILTERS_OFF: byte := 0x02
  const RXB0_ROLLOVER_ENABLED: byte := 0x01

  const ROLLOVER_OCCURRED: byte := 0x01
  const ROLLOVER_NOT_OCCURRED: byte := 0x00

  /** Buffer, mask and filter selector bits. */
  const TXB0: byte := 0x01
  const TXB1: byte := 0x02
  const TXB2: byte := 0x04
  const RXB0: byte := 0x01
  const RXB1: byte := 0x02
  const RXM0: byte := 0x01
  const RXM1: byte := 0x02

  /** Frame type tags (the same numbering is used for TX and RX). */
  const STANDARD_DATA_FRAME: byte := 0x00
  const EXTENDED_DATA_FRAME: byte := 0x01
  const STANDARD_REMOTE_FRAME: byte := 0x02
  const EXTENDED_REMOTE_FRAME: byte := 0x03

  /** Transmit states reported by the status query. */
  const TX_PENDING: byte := 0x00
  const TX_LOST_ARBITRATION: byte := 0x01
  const TX_BUS_ERROR: byte := 0x02
  const TX_BUS_ERROR_AND_LOST_ARBITRATION: byte := 0x03
  const TX_ABORTED: byte := 0x04
  const TX_SUCCESS: byte := 0x05

  // ---------------------------------------------------------------------------
  // Register map (the addresses the driver uses)

  const RXF0SIDH: byte := 0x00
  const RXF1SIDH: byte := 0x04
  const RXF2SIDH: byte := 0x08
  const BFPCTRL: byte := 0x0C
  const TXRTSCTRL: byte := 0x0D
  const CANCTRL: byte := 0x0F
  const RXF3SIDH: byte := 0x10
  const RXF4SIDH: byte := 0x14
  const RXF5SIDH: byte := 0x18
  const RXM0SIDH: byte := 0x20
  const RXM1SIDH: byte := 0x24
  const CNF3: byte := 0x28
  const CNF2: byte := 0x29
  const CNF1: byte := 0x2A
  const CANINTE: byte := 0x2B
  const CANINTF: byte := 0x2C
  const EFLG: byte := 0x2D
  const TXB0CTRL: byte := 0x30
  const TXB0SIDH: byte := 0x31
  const TXB0DLC: byte := 0x35
  const TXB0D0: byte := 0x36
  const TXB1CTRL: byte := 0x40
  const TXB1SIDH: byte := 0x41
  const TXB1DLC: byte := 0x45
  const TXB1D0: byte := 0x46
  const TXB2CTRL: byte := 0x50
  const TXB2SIDH: byte := 0x51
  const TXB2DLC: byte := 0x55
  const TXB2D0: byte := 0x56
  const RXB0CTRL: byte := 0x60
  const RXB0SIDH: byte := 0x61
  const RXB0DLC: byte := 0x65
  const RXB0D0: byte := 0x66
  const RXB1CTRL: byte := 0x70
  const RXB1SIDH: byte := 0x71
  const RXB1DLC: byte := 0x75
  const RXB1D0: byte := 0x76
  const RXB1D1: byte := 0x77

  /** Size of the chip's register file (addresses 0x00..0x7F). */
  const REGISTER_COUNT: nat := 128

  /** Control-register addresses of the three TX buffers and the two RX buffers, in buffer order. */
  const TX_CTRL: seq<byte> := [TXB0CTRL, TXB1CTRL, TXB2CTRL]
  const RX_CTRL: seq<byte> := [RXB0CTRL, RXB1CTRL]

  /** Base (SIDH) addresses of the six filter groups and of the two mask groups. */
  const FILTER_SIDH: seq<byte> := [RXF0SIDH, RXF1SIDH, RXF2SIDH, RXF3SIDH, RXF4SIDH, RXF5SIDH]
  const MASK_SIDH: seq<byte> := [RXM0SIDH, RXM1SIDH]

  // ---------------------------------------------------------------------------
  // Bit fields

  /** SIDL: SID[2:0], SRR (received standard remote), IDE/EXIDE, EID[17:16]. */
  const SIDL_SID: byte := 0xE0
  const SIDL_SRR: byte := 0x10
  const SIDL_IDE: byte := 0x08
  const SIDL_EID: byte := 0x03

  /** DLC register: RTR and the data length code. */
  const DLC_RTR: byte := 0x40
  const DLC_MASK: byte := 0x0F

  /** TXBnCTRL flags. */
  const ABTF: byte := 0x40
  const MLOA: byte := 0x20
  const TXERR: byte := 0x10
  const TXREQ: byte := 0x08
  const TXP: byte := 0x03

  /** RXBnCTRL fields. */
  const RXM_RECEIVE_ANY_MESSAGE: byte := 0x60
  const BUKT_ROLLOVER: byte := 0x04
  const BUKT1: byte := 0x02
  const FILHIT0: byte := 0x01
  const FILHIT: byte := 0x07
  const ROLLOVER_ACCEPTANCE_FILTER_0: byte := 0x06

  /** CANCTRL fields. */
  const REQOP_MASK: byte := 0xE0
  const ABAT: byte := 0x10
  const OSM_ENABLED: byte := 0x08

  /** CNF3 / CNF2 / CNF1 fields. */
  const WAKFIL_ENABLED: byte := 0x40
  const SAM_BUS_SAMPLED_THREE: byte := 0x40
  const BTLMODE: byte := 0x80

  /** EFLG: the two receive-overflow flags, the only ones the host can clear. */
  const RX1OVR: byte := 0x80
  const RX0OVR: byte := 0x40

  // ---------------------------------------------------------------------------
  // Descriptors handed to the driver

  /** The controller handle: transport selector and configuration. */
  datatype Handle = Handle(
    spi: byte,
    opmode: byte,
    oneshot: byte,
    samplepoint: byte,
    wakeupfilter: byte,
    rxbufferopmode: byte,
    rxbuffer0rollover: byte,
    baudrate: word)

  /** Mask selection and the two 29-bit mask values. */
  datatype RxMaskConfig = RxMaskConfig(select: byte, values: seq<word>)
  {
    predicate WellFormed() { |values| == 2 }
  }

  /** Filter selection, per-filter extended-only bits, and the six filter values. */
  datatype RxFilterConfig = RxFilterConfig(select: byte, extendedIdEnable: byte, values: seq<word>)
  {
    predicate WellFormed() { |values| == 6 }
  }

  /** One TX buffer's frame: type tag, DLC, its 8-byte data array and the identifier. */
  datatype TxFrame = TxFrame(frameType: byte, dataLength: byte, data: seq<byte>, id: word)
  {
    predicate WellFormed() { |data| == 8 }
  }

  /** TX buffer selection and one frame per TX buffer. */
  datatype TxConfig = TxConfig(select: byte, frames: seq<TxFrame>)
  {
    predicate WellFormed() { |frames| == 3 && forall i | 0 <= i < 3 :: frames[i].WellFormed() }
  }

  /** One RX buffer's part of the receive descriptor. */
  datatype RxSlot = RxSlot(frameType: byte, dataLength: byte, accFilter: byte, data: seq<byte>, id: word)
  {
    predicate WellFormed() { |data| == 8 }
  }

  // ---------------------------------------------------------------------------
  // Timing formulas

  /** Oscillator start-up time (128 oscillator cycles) in microseconds. */
  function OscStartupUs(oscHz: nat): (us: nat)
    requires oscHz > 0
    ensures us * oscHz <= 128000000 < (us + 1) * oscHz
  {
    128000000 / oscHz
  }

  /** Worst-case length, after bit stuffing, of a standard data frame with `d` data bytes. */
  function StdDataBits(d: nat): nat {
    8 * d + 44 + (33 + 8 * d) / 4
  }

  /** Worst-case length, after bit stuffing, of an extended data frame with `d` data bytes. */
  function ExtDataBits(d: nat): nat {
    8 * d + 64 + (53 + 8 * d) / 4
  }

  const STD_REMOTE_BITS: nat := 50
  const EXT_REMOTE_BITS: nat := 73

  /** Whole microseconds per bit as the wait macros compute it. */
  function BitTimeUs(baud: nat): nat
    requires baud > 0
  {
    1000000 / baud
  }

  /**
   * The wait after a transmit request: the worst-case bit count of the frame
   * type times the bit time. Extended data and standard data use the data
   * length; extended remote uses 73 bits; every other tag (standard remote
   * and unknown tags) falls to the standard-remote branch.
   */
  function FrameWaitUs(frameType: byte, d: nat, baud: nat): (us: nat)
    requires baud > 0
    ensures frameType != STANDARD_DATA_FRAME && frameType != EXTENDED_DATA_FRAME ==> us <= EXT_REMOTE_BITS * BitTimeUs(baud)
  {
    var bits :=
      if frameType == EXTENDED_DATA_FRAME then ExtDataBits(d)
      else if frameType == STANDARD_DATA_FRAME then StdDataBits(d)
      else if frameType == EXTENDED_REMOTE_FRAME then EXT_REMOTE_BITS
      else STD_REMOTE_BITS;
    bits * BitTimeUs(baud)
  }

  // ---------------------------------------------------------------------------
  // Properties of the tables and formulas

  /** The start-up time for the board's 8 MHz crystal is 16 us and fits the byte it is stored in. */
  lemma OscStartupForBoard()
    ensures OscStartupUs(OSC1_FREQ) == 16 && OscStartupUs(OSC1_FREQ) < 256
  {
  }

  /** Every TX/RX buffer group is CTRL, SIDH..DLC at +1..+5, D0..D7 at +6..+13, with bases 0x30, 0x40, 0x50, 0x60, 0x70. */
  lemma BufferGroupLayout()
    ensures TXB0SIDH == TXB0CTRL + 1 && TXB0DLC == TXB0CTRL + 5 && TXB0D0 == TXB0CTRL + 6
    ensures TXB1SIDH == TXB1CTRL + 1 && TXB1DLC == TXB1CTRL + 5 && TXB1D0 == TXB1CTRL + 6
    ensures TXB2SIDH == TXB2CTRL + 1 && TXB2DLC == TXB2CTRL + 5 && TXB2D0 == TXB2CTRL + 6
    ensures RXB0SIDH == RXB0CTRL + 1 && RXB0DLC == RXB0CTRL + 5 && RXB0D0 == RXB0CTRL + 6
    ensures RXB1SIDH == RXB1CTRL + 1 && RXB1DLC == RXB1CTRL + 5 && RXB1D0 == RXB1CTRL + 6
    ensures RXB1D1 == RXB1D0 + 1
    ensures TX_CTRL == [0x30, 0x40, 0x50] && RX_CTRL == [0x60, 0x70]
    ensures RXB1D0 as int + 8 <= REGISTER_COUNT
  {
  }

  /**
   * A remote frame carries a DLC but no data field, so on the wire it is as
   * long as a data frame with no data; the remote constants are 2 and 4 bits
   * below what the data formulas give for d = 0.
   */
  lemma RemoteCountsBelowEmptyDataFrame()
    ensures STD_REMOTE_BITS + 2 == StdDataBits(0)
    ensures EXT_REMOTE_BITS + 4 == ExtDataBits(0)
  {
  }

  /** One more data byte adds 8 data bits and, since 8 / 4 is whole, exactly 2 stuff bits. */
  lemma DataBitsStep(d: nat)
    ensures StdDataBits(d + 1) == StdDataBits(d) + 10
    ensures ExtDataBits(d + 1) == ExtDataBits(d) + 10
  {
    assert (33 + 8 * (d + 1)) / 4 == (33 + 8 * d) / 4 + 2;
    assert (53 + 8 * (d + 1)) / 4 == (53 + 8 * d) / 4 + 2;
  }

  /** The data-frame counts never decrease as the data length grows. */
  lemma {:induction false} DataBitsMonotone(d: nat, e: nat)
    requires d <= e
    ensures StdDataBits(d) <= StdDataBits(e) && ExtDataBits(d) <= ExtDataBits(e)
    decreases e - d
  {
    if d < e {
      DataBitsStep(d);
      DataBitsMonotone(d + 1, e);
    }
  }

  /** For the five supported speeds the bit time is a whole number of microseconds: 2, 4, 8, 10, 20. */
  lemma BitTimeExact(baud: word)
    requires SupportedBaud(baud)
    ensures baud as nat * BitTimeUs(baud as nat) == 1000000
    ensures BitTimeUs(baud as nat) in {2, 4, 8, 10, 20}
  {
  }

  /** The data-frame wait does not decrease as the data length grows. */
  lemma FrameWaitMonotone(frameType: byte, d: nat, e: nat, baud: nat)
    requires baud > 0 && d <= e
    ensures FrameWaitUs(frameType, d, baud) <= FrameWaitUs(frameType, e, baud)
  {
    DataBitsMonotone(d, e);
    var t := BitTimeUs(baud);
    if frameType == EXTENDED_DATA_FRAME {
      assert ExtDataBits(d) * t <= ExtDataBits(e) * t by { MulMono(ExtDataBits(d), ExtDataBits(e), t); }
    } else if frameType == STANDARD_DATA_FRAME {
      assert StdDataBits(d) * t <= StdDataBits(e) * t by { MulMono(StdDataBits(d), StdDataBits(e), t); }
    }
  }

  /** The wait for any frame the driver may send (DLC at most 8) fits the 32-bit argument of the delay routine. */
  lemma FrameWaitFitsWord(frameType: byte, d: nat, baud: nat)
    requires baud > 0 && d <= 8
    ensures FrameWaitUs(frameType, d, baud) <= 157 * BitTimeUs(baud) <= 157 * 1000000 < 0x1_0000_0000
  {
    DataBitsMonotone(d, 8);
    var t := BitTimeUs(baud);
    assert t <= 1000000;
    var bits :=
      if frameType == EXTENDED_DATA_FRAME then ExtDataBits(d)
      else if frameType == STANDARD_DATA_FRAME then StdDataBits(d)
      else if frameType == EXTENDED_REMOTE_FRAME then EXT_REMOTE_BITS
      else STD_REMOTE_BITS;
    assert bits <= 157;
    MulMono(bits, 157, t);
    MulMono(t, 1000000, 157);
  }

  lemma MulMono(a: nat, b: nat, c: nat)
    requires a <= b
    ensures a * c <= b * c
  {
  }
}
