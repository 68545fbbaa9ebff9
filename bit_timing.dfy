/**
 * Bit timing and operation-mode register values: the (CNF3, CNF2, CNF1)
 * triple the driver writes for each supported bus speed, the fields the
 * chip reads back out of those registers, and the CANCTRL byte that requests
 * an operation mode.
 *
 * With the board's 8 MHz crystal one time quantum is 2 * (BRP + 1) oscillator
 * periods of 125 ns, and a bit is SyncSeg (1 TQ) + PropSeg + PS1 + PS2.
 */
module BitTiming {
  import opened CanDefs

  // ---------------------------------------------------------------------------
  // Fields of the bit timing registers

  /**
   * A 3-bit segment field plus one, in TQ: PRSEG is CNF2 bits 2..0, PHSEG1 is
   * CNF2 bits 5..3 (so `cnf2 >> 3`), PHSEG2 is CNF3 bits 2..0.
   */
  function SegmentTq(field: byte): (n: nat)
    ensures 1 <= n <= 8
  {
    ((field & 0x07) as nat) + 1
  }

  /** SJW (CNF1 bits 7..6) plus one: synchronisation jump width in TQ. */
  function SjwTq(cnf1: byte): (n: nat)
    ensures 1 <= n <= 4
  {
    ((cnf1 >> 6) as nat) + 1
  }

  /** Length of one time quantum in ns: 2 * (BRP + 1) periods of the 8 MHz crystal. */
  function QuantumNs(cnf1: byte): (ns: nat)
    ensures 250 <= ns <= 16000
    ensures ns * OSC1_FREQ == 2 * (((cnf1 & 0x3F) as nat) + 1) * 1000000000
  {
    2 * (((cnf1 & 0x3F) as nat) + 1) * 125
  }

  /** Quanta per bit: SyncSeg + PropSeg + PS1 + PS2, for (CNF3, CNF2, CNF1). */
  function BitQuanta(cnf: seq<byte>): (n: nat)
    requires |cnf| == 3
    ensures 4 <= n <= 25
  {
    1 + SegmentTq(cnf[1]) + SegmentTq(cnf[1] >> 3) + SegmentTq(cnf[0])
  }

  /** Quanta before the sample point: SyncSeg + PropSeg + PS1. */
  function SampleQuanta(cnf: seq<byte>): (n: nat)
    requires |cnf| == 3
    ensures 3 <= n < BitQuanta(cnf)
  {
    1 + SegmentTq(cnf[1]) + SegmentTq(cnf[1] >> 3)
  }

  /** Nominal bit time in ns. */
  function BitTimeNs(cnf: seq<byte>): (ns: nat)
    requires |cnf| == 3
    ensures ns >= 4 * 250
  {
    BitQuanta(cnf) * QuantumNs(cnf[2])
  }

  // ---------------------------------------------------------------------------
  // The driver's table

  /**
   * The bytes written to CNF3, CNF2, CNF1 (in that order, one auto-incremented
   * write starting at CNF3) for a bus speed; None for an unsupported speed, in
   * which case nothing is written. The handle's wake-up filter flag is OR-ed
   * into CNF3 and its sample-point flag into CNF2, which always has BTLMODE set.
   */
  function BaudRegisters(baud: word, wakeupFilter: byte, samplePoint: byte): (cnf: Option<seq<byte>>)
    ensures cnf.Some? <==> SupportedBaud(baud)
    ensures cnf.Some? ==> |cnf.value| == 3 && cnf.value[1] & BTLMODE == BTLMODE
    ensures cnf.Some? ==> cnf.value[0] & wakeupFilter == wakeupFilter && cnf.value[1] & samplePoint == samplePoint
  {
    if baud == CAN_BAUD_500_KBPS then
      Some([wakeupFilter | 0x02, BTLMODE | samplePoint | 0x08 | 0x01, 0x00])
    else if baud == CAN_BAUD_250_KBPS then
      Some([wakeupFilter | 0x05, BTLMODE | samplePoint | 0x20 | 0x03, 0x00])
    else if baud == CAN_BAUD_125_KBPS then
      Some([wakeupFilter | 0x05, BTLMODE | samplePoint | 0x28 | 0x02, 0x00 | 0x01])
    else if baud == CAN_BAUD_100_KBPS then
      Some([wakeupFilter | 0x06, BTLMODE | samplePoint | 0x28 | 0x05, 0x00 | 0x01])
    else if baud == CAN_BAUD_50_KBPS then
      Some([wakeupFilter | 0x06, BTLMODE | samplePoint | 0x28 | 0x05, 0x00 | 0x02 | 0x01])
    else
      None
  }

  /** The wake-up filter flag may use only CNF3 bit 6, the sample-point flag only CNF2 bit 6. */
  predicate FlagsInPlace(wakeupFilter: byte, samplePoint: byte) {
    wakeupFilter & !WAKFIL_ENABLED == 0 && samplePoint & !SAM_BUS_SAMPLED_THREE == 0
  }

  /** The table as plain register bytes, for both settings of each flag. */
  lemma BaudRegisterBytes(wakeupFilter: byte, samplePoint: byte)
    requires FlagsInPlace(wakeupFilter, samplePoint)
    ensures BaudRegisters(CAN_BAUD_500_KBPS, wakeupFilter, samplePoint) == Some([wakeupFilter | 0x02, samplePoint | 0x89, 0x00])
    ensures BaudRegisters(CAN_BAUD_250_KBPS, wakeupFilter, samplePoint) == Some([wakeupFilter | 0x05, samplePoint | 0xA3, 0x00])
    ensures BaudRegisters(CAN_BAUD_125_KBPS, wakeupFilter, samplePoint) == Some([wakeupFilter | 0x05, samplePoint | 0xAA, 0x01])
    ensures BaudRegisters(CAN_BAUD_100_KBPS, wakeupFilter, samplePoint) == Some([wakeupFilter | 0x06, samplePoint | 0xAD, 0x01])
    ensures BaudRegisters(CAN_BAUD_50_KBPS, wakeupFilter, samplePoint) == Some([wakeupFilter | 0x06, samplePoint | 0xAD, 0x03])
  {
  }

  /**
   * Every entry of the table gives the nominal bit time of its speed exactly
   * (bit time in ns times bit/s is 10^9), samples at 62.5% for 500, 250 and
   * 125 kbit/s and at 65% for 100 and 50 kbit/s (so always between 60% and
   * 70%), uses a 1 TQ jump width, and keeps the caller's flags where the chip
   * looks for them.
   */
  lemma BaudRegistersTiming(baud: word, wakeupFilter: byte, samplePoint: byte)
    requires SupportedBaud(baud) && FlagsInPlace(wakeupFilter, samplePoint)
    ensures BaudRegisters(baud, wakeupFilter, samplePoint).Some?
    ensures var cnf := BaudRegisters(baud, wakeupFilter, samplePoint).value;
      && BitTimeNs(cnf) * (baud as nat) == 1000000000
      && (if baud as nat >= 125000 then 8 * SampleQuanta(cnf) == 5 * BitQuanta(cnf)
          else 20 * SampleQuanta(cnf) == 13 * BitQuanta(cnf))
      && 6 * BitQuanta(cnf) <= 10 * SampleQuanta(cnf) <= 7 * BitQuanta(cnf)
      && SjwTq(cnf[2]) == 1
      && cnf[0] & WAKFIL_ENABLED == wakeupFilter
      && cnf[1] & SAM_BUS_SAMPLED_THREE == samplePoint
  {
    var cnf := BaudRegisters(baud, wakeupFilter, samplePoint).value;
    BaudRegisterBytes(wakeupFilter, samplePoint);
    if baud == CAN_BAUD_500_KBPS {
      assert SegmentTq(cnf[1]) == 2 && SegmentTq(cnf[1] >> 3) == 2 && SegmentTq(cnf[0]) == 3;
      assert QuantumNs(cnf[2]) == 250;
    } else if baud == CAN_BAUD_250_KBPS {
      assert SegmentTq(cnf[1]) == 4 && SegmentTq(cnf[1] >> 3) == 5 && SegmentTq(cnf[0]) == 6;
      assert QuantumNs(cnf[2]) == 250;
    } else if baud == CAN_BAUD_125_KBPS {
      assert SegmentTq(cnf[1]) == 3 && SegmentTq(cnf[1] >> 3) == 6 && SegmentTq(cnf[0]) == 6;
      assert QuantumNs(cnf[2]) == 500;
    } else if baud == CAN_BAUD_100_KBPS {
      assert SegmentTq(cnf[1]) == 6 && SegmentTq(cnf[1] >> 3) == 6 && SegmentTq(cnf[0]) == 7;
      assert QuantumNs(cnf[2]) == 500;
    } else {
      assert SegmentTq(cnf[1]) == 6 && SegmentTq(cnf[1] >> 3) == 6 && SegmentTq(cnf[0]) == 7;
      assert QuantumNs(cnf[2]) == 1000;
    }
  }

  // ---------------------------------------------------------------------------
  // Operation mode

  /**
   * The CANCTRL byte written to request `mode`: the handle's one-shot byte with
   * the mode's REQOP code OR-ed in; None (no write) for an unknown mode.
   */
  function OpModeControl(mode: byte, oneshot: byte): (c: Option<byte>)
    ensures c.Some? <==> mode <= CONFIGURATION_OP_MODE
    ensures c.Some? ==> c.value & !REQOP_MASK == oneshot & !REQOP_MASK
  {
    if mode == NORMAL_OP_MODE then Some(oneshot | 0x00)
    else if mode == SLEEP_OP_MODE then Some(oneshot | 0x20)
    else if mode == LOOPBACK_OP_MODE then Some(oneshot | 0x40)
    else if mode == LISTEN_ONLY_OP_MODE then Some(oneshot | 0x60)
    else if mode == CONFIGURATION_OP_MODE then Some(oneshot | 0x80)
    else None
  }

  /**
   * When the one-shot byte leaves the REQOP field clear, the REQOP field of the
   * byte written is the requested mode's number: normal 0, sleep 1, loopback 2,
   * listen-only 3, configuration 4. So different modes give different bytes.
   */
  lemma OpModeRequestsMode(mode: byte, oneshot: byte)
    requires mode <= CONFIGURATION_OP_MODE && oneshot & REQOP_MASK == 0
    ensures OpModeControl(mode, oneshot).value >> 5 == mode
    ensures OpModeControl(mode, oneshot).value & !REQOP_MASK == oneshot
  {
  }

  /** Two accepted modes give the same CANCTRL byte only when they are the same mode. */
  lemma OpModeInjective(m1: byte, m2: byte, oneshot: byte)
    requires m1 <= CONFIGURATION_OP_MODE && m2 <= CONFIGURATION_OP_MODE && oneshot & REQOP_MASK == 0
    requires OpModeControl(m1, oneshot) == OpModeControl(m2, oneshot)
    ensures m1 == m2
  {
    OpModeRequestsMode(m1, oneshot);
    OpModeRequestsMode(m2, oneshot);
  }
}
