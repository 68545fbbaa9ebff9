# MCP2515 CAN controller driver — a verified model

This project models the register-protocol and frame-codec layer of a driver for
the Microchip MCP2515 stand-alone CAN controller (`can.c` with its header
`can.h`). The driver turns calls such as "initialise", "set the acceptance
masks", "send the frames in TXB0..TXB2" or "read RXB0/RXB1" into chip-select
transactions (WRITE, READ, BIT MODIFY, RESET) against the chip's 128-register
file, and waits a fixed or frame-length-dependent time after each.

The model is split along the program's own structure:

- `CanDefs` (`can_defs.dfy`): the header. Instruction opcodes, the register map,
  the bit fields, the handle and descriptor records, the oscillator start-up
  formula `GET_OST` and the worst-case frame lengths behind the `WAIT_SEND_*`
  macros, with lemmas about the register layout and the formulas.
- `CanId` (`can_id.dfy`): packing 29-bit and 11-bit identifiers into the four
  identifier registers (SIDH, SIDL, EID8, EID0) and unpacking them. The
  extended decode is modelled as the driver writes it: SIDL's SID[2:0] is
  shifted by 18 instead of 13. Lemmas say exactly which identifiers still
  survive a round trip.
- `BitTiming` (`bit_timing.dfy`): the CNF3/CNF2/CNF1 table of the baud-rate
  setter and the CANCTRL byte of the mode setter, with the bit time and sample
  point each table entry produces.
- `TxStatus` (`tx_status.dfy`): the decision tree that turns a TXBnCTRL byte
  into one of the six transmit states.
- `RegisterFile` (`register_file.dfy`): the chip side. It covers what a WRITE,
  a BIT MODIFY and a READ do to the registers and which bytes they put on the
  bus. It also shows that the bus bytes identify the operation.
- `ConfigPlan` (`config_plan.dfy`): the operation lists ("plans") issued by the
  configuration routines. These are the mask and filter banks, the bit timing,
  the RX buffer control, the mode, init, abort, abort-all, interrupt enable and
  the flag clears. Each plan comes with its exact effect on the register file.
- `FrameCodec` (`frame_codec.dfy`): the transmit buffer encoding and the plan
  of a send, with the frame waits. It also covers the receive buffer decoding,
  including the RXB0 rollover, and the transactions of a frame read. It ends
  with the round trip from a sent frame to the receive decode, for the header
  and for the data bytes, and with corrected definitions of the two receive
  steps listed under Findings.
- `Driver` (`driver.dfy`): the imperative driver. `Chip` holds the register
  file as an `array`, a ghost log of every transaction and a ghost total
  delay. Every public routine of `can.c` is a method of `Chip`. Each method is
  proved to leave the chip exactly as the plan function says. The receive
  descriptor `RxDescriptor` is a class whose fields `Read_CAN_Frame` updates
  in place.

The transport (SPI) and the microsecond timer are not modelled as code. A
transaction becomes one entry of the ghost log. A delay adds to the ghost
counter. Every transaction is followed by the driver's fixed 50 us delay.
With an invalid SPI selector nothing reaches the chip, but the delay is still
counted, as in the code.

## Model

| member | source | states |
|---|---|---|
| CanDefs.OscStartupUs | can.h:31 | `GET_OST` is the floor of 128 oscillator cycles in microseconds: us * f <= 1.28e8 < (us + 1) * f |
| CanDefs.OscStartupForBoard | can.h:24-31 | for the board's 8 MHz crystal the start-up time is 16 us and fits the byte it is stored in |
| CanDefs.BufferGroupLayout | can.h:210-279 | every TX/RX buffer is CTRL, then SIDH..DLC at +1..+5, then D0 at +6, at bases 0x30, 0x40, 0x50, 0x60, 0x70, inside the register file |
| CanDefs.FrameWaitUs | can.h:38-41 | the wait after a transmit request is the frame's worst-case bit count times the bit time; remote and unknown tags wait at most the 73-bit extended remote length |
| CanDefs.RemoteCountsBelowEmptyDataFrame | can.h:40-41 | the remote-frame constants are 2 and 4 bits below the data formulas at zero data bytes |
| CanDefs.DataBitsStep | can.h:38-39 | one more data byte adds exactly 10 bits to both the standard and the extended count: 8 data bits and 2 stuff bits |
| CanDefs.DataBitsMonotone | can.h:38-39 | the data-frame bit counts never decrease as the data length grows |
| CanDefs.BitTimeExact | can.h:71-75 | for each of the five supported speeds the bit time is a whole number of microseconds (2, 4, 8, 10 or 20) and times the speed gives exactly 1 s |
| CanDefs.FrameWaitMonotone | can.h:38-41 | the wait after a send does not decrease as the data length grows |
| CanDefs.FrameWaitFitsWord | can.h:38-41 | for at most 8 data bytes the wait is at most 157 bit times and fits the 32-bit delay argument |
| CanId.UnpackStandard | can.c:954-955 | the standard decode yields an 11-bit identifier whose bits 10..3 are SIDH and bits 2..0 are SIDL bits 7..5 |
| CanId.ExtendedIdOf | can.h:286-340 | the 29-bit identifier a group holds: SID from SIDH/SIDL, EID[17:16] from SIDL bits 1..0, then EID8 and EID0 |
| CanId.PackExtended | can.c:292-302 | the extended packing holds exactly the low 29 bits of the identifier and leaves SIDL bits 4..2 clear |
| CanId.PackExtendedFlagged | can.c:631-638 | the extended packing with EXIDE: SIDL bit 3 is set exactly when requested, SRR and bit 2 stay clear |
| CanId.FlaggedPackingKeepsId | can.c:631-638 | OR-ing EXIDE into SIDL changes neither the identifier the group holds nor what the decode returns |
| CanId.SameFieldsSameId | can.c:905-912 | groups that agree on the identifier fields give the same identifier under both the layout and the driver's decode |
| CanId.PackStandard | can.c:644-649 | the standard packing holds the low 11 bits of the identifier; SIDL bits 4..0, EID8 and EID0 are zero |
| CanId.UnpackExtendedAsWritten | can.c:905-912 | the driver's extended decode equals the identifier the group holds with bits 18..20 cleared and SID[2:0] OR-ed in at bits 23..25 |
| CanId.PackIgnoresHighBits | can.c:292-302 | identifier bits above 28 (extended) or above 10 (standard) never reach the registers |
| CanId.StandardRoundTrip | can.c:954-955 | every 11-bit identifier packed for sending is decoded back, whatever SRR, IDE and EID[17:16] hold |
| CanId.ExtendedRoundTripIff | can.c:908-912 | the extended pack/decode round trip returns the identifier if and only if its bits 18..20 are zero |
| CanId.ExtendedFrameRoundTrip | can.c:1011-1015 | an extended TX group, EXIDE included, decodes back to any identifier whose bits 18..20 are zero |
| CanId.ExtendedBit18ComesBackAsBit23 | can.c:908-912 | identifier bit 18 comes back from the decode as bit 23 |
| CanId.DemoStandardFilter | main.c:120-133 | the demo mask 0x1FFC0000 covers exactly the eleven SID bits, and the demo filter 0x15540000 holds the same registers as standard identifier 0x555 |
| CanId.DemoExtendedIdNotRecovered | main.c:156 | the demo's extended identifier 0x1D0CAFC8 packs to E8 60 AF C8 and decodes as 0x1D80AFC8 |
| BitTiming.QuantumNs | can.c:187-273 | a time quantum is 2 * (BRP + 1) periods of the 8 MHz crystal, between 250 ns and 16 us |
| BitTiming.BitQuanta | can.c:187-273 | a bit is 4..25 quanta: sync, propagation and the two phase segments |
| BitTiming.SampleQuanta | can.c:187-273 | the sample point lies at least 3 quanta into the bit and before its end |
| BitTiming.BaudRegisters | can.c:187-273 | an entry exists exactly for the five supported speeds; it is 3 bytes, has BTLMODE set and includes the caller's wake-up filter and sample-mode flags |
| BitTiming.BaudRegisterBytes | can.c:203-266 | the five entries are exactly (wk 02, sp 89, 00), (wk 05, sp A3, 00), (wk 05, sp AA, 01), (wk 06, sp AD, 01), (wk 06, sp AD, 03) |
| BitTiming.BaudRegistersTiming | can.c:187-273 | every entry gives the nominal bit time exactly (bit time * speed = 1 s), samples at 5/8 (500k-125k) or 13/20 (100k, 50k), uses a 1 TQ jump width and keeps the flags where the chip reads them |
| BitTiming.OpModeControl | can.c:133-175 | a CANCTRL byte exists exactly for modes 0..4, and its bits outside REQOP are the one-shot byte's |
| BitTiming.OpModeRequestsMode | can.c:133-175 | the REQOP field of the written byte is the requested mode and the rest is the one-shot setting |
| BitTiming.OpModeInjective | can.c:133-175 | two different modes never give the same CANCTRL byte |
| TxStatus.DecodeTxStatus | can.c:1110-1148 | the result is a state code 0..5, and each state holds if and only if its own combination of TXREQ, ABTF, TXERR and MLOA is present |
| TxStatus.StatusIgnoresOtherBits | can.c:1110-1148 | only the four flags matter; the priority bits and the unused bits are ignored |
| TxStatus.ClearedRequestReadsAsSuccess | can.c:1110-1148 | a control byte with TXREQ and ABTF clear reads as sent, whatever TXERR and MLOA say |
| TxStatus.FreshRequestReadsAsPending | can.c:677-678 | the control byte a send writes (TXREQ only) reads as pending |
| RegisterFile.Written | can.c:481-510 | a WRITE of n bytes from addr changes exactly registers addr..addr+n-1, to those bytes in order |
| RegisterFile.WrittenSlice | can.c:481-510 | the written range reads back as the bytes written |
| RegisterFile.WrittenSliceDisjoint | can.c:481-510 | a range that does not overlap the written one reads back unchanged |
| RegisterFile.WrittenUnchanged | can.c:481-510 | writing back what a range already holds changes nothing |
| RegisterFile.BitModified | can.c:573-604 | after a masked update the masked bits come from the data byte and the others are kept |
| RegisterFile.BitModifyEffect | can.c:573-604 | a BIT MODIFY on an allowed register changes only the mask's bits of that register, and on EFLG only the mask's RX1OVR and RX0OVR bits; on any other register the data byte is stored as is |
| RegisterFile.EflgErrorBitsProtected | can.c:1297-1304 | no BIT MODIFY changes EFLG bits 5..0 (TXBO, TXEP, RXEP, TXWAR, RXWAR, EWARN), whatever mask it sends |
| RegisterFile.Apply | can.c:481-604 | an operation leaves every register it does not touch unchanged |
| RegisterFile.ParseTransaction | can.c:481-604 | whatever the chip decodes from the bus bytes is an operation whose bytes are exactly those |
| RegisterFile.ParseWire | can.c:481-604 | decoding the bytes of an operation gives the operation back |
| RegisterFile.WireInjective | can.c:481-604 | two different operations never put the same bytes on the bus |
| RegisterFile.WireAllAppend | can.c:481-604 | the bus bytes of two plans in sequence are those of their concatenation |
| RegisterFile.ApplyAllAppend | can.c:481-604 | issuing two plans in sequence has the effect of their concatenation |
| RegisterFile.ApplyAllOutside | can.c:481-604 | a register that no operation of a plan touches keeps its value |
| ConfigPlan.GroupPlan | can.c:287-461 | every operation is a 4-byte write, every selected group's write is among them, and there are never more writes than groups (the resulting register values are stated by GroupPlanValues) |
| ConfigPlan.GroupPlanValues | can.c:287-461 | after the writes of a bank every register has its reference value: the byte of the selected group covering it, else its old value |
| ConfigPlan.GroupPlanEffect | can.c:287-461 | after a bank's writes each selected group holds its bytes, each unselected group keeps its old bytes and every register outside the groups is unchanged |
| ConfigPlan.MaskPlanEffect | can.c:287-318 | RXM0 and RXM1 hold their values in the identifier layout when selected and keep their old bytes otherwise; nothing else changes |
| ConfigPlan.FilterPlanEffect | can.c:332-461 | RXF0..RXF5 hold their values with EXIDE per the extended-only bit when selected and keep their bytes otherwise; registers outside the filter groups never change |
| ConfigPlan.MaskGroupsLayout | can.h:196-203 | the mask groups are laid out apart and cover exactly RXM0SIDH..RXM1EID0 |
| ConfigPlan.FilterGroupsLayout | can.h:166-193 | the filter groups are laid out apart and cover only RXF0..RXF2 and RXF3..RXF5 |
| ConfigPlan.BaudPlan | can.c:187-273 | a supported speed gives one write of its table entry at CNF3; any other speed gives no write |
| ConfigPlan.BaudPlanEffect | can.c:187-273 | after the bit timing write CNF3..CNF1 hold the table entry for a supported speed and every other register is unchanged |
| ConfigPlan.OpModePlan | can.c:133-175 | a known mode gives one CANCTRL write of the mode byte; an unknown mode gives no write |
| ConfigPlan.OpModePlanEffect | can.c:133-175 | after the mode write CANCTRL holds the requested byte and every other register is unchanged |
| ConfigPlan.Rxb0Control | can.c:49-69 | RXB0CTRL gets RXM = 11 exactly when RXB0 bypasses the filters and BUKT exactly when rollover is enabled, and no other bit |
| ConfigPlan.RxControlPlanEffect | can.c:49-77 | RXB0CTRL is written only with a nonzero value and RXB1CTRL (0x60) only when RXB1 bypasses the filters; nothing else changes |
| ConfigPlan.InitPlanEffect | can.c:32-83 | after init each register has its reset value except the bit timing entry, the RX control values and the requested CANCTRL byte |
| ConfigPlan.AbortPlan | can.c:1166-1188 | each operation of an abort is a bit modify of TXREQ to 0, at most three of them |
| ConfigPlan.AbortPlanEffect | can.c:1166-1188 | aborting clears only TXREQ in the control register of each selected TX buffer and changes nothing else |
| ConfigPlan.AbortAllEffect | can.c:1200-1207 | abort-all sets ABAT first and then leaves CANCTRL with ABAT clear and its other bits as before; nothing else changes |
| ConfigPlan.ClearFlagsEffect | can.c:1246-1320 | clearing CANINTF flags clears exactly the selected bits; clearing EFLG flags clears only the selected RX1OVR and RX0OVR bits and leaves bits 5..0 as they were even when selected; no other register changes |
| ConfigPlan.EnableIntEffect | can.c:1219-1223 | enabling interrupts stores the byte in CANINTE as is and changes nothing else |
| FrameCodec.TxIdGroupLayout | can.c:631-649 | an extended TX frame's group holds the low 29 identifier bits with EXIDE set; a standard one holds the low 11 bits with SIDL bits 4..0, EID8 and EID0 clear |
| FrameCodec.TxDlc | can.c:653-659 | the DLC byte is the data length; remote tags add RTR and data tags add nothing |
| FrameCodec.LoadPlan | can.c:662-678 | a remote frame's load is two writes, a data frame's is three |
| FrameCodec.LoadedBufferFields | can.c:662-678 | after a load CTRL is exactly TXREQ (so TXP is cleared), then the header, then the data bytes written, and the data registers beyond keep their contents |
| FrameCodec.LoadWrites | can.c:662-678 | the three writes at SIDH, D0 and CTRL amount to one write of the buffer's 14 registers |
| FrameCodec.BufferPlanEffect | can.c:625-705 | loading a frame into a TX buffer writes the loaded buffer over that buffer's 14 registers and nothing else |
| FrameCodec.SendPlanEffect | can.c:620-872 | a send is the selected buffers' loads in the order TXB0, TXB1, TXB2 |
| FrameCodec.SentRegistersFields | can.c:620-872 | after a send each selected TX buffer holds its loaded frame, each unselected buffer keeps its registers, and every register outside the TX buffers is unchanged |
| FrameCodec.OtherBufferKept | can.c:620-872 | loading one TX buffer leaves the other two untouched |
| FrameCodec.SendWaitBounded | can.c:682-871 | at a supported speed each buffer's wait fits the 32-bit delay argument and the whole send waits at most three 8-byte extended frames |
| FrameCodec.RxFrameType | can.c:902-987 | the frame type tag has bit 0 set exactly for an extended frame and bit 1 exactly for a remote one |
| FrameCodec.RxAccFilter | can.c:898-1001 | the reported filter is 0 or 1 and its bit 0 is RXB0CTRL's FILHIT0 for RXB0; it is 0..7 and its bits 2..0 are RXB1CTRL's FILHIT for RXB1; no other control bit reaches it |
| FrameCodec.RolledOverIff | can.c:931-946 | the `>= 6` test on RXB0CTRL bits 2..0 holds exactly when BUKT and BUKT1 are both set |
| FrameCodec.RxWire | can.c:891-1062 | reading a remote frame is one READ, and reading a data frame is two |
| FrameCodec.ReceiveDataFrame | can.c:891-1062 | a data frame's slot has the decoded type, length, filter and identifier, its first dataLength bytes from the data source registers and the other bytes kept |
| FrameCodec.ReceiveRemoteFrame | can.c:891-1062 | a remote frame reads no data: the data bytes and the rollover status keep their values and the type is a remote tag |
| FrameCodec.FrameReadOnlyReads | can.c:886-1063 | every transaction of a frame read is a READ, which the chip never decodes as a register-changing operation |
| FrameCodec.FrameReadFirst | can.c:886-1063 | a frame read starts with RXB0's header read when RXB0 is selected, else with RXB1's; it reads nothing exactly when neither is selected |
| FrameCodec.TxRxRoundTrip | can.c:620-1063 | a frame sent with any tag 0..3 and at most 8 bytes is decoded with the same type, length and identifier, for every standard identifier and every extended one with bits 18..20 zero |
| FrameCodec.RoundTripDlc | can.c:653-659 | the DLC byte gives the data length back, and its RTR bit is set exactly for the remote tags |
| FrameCodec.LoadedBufferHoldsFrame | can.c:662-678 | a loaded TX buffer holds its frame: identifier group and DLC at +1..+5, the data bytes written from D0 |
| FrameCodec.HeldDataFrame | can.c:891-1059 | a data frame held in an RX buffer reads back as a data frame of the same identifier kind, with its data length in the DLC register and no overrun |
| FrameCodec.RxDataRoundTrip | can.c:944-1034 | a data frame held in RXB0 (no rollover) or, extended, in RXB1 is read back with exactly its data bytes, and the slot's bytes beyond the data length are kept |
| FrameCodec.RxbOneStandardShifted | can.c:1052-1059 | as written, a standard data frame in RXB1 is read from RXB1D1: the slot gets the frame's bytes from the second on, then the register after its data |
| FrameCodec.RxbOneStandardDemo | can.c:1059 | the standard data frame 0x555 with bytes 1..8 in RXB1 is read back as 2..8 followed by register 0x7E |
| FrameCodec.ReceivedDataIntended | can.c:1052-1059 | reading from D0 of the buffer agrees with the driver for RXB0 and for extended RXB1 frames |
| FrameCodec.RxDataRoundTripIntended | can.c:944-1059 | reading from D0 of the buffer returns every held data frame's bytes, standard RXB1 frames included |
| FrameCodec.TxRxIdRoundTripIntended | can.c:905-955 | decoding by the register layout returns every 29-bit extended identifier and every 11-bit standard one |
| FrameCodec.ExtendedHeaderShape | can.c:631-673 | an extended frame's receive header carries the flagged extended group and the DLC byte unchanged |
| Driver.Run | can.c:481-604 | issuing a plan with a valid selector applies each operation and logs its bytes; with an invalid one nothing changes on the chip, whatever the addresses; either way 50 us per operation |
| Driver.RunAppend | can.c:481-604 | issuing two plans one after the other is issuing their concatenation |
| Driver.ResetRun | can.c:92-125 | a reset restores the chip's reset values and logs the one-byte RESET instruction, then waits 50 us plus the oscillator start-up time |
| Driver.Chip.constructor | can.h:166-279 | a chip starts with its reset values, an empty log and no delay |
| Driver.Chip.RegisterWrite | can.c:481-510 | a WRITE has exactly the effect, the bus bytes and the delay of one Write operation; with an invalid selector any address and length is accepted and only the delay is added |
| Driver.Chip.Store | can.c:481-510 | the received bytes go to consecutive registers from the address on |
| Driver.Chip.RegisterRead | can.c:524-553 | a READ copies the registers from the address into the caller's buffer, logs the bytes clocked back and does not change the registers; with an invalid selector the buffer is untouched |
| Driver.Chip.Fetch | can.c:524-553 | the registers from the address on are copied one by one into the destination from the offset |
| Driver.Chip.RegisterBit | can.c:573-604 | a BIT MODIFY has exactly the effect, the bus bytes and the delay of one BitModify operation; with an invalid selector any address is accepted and only the delay is added |
| Driver.Chip.Reset | can.c:92-125 | reset has exactly the effect of ResetRun |
| Driver.Chip.SetOpMode | can.c:133-175 | the mode setter issues exactly OpModePlan |
| Driver.Chip.SetBaudRate | can.c:187-273 | the baud-rate setter issues exactly BaudPlan |
| Driver.Chip.SetIdGroup | can.c:292-302 | the step for one mask or filter block, if selected, writes exactly that block's group; the rest of the bank plan is unchanged |
| Driver.Chip.SetIdGroupsFrom | can.c:287-461 | blocks i to the end of a bank are written exactly as GroupPlan from i |
| Driver.Chip.SetRxMask | can.c:287-318 | the mask setter issues exactly MaskPlan |
| Driver.Chip.SetRxFilter | can.c:332-461 | the filter setter issues exactly FilterPlan |
| Driver.Chip.Init | can.c:32-83 | with an invalid selector init changes nothing, not even the delay; otherwise it is a reset followed by InitPlan |
| Driver.Chip.SendBuffer | can.c:625-705 | one buffer step of a send: the buffer's load if selected, then its frame wait |
| Driver.Chip.LoadBuffer | can.c:662-704 | a load issues exactly BufferPlan and then waits the given time |
| Driver.Chip.LoadWrites | can.c:662-678 | the writes of a load are exactly LoadPlan |
| Driver.Chip.SendCanFrame | can.c:620-872 | a send issues exactly SendPlan and then the frame waits; with a valid selector the registers end as SentRegisters |
| Driver.Chip.TxCanAbort | can.c:1166-1188 | an abort issues exactly AbortPlan |
| Driver.Chip.TxCanAbortAll | can.c:1200-1207 | abort-all issues exactly the set-ABAT and clear-ABAT bit modifies |
| Driver.Chip.EnableInt | can.c:1219-1223 | enabling interrupts issues exactly the CANINTE write |
| Driver.Chip.ClearIntStatus | can.c:1253-1257 | clearing interrupt flags issues exactly the CANINTF flag-clearing bit modify |
| Driver.Chip.ClearErrStatus | can.c:1316-1320 | clearing error flags issues exactly the EFLG flag-clearing bit modify |
| Driver.Chip.TxCanStatus | can.c:1077-1153 | the result is a state code; above TXB2 it is pending with no read; TXB0..TXB2 cost one 50 us transaction, and with a valid selector read their control register once and return its decoded state; no register changes |
| Driver.Chip.IntStatus | can.c:1235-1244 | with a valid selector the result is CANINTF, read in one READ; either way the delay grows by 50 us and no register changes |
| Driver.Chip.ErrStatus | can.c:1283-1292 | with a valid selector the result is EFLG, read in one READ; either way the delay grows by 50 us and no register changes |
| Driver.Chip.ReadRxHeader | can.c:891-1001 | with a valid selector the six header registers of the RX buffer come back in one READ; either way the delay grows by 50 us and no register changes |
| Driver.Chip.ReadRxData | can.c:931-1059 | a data frame's bytes are read from RxDataAddr, the driver's source register (RXB1D1 for standard RXB1 frames), into the buffer's data row |
| Driver.Chip.ReadRxBuffer | can.c:891-1062 | reading an RX buffer fills its slot as ReceiveSlot says, updates rollover as RolloverAfter says and logs RxWire; the other slot is kept |
| Driver.Chip.ReadCanFrame | can.c:886-1063 | a frame read fills both slots as SlotAfterRead says, updates rollover as RolloverAfterRead says and logs FrameReadWire; the registers never change; with an invalid selector it still waits 50 to 100 us per selected buffer |
| Driver.Chip.ReadIfSelected | can.c:886-1063 | one RX buffer is read exactly when the descriptor selects it; with an invalid selector a selected buffer still costs 50 to 100 us and an unselected one none |
| Driver.Chip.StoreRxFrame | can.c:898-1062 | the header fields and the data of a frame are stored into slot b as ReceiveSlot says |
| Driver.RxDescriptor.Record | can.c:898-1042 | the header fields decoded into slot b, and rollover for an RXB0 data frame |
| Driver.RxDescriptor.Slot | can.c:886-1063 | what the descriptor holds for one RX buffer is a well-formed slot |

## Left out

- The SPI peripheral and the microsecond timer are not modelled as code. A transaction is one entry of a ghost log and a delay is an addition to a ghost counter. The busy-wait loops of `spi.c` and `timer.c` are not part of this model, and neither are the GPIO and peripheral constants.
- The chip's own behaviour is not modelled. This covers arbitration and transmission, error counters and bus-off, acceptance matching and when rollover happens, and mode-change latency. Registers the chip sets are read from the register file as they are.
- The register values after a RESET come from the chip, not the driver. A `Chip` therefore takes them as a parameter (`resetImage`).
- The instruction opcodes the driver defines but never uses are not modelled: READ RX BUFFER, LOAD TX BUFFER, RTS, READ STATUS and RX STATUS.
- `main.c` is left out beyond the two demo lemmas in `CanId` that use its mask, filter and identifier values.
- The worst-case bit counts follow the code's integer division, which rounds the stuff-bit count down. The CAN 2.0 worst case rounds up.
- The remote-frame constants 50 and 73 are kept as written. Lemma `RemoteCountsBelowEmptyDataFrame` states that they are 2 and 4 bits shorter than the data formulas at zero data bytes.
- `FrameCodec.ReceivedHeader` assumes the receiving chip marks a standard remote frame with SRR. The data sheet says so; the driver never computes it.
- Undefined behaviour in C is excluded by `requires`:
  - a selected TX data frame with more than 8 data bytes;
  - an RX data frame whose DLC nibble exceeds 8 when the selector is valid;
  - a zero speed while a TX buffer is selected.
- Driver.Chip.TxCanStatus: for a buffer number of 0 or 3 the driver decodes an uninitialised byte. The contract only says the result is a state code and that nothing is read.
- Driver.Chip.IntStatus, Driver.Chip.ErrStatus, Driver.Chip.TxCanStatus, Driver.Chip.ReadRxHeader: with an invalid selector the driver reads nothing and returns (or decodes) an uninitialised local. The result is left unconstrained; only the unchanged log and registers and the 50 us delay are stated.
- Driver.Chip.ReadRxBuffer: with an invalid selector the header is an uninitialised local. The decoded fields are left unconstrained; only "no data stored, nothing on the bus" is stated.
- Driver.Chip.ReadCanFrame: with an invalid selector the same holds. The data rows and the log are stated unchanged and the delay is bounded by 50 to 100 us per selected buffer; the decoded fields are not stated.
- ConfigPlan.MaskPlanEffect: the chip accepts writes to the mask registers only in configuration mode. The model does not track the chip's operation mode, so the effect is stated as if the chip were in configuration mode.
- ConfigPlan.FilterPlanEffect: the same holds for the filter registers.
- ConfigPlan.BaudPlanEffect: the same holds for CNF1, CNF2 and CNF3.
- Driver.Chip.RegisterRead: outside configuration mode the chip returns zeros for the mask and filter registers. The model returns the stored values.
- RegisterFile.Written: a WRITE stores every bit it sends. The chip's read-only bits, such as FILHIT and BUKT1 in RXBnCTRL and EFLG bits 5..0, are not protected against a WRITE; only the EFLG protection against BIT MODIFY is modelled.
- Driver.Chip.RegisterWrite: with a valid selector the written range must lie inside the 128-register map, and Driver.Chip.RegisterBit needs its address inside it. The chip's address wrap-around is not modelled; every caller in the driver stays inside the map.
- FrameCodec.ReceiveSlot and Driver.Chip.ReadCanFrame model the driver as written: RXB1 standard data comes from RXB1D1 and extended identifiers are decoded with the shift by 18. The corrected definitions are stated beside them (see Findings).
- Arithmetic is modelled on `bv8`/`bv32` where the driver uses `uint8_t`/`uint32_t`. Delays and bit counts are unbounded naturals; lemma `FrameWaitFitsWord` shows they fit the 32-bit delay argument.

## Findings

| source | as written | input that shows it | evidently intended | confidence | as-written member | corrected member |
|---|---|---|---|---|---|---|
| can.c:1059 | a standard data frame in RXB1 is read from RXB1D1, one register past RXB1D0 | standard data frame 0x555 with bytes 1..8 in RXB1: the slot receives 2..8 followed by register 0x7E | read from RXB1D0, as for RXB0 and for extended RXB1 frames | not executed | FrameCodec.RxbOneStandardDemo | FrameCodec.RxDataRoundTripIntended |
| can.c:908-912 | SIDL's SID[2:0] is shifted left by 18 when an extended identifier is decoded (also at can.c:1011-1015) | extended identifier 0x1D0CAFC8 packs to E8 60 AF C8 and decodes as 0x1D80AFC8 | shift by 13, so that the decode inverts the packing at can.c:631-638 | not executed | CanId.DemoExtendedIdNotRecovered | FrameCodec.TxRxIdRoundTripIntended |
