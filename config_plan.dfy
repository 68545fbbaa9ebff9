/**
 * The register operations each configuration routine of the driver issues
 * (masks, filters, bit timing, operation mode, initialisation, aborts,
 * interrupt and error flags) and what they leave in the register file.
 */
module ConfigPlan {
  import opened CanDefs
  import opened CanId
  import opened BitTiming
  import opened RegisterFile

  /** Bit `i` of a selector byte. */
  function SelBit(i: nat): (b: byte)
    requires i < 8
  {
    (1 as byte) << i
  }

  predicate Selected(select: byte, i: nat)
    requires i < 8
  {
    select & SelBit(i) == SelBit(i)
  }

  // ---------------------------------------------------------------------------
  // Identifier groups (masks and filters)

  /** Group base addresses in increasing order, four registers apart at least, inside the map. */
  predicate GroupsLaidOut(bases: seq<byte>) {
    && (forall k | 0 <= k < |bases| :: bases[k] as nat + 4 <= REGISTER_COUNT)
    && (forall k, l | 0 <= k < l < |bases| :: bases[k] as nat + 4 <= bases[l] as nat)
  }

  /** Address `a` is one of the four registers of the group at `base`. */
  predicate InGroup(base: byte, a: nat) {
    base as nat <= a < base as nat + 4
  }

  /** Address `a` lies in none of the groups `i..`. */
  predicate OutsideGroups(bases: seq<byte>, i: nat, a: nat) {
    forall k | i <= k < |bases| :: !InGroup(bases[k], a)
  }

  predicate FourBytes(groups: seq<seq<byte>>) {
    forall k | 0 <= k < |groups| :: |groups[k]| == 4
  }

  /** Four-byte groups written at laid-out base addresses, at most eight of them. */
  predicate GroupShape(bases: seq<byte>, groups: seq<seq<byte>>) {
    |groups| == |bases| <= 8 && FourBytes(groups) && GroupsLaidOut(bases)
  }

  /** The bytes of each identifier group; group `k` is extended-only when bit `k` of `exide` is set. */
  function GroupsOf(values: seq<word>, exide: byte): (groups: seq<seq<byte>>)
    requires |values| <= 8
    ensures |groups| == |values| && FourBytes(groups)
    ensures forall k | 0 <= k < |values| :: groups[k] == PackExtendedFlagged(values[k], Selected(exide, k))
  {
    seq(|values|, k requires 0 <= k < |values| => PackExtendedFlagged(values[k], Selected(exide, k)))
  }

  /**
   * One four-byte write per selected group, groups in increasing order from
   * `i`; group `k`, written at `bases[k]`, is selected by bit `k` of `select`.
   */
  function GroupPlan(bases: seq<byte>, groups: seq<seq<byte>>, select: byte, i: nat): (ops: seq<RegOp>)
    requires GroupShape(bases, groups) && i <= |bases|
    ensures AllFit(ops) && |ops| <= |bases| - i
    ensures forall j | 0 <= j < |ops| :: ops[j].Write? && |ops[j].bytes| == 4
    ensures forall k | i <= k < |bases| && Selected(select, k) :: Write(bases[k], groups[k]) in ops
    decreases |bases| - i
  {
    if i == |bases| then []
    else
      var rest := GroupPlan(bases, groups, select, i + 1);
      if Selected(select, i) then
        var w := Write(bases[i], groups[i]);
        AllFitAppend([w], rest);
        [w] + rest
      else rest
  }

  /**
   * Reference value of register `a` after the groups `i..` are written, when it
   * held `fallback` before: the byte of the selected group that covers `a`, if
   * any, otherwise the old value.
   */
  function GroupValueAt(bases: seq<byte>, groups: seq<seq<byte>>, select: byte, i: nat, a: nat, fallback: byte): byte
    requires GroupShape(bases, groups) && i <= |bases|
    decreases |bases| - i
  {
    if i == |bases| then fallback
    else if Selected(select, i) && InGroup(bases[i], a) then
      groups[i][a - bases[i] as nat]
    else GroupValueAt(bases, groups, select, i + 1, a, fallback)
  }

  /** A register outside the groups `i..` keeps its value. */
  lemma {:induction false} GroupValueOutside(bases: seq<byte>, groups: seq<seq<byte>>, select: byte, i: nat, a: nat, fallback: byte)
    requires GroupShape(bases, groups) && i <= |bases| && OutsideGroups(bases, i, a)
    ensures GroupValueAt(bases, groups, select, i, a, fallback) == fallback
    decreases |bases| - i
  {
    if i < |bases| {
      GroupValueOutside(bases, groups, select, i + 1, a, fallback);
    }
  }

  /** A register of group `k` lies in none of the groups after it. */
  lemma LaterGroupsMiss(bases: seq<byte>, groups: seq<seq<byte>>, k: nat, a: nat)
    requires GroupShape(bases, groups) && k < |bases| && InGroup(bases[k], a)
    ensures OutsideGroups(bases, k + 1, a)
  {
    forall l | k + 1 <= l < |bases| ensures !InGroup(bases[l], a) {
      assert bases[k] as nat + 4 <= bases[l] as nat;
    }
  }

  /** Byte `j` of group `k` ends up as byte `j` of the group's value if the group is selected, unchanged otherwise. */
  lemma {:induction false} GroupValueInGroup(bases: seq<byte>, groups: seq<seq<byte>>, select: byte, i: nat, k: nat, j: nat, fallback: byte)
    requires GroupShape(bases, groups) && i <= k < |bases| && j < 4
    ensures GroupValueAt(bases, groups, select, i, bases[k] as nat + j, fallback) ==
      if Selected(select, k) then groups[k][j] else fallback
    decreases k - i
  {
    var a := bases[k] as nat + j;
    if i < k {
      assert bases[i] as nat + 4 <= bases[k] as nat;
      GroupValueInGroup(bases, groups, select, i + 1, k, j, fallback);
    } else if !Selected(select, k) {
      LaterGroupsMiss(bases, groups, k, a);
      GroupValueOutside(bases, groups, select, k + 1, a, fallback);
    }
  }

  /** A group plan leaves every register at its reference value. */
  lemma {:induction false} GroupPlanValues(r: seq<byte>, bases: seq<byte>, groups: seq<seq<byte>>, select: byte, i: nat)
    requires |r| == REGISTER_COUNT
    requires GroupShape(bases, groups) && i <= |bases|
    ensures forall a | 0 <= a < REGISTER_COUNT ::
      ApplyAll(r, GroupPlan(bases, groups, select, i))[a] == GroupValueAt(bases, groups, select, i, a, r[a])
    decreases |bases| - i
  {
    if i < |bases| {
      var rest := GroupPlan(bases, groups, select, i + 1);
      var bytes := groups[i];
      var head := if Selected(select, i) then [Write(bases[i], bytes)] else [];
      assert GroupPlan(bases, groups, select, i) == head + rest;
      var r1 := ApplyAll(r, head);
      if Selected(select, i) {
        ApplyAllSingle(r, head[0]);
      }
      GroupPlanValues(r1, bases, groups, select, i + 1);
      ApplyAllAppend(r, head, rest);
      forall a | 0 <= a < REGISTER_COUNT
        ensures ApplyAll(r, head + rest)[a] == GroupValueAt(bases, groups, select, i, a, r[a])
      {
        GroupValueStep(r, r1, bases, groups, select, i, a);
      }
    }
  }

  /** Writing group `i` first, then the groups after it, gives the reference value of register `a`. */
  lemma GroupValueStep(r: seq<byte>, r1: seq<byte>, bases: seq<byte>, groups: seq<seq<byte>>, select: byte, i: nat, a: nat)
    requires |r| == |r1| == REGISTER_COUNT && a < REGISTER_COUNT
    requires GroupShape(bases, groups) && i < |bases|
    requires r1[a] == if Selected(select, i) && InGroup(bases[i], a) then groups[i][a - bases[i] as nat] else r[a]
    ensures GroupValueAt(bases, groups, select, i + 1, a, r1[a]) == GroupValueAt(bases, groups, select, i, a, r[a])
  {
    if Selected(select, i) && InGroup(bases[i], a) {
      LaterGroupsMiss(bases, groups, i, a);
      GroupValueOutside(bases, groups, select, i + 1, a, r1[a]);
    }
  }

  /**
   * Effect of a group plan: every selected group holds its value (with EXIDE
   * as requested), every unselected group and every register outside the
   * groups keeps its previous value.
   */
  lemma GroupPlanEffect(r: seq<byte>, bases: seq<byte>, groups: seq<seq<byte>>, select: byte)
    requires |r| == REGISTER_COUNT
    requires GroupShape(bases, groups)
    ensures var r' := ApplyAll(r, GroupPlan(bases, groups, select, 0));
      && (forall k | 0 <= k < |bases| ::
            r'[bases[k]..bases[k] as nat + 4] ==
              if Selected(select, k) then groups[k] else r[bases[k]..bases[k] as nat + 4])
      && (forall a | 0 <= a < REGISTER_COUNT && OutsideGroups(bases, 0, a) :: r'[a] == r[a])
  {
    var r' := ApplyAll(r, GroupPlan(bases, groups, select, 0));
    GroupPlanValues(r, bases, groups, select, 0);
    forall k | 0 <= k < |bases|
      ensures r'[bases[k]..bases[k] as nat + 4] ==
        if Selected(select, k) then groups[k] else r[bases[k]..bases[k] as nat + 4]
    {
      GroupSlice(r, r', bases, groups, select, k);
    }
    forall a | 0 <= a < REGISTER_COUNT && OutsideGroups(bases, 0, a)
      ensures r'[a] == r[a]
    {
      GroupValueOutside(bases, groups, select, 0, a, r[a]);
    }
  }

  lemma GroupSlice(r: seq<byte>, r': seq<byte>, bases: seq<byte>, groups: seq<seq<byte>>, select: byte, k: nat)
    requires |r| == |r'| == REGISTER_COUNT
    requires GroupShape(bases, groups) && k < |bases|
    requires forall a | 0 <= a < REGISTER_COUNT :: r'[a] == GroupValueAt(bases, groups, select, 0, a, r[a])
    ensures r'[bases[k]..bases[k] as nat + 4] ==
      if Selected(select, k) then groups[k] else r[bases[k]..bases[k] as nat + 4]
  {
    var b := bases[k] as nat;
    assert b + 4 <= REGISTER_COUNT;
    var want := if Selected(select, k) then groups[k] else r[b..b + 4];
    forall j | 0 <= j < 4
      ensures r'[b + j] == want[j]
    {
      GroupValueInGroup(bases, groups, select, 0, k, j, r[b + j]);
    }
    SliceIs(r', b, want);
  }

  /** A slice equals `w` when its registers agree with `w` one by one. */
  lemma SliceIs(x: seq<byte>, lo: nat, w: seq<byte>)
    requires lo + |w| <= |x|
    requires forall j | 0 <= j < |w| :: x[lo + j] == w[j]
    ensures x[lo..lo + |w|] == w
  {
  }

  /** Mask configuration: RXM0 at 0x20 and RXM1 at 0x24, in that order, each only if selected. */
  function MaskPlan(m: RxMaskConfig): (ops: seq<RegOp>)
    requires m.WellFormed()
    ensures AllFit(ops) && |ops| <= 2
  {
    GroupPlan(MASK_SIDH, GroupsOf(m.values, 0), m.select, 0)
  }

  /** Filter configuration: RXF0..RXF5 in order, each only if selected, EXIDE from the per-filter bit. */
  function FilterPlan(f: RxFilterConfig): (ops: seq<RegOp>)
    requires f.WellFormed()
    ensures AllFit(ops) && |ops| <= 6
  {
    GroupPlan(FILTER_SIDH, GroupsOf(f.values, f.extendedIdEnable), f.select, 0)
  }

  /**
   * Mask `k` (k = 0, 1) holds its value in the identifier layout (low 29 bits,
   * SIDL bits 4..2 clear; see PackExtendedFlagged) when selected and keeps its old bytes
   * otherwise; the two mask groups are the only registers that can change.
   */
  lemma MaskPlanEffect(r: seq<byte>, m: RxMaskConfig)
    requires |r| == REGISTER_COUNT && m.WellFormed()
    ensures var r' := ApplyAll(r, MaskPlan(m));
      && (forall k | 0 <= k < 2 ::
            r'[MASK_SIDH[k]..MASK_SIDH[k] as nat + 4] ==
              if Selected(m.select, k) then PackExtendedFlagged(m.values[k], false) else r[MASK_SIDH[k]..MASK_SIDH[k] as nat + 4])
      && (forall a | 0 <= a < REGISTER_COUNT && !(RXM0SIDH as nat <= a < RXM1SIDH as nat + 4) :: r'[a] == r[a])
  {
    MaskGroupsLayout();
    GroupPlanEffect(r, MASK_SIDH, GroupsOf(m.values, 0), m.select);
    assert !Selected(0, 0) && !Selected(0, 1);
  }

  /**
   * Filter `k` (k = 0..5) holds its value in the identifier layout, with EXIDE
   * set exactly when bit k of the extended-only selector is (see PackExtendedFlagged),
   * when selected, and keeps its old bytes otherwise; registers outside the six
   * filter groups never change.
   */
  lemma FilterPlanEffect(r: seq<byte>, f: RxFilterConfig)
    requires |r| == REGISTER_COUNT && f.WellFormed()
    ensures var r' := ApplyAll(r, FilterPlan(f));
      && (forall k | 0 <= k < 6 ::
            r'[FILTER_SIDH[k]..FILTER_SIDH[k] as nat + 4] ==
              if Selected(f.select, k) then PackExtendedFlagged(f.values[k], Selected(f.extendedIdEnable, k))
              else r[FILTER_SIDH[k]..FILTER_SIDH[k] as nat + 4])
      && (forall a | 0 <= a < REGISTER_COUNT && !(RXF0SIDH as nat <= a < RXF2SIDH as nat + 4)
                   && !(RXF3SIDH as nat <= a < RXF5SIDH as nat + 4) :: r'[a] == r[a])
  {
    FilterGroupsLayout();
    GroupPlanEffect(r, FILTER_SIDH, GroupsOf(f.values, f.extendedIdEnable), f.select);
  }

  /** The two mask groups are laid out apart and hold the registers RXM0SIDH..RXM1EID0. */
  lemma MaskGroupsLayout()
    ensures GroupsLaidOut(MASK_SIDH)
    ensures forall a | 0 <= a < REGISTER_COUNT && !(RXM0SIDH as nat <= a < RXM1SIDH as nat + 4) :: OutsideGroups(MASK_SIDH, 0, a)
  {
    assert MASK_SIDH == [0x20, 0x24];
  }

  /** The six filter groups are laid out apart, and only RXF0..RXF2 and RXF3..RXF5 hold their registers. */
  lemma FilterGroupsLayout()
    ensures GroupsLaidOut(FILTER_SIDH)
    ensures forall a | 0 <= a < REGISTER_COUNT && !(RXF0SIDH as nat <= a < RXF2SIDH as nat + 4)
                     && !(RXF3SIDH as nat <= a < RXF5SIDH as nat + 4) :: OutsideGroups(FILTER_SIDH, 0, a)
  {
    assert FILTER_SIDH == [0x00, 0x04, 0x08, 0x10, 0x14, 0x18];
  }

  // ---------------------------------------------------------------------------
  // Bit timing, operation mode, initialisation

  /** One three-byte write starting at CNF3 for a supported speed, nothing otherwise. */
  function BaudPlan(baud: word, wakeupFilter: byte, samplePoint: byte): (ops: seq<RegOp>)
    ensures AllFit(ops)
    ensures |ops| == if SupportedBaud(baud) then 1 else 0
    ensures |ops| == 1 ==> ops[0] == Write(CNF3, BaudRegisters(baud, wakeupFilter, samplePoint).value)
  {
    match BaudRegisters(baud, wakeupFilter, samplePoint)
    case Some(cnf) => [Write(CNF3, cnf)]
    case None => []
  }

  /** One CANCTRL write for a known mode, nothing otherwise. */
  function OpModePlan(mode: byte, oneshot: byte): (ops: seq<RegOp>)
    ensures AllFit(ops)
    ensures |ops| == if mode <= CONFIGURATION_OP_MODE then 1 else 0
    ensures |ops| == 1 ==> ops[0] == Write(CANCTRL, [OpModeControl(mode, oneshot).value])
  {
    match OpModeControl(mode, oneshot)
    case Some(c) => [Write(CANCTRL, [c])]
    case None => []
  }

  /** RXB0CTRL value built by initialisation: RXM = 11 if RXB0 ignores filters, BUKT if rollover is enabled. */
  function Rxb0Control(h: Handle): (v: byte)
    ensures v & RXM_RECEIVE_ANY_MESSAGE == (if h.rxbufferopmode & RXB0_TURN_MASKS_FILTERS_OFF == RXB0_TURN_MASKS_FILTERS_OFF
                                           then RXM_RECEIVE_ANY_MESSAGE else 0)
    ensures v & BUKT_ROLLOVER == (if h.rxbuffer0rollover & RXB0_ROLLOVER_ENABLED == RXB0_ROLLOVER_ENABLED
                                 then BUKT_ROLLOVER else 0)
    ensures v & !(RXM_RECEIVE_ANY_MESSAGE | BUKT_ROLLOVER) == 0
  {
    (if h.rxbufferopmode & RXB0_TURN_MASKS_FILTERS_OFF == RXB0_TURN_MASKS_FILTERS_OFF then RXM_RECEIVE_ANY_MESSAGE else 0)
    | (if h.rxbuffer0rollover & RXB0_ROLLOVER_ENABLED == RXB0_ROLLOVER_ENABLED then BUKT_ROLLOVER else 0)
  }

  /** The RX control writes of initialisation: RXB0CTRL only if its value is not zero, RXB1CTRL only if RXB1 ignores filters. */
  function RxControlPlan(h: Handle): (ops: seq<RegOp>)
    ensures AllFit(ops) && |ops| <= 2
  {
    (if Rxb0Control(h) != 0 then [Write(RXB0CTRL, [Rxb0Control(h)])] else [])
    + (if h.rxbufferopmode & RXB1_TURN_MASKS_FILTERS_OFF == RXB1_TURN_MASKS_FILTERS_OFF
       then [Write(RXB1CTRL, [RXM_RECEIVE_ANY_MESSAGE])] else [])
  }

  /** Everything initialisation writes after the reset, in order: bit timing, RX control, operation mode. */
  function InitPlan(h: Handle): (ops: seq<RegOp>)
    ensures AllFit(ops) && |ops| <= 4
  {
    AllFitAppend(BaudPlan(h.baudrate, h.wakeupfilter, h.samplepoint), RxControlPlan(h));
    AllFitAppend(BaudPlan(h.baudrate, h.wakeupfilter, h.samplepoint) + RxControlPlan(h), OpModePlan(h.opmode, h.oneshot));
    BaudPlan(h.baudrate, h.wakeupfilter, h.samplepoint) + RxControlPlan(h) + OpModePlan(h.opmode, h.oneshot)
  }

  /** A write of one register that happens only when `cond` holds. */
  lemma OptionalWrite(r: seq<byte>, addr: byte, v: byte, cond: bool)
    requires |r| == REGISTER_COUNT && addr as nat < REGISTER_COUNT
    ensures AllFit(if cond then [Write(addr, [v])] else [])
    ensures var r' := ApplyAll(r, if cond then [Write(addr, [v])] else []);
      && r'[addr as nat] == (if cond then v else r[addr as nat])
      && (forall a | 0 <= a < REGISTER_COUNT && a != addr as nat :: r'[a] == r[a])
  {
    if cond {
      ApplyAllSingle(r, Write(addr, [v]));
    }
  }

  /** The bit timing write leaves the table entry in CNF3..CNF1 for a supported speed and changes nothing else. */
  lemma BaudPlanEffect(r: seq<byte>, baud: word, wakeupFilter: byte, samplePoint: byte)
    requires |r| == REGISTER_COUNT
    ensures var r' := ApplyAll(r, BaudPlan(baud, wakeupFilter, samplePoint));
      && r'[CNF3..CNF1 as nat + 1] == (if SupportedBaud(baud) then BaudRegisters(baud, wakeupFilter, samplePoint).value
                                       else r[CNF3..CNF1 as nat + 1])
      && (forall a | 0 <= a < REGISTER_COUNT && !(CNF3 as nat <= a <= CNF1 as nat) :: r'[a] == r[a])
  {
    var p := BaudPlan(baud, wakeupFilter, samplePoint);
    if |p| == 1 {
      ApplyAllSingle(r, p[0]);
    }
  }

  /** RX control writes: RXB0CTRL and RXB1CTRL as the handle requests; nothing else changes. */
  lemma RxControlPlanEffect(r: seq<byte>, h: Handle)
    requires |r| == REGISTER_COUNT
    ensures var r' := ApplyAll(r, RxControlPlan(h));
      && r'[RXB0CTRL] == (if Rxb0Control(h) != 0 then Rxb0Control(h) else r[RXB0CTRL])
      && r'[RXB1CTRL] == (if h.rxbufferopmode & RXB1_TURN_MASKS_FILTERS_OFF == RXB1_TURN_MASKS_FILTERS_OFF
                          then RXM_RECEIVE_ANY_MESSAGE else r[RXB1CTRL])
      && (forall a | 0 <= a < REGISTER_COUNT && a != RXB0CTRL as nat && a != RXB1CTRL as nat :: r'[a] == r[a])
  {
    var c0 := Rxb0Control(h) != 0;
    var c1 := h.rxbufferopmode & RXB1_TURN_MASKS_FILTERS_OFF == RXB1_TURN_MASKS_FILTERS_OFF;
    var x0 := if c0 then [Write(RXB0CTRL, [Rxb0Control(h)])] else [];
    var x1 := if c1 then [Write(RXB1CTRL, [RXM_RECEIVE_ANY_MESSAGE])] else [];
    assert RxControlPlan(h) == x0 + x1;
    OptionalWrite(r, RXB0CTRL, Rxb0Control(h), c0);
    OptionalWrite(ApplyAll(r, x0), RXB1CTRL, RXM_RECEIVE_ANY_MESSAGE, c1);
    ApplyAllAppend(r, x0, x1);
  }

  /** The mode write leaves the requested CANCTRL byte for a known mode and changes nothing else. */
  lemma OpModePlanEffect(r: seq<byte>, mode: byte, oneshot: byte)
    requires |r| == REGISTER_COUNT
    ensures var r' := ApplyAll(r, OpModePlan(mode, oneshot));
      && r'[CANCTRL] == (if mode <= CONFIGURATION_OP_MODE then OpModeControl(mode, oneshot).value else r[CANCTRL])
      && (forall a | 0 <= a < REGISTER_COUNT && a != CANCTRL as nat :: r'[a] == r[a])
  {
    var p := OpModePlan(mode, oneshot);
    if |p| == 1 {
      ApplyAllSingle(r, p[0]);
    }
  }

  lemma SliceAgrees(x: seq<byte>, y: seq<byte>, lo: nat, hi: nat)
    requires lo <= hi <= |x| == |y|
    requires forall a | lo <= a < hi :: x[a] == y[a]
    ensures x[lo..hi] == y[lo..hi]
  {
  }

  /**
   * Registers after initialisation from the reset state `r0`: the bit timing
   * table entry in CNF3..CNF1 (if the speed is supported), RXB0CTRL and
   * RXB1CTRL as the handle requests (a zero RXB0CTRL value and an unset RXB1
   * bit leave the reset value), CANCTRL requesting the handle's mode (if known),
   * and every other register as after reset.
   */
  lemma InitPlanEffect(r0: seq<byte>, h: Handle)
    requires |r0| == REGISTER_COUNT
    ensures var r := ApplyAll(r0, InitPlan(h));
      && r[CNF3..CNF1 as nat + 1] == (if SupportedBaud(h.baudrate)
                                      then BaudRegisters(h.baudrate, h.wakeupfilter, h.samplepoint).value
                                      else r0[CNF3..CNF1 as nat + 1])
      && r[RXB0CTRL] == (if Rxb0Control(h) != 0 then Rxb0Control(h) else r0[RXB0CTRL])
      && r[RXB1CTRL] == (if h.rxbufferopmode & RXB1_TURN_MASKS_FILTERS_OFF == RXB1_TURN_MASKS_FILTERS_OFF
                         then RXM_RECEIVE_ANY_MESSAGE else r0[RXB1CTRL])
      && r[CANCTRL] == (if h.opmode <= CONFIGURATION_OP_MODE then OpModeControl(h.opmode, h.oneshot).value else r0[CANCTRL])
      && (forall a | 0 <= a < REGISTER_COUNT && !(CNF3 as nat <= a <= CNF1 as nat)
                   && a != RXB0CTRL as nat && a != RXB1CTRL as nat && a != CANCTRL as nat :: r[a] == r0[a])
  {
    var b := BaudPlan(h.baudrate, h.wakeupfilter, h.samplepoint);
    var x := RxControlPlan(h);
    var o := OpModePlan(h.opmode, h.oneshot);
    var r1 := ApplyAll(r0, b);
    var r2 := ApplyAll(r1, x);
    ApplyAllAppend(r0, b, x);
    ApplyAllAppend(r0, b + x, o);
    InitSteps(r0, r1, r2, h);
  }

  /** InitPlanEffect, with the states after the bit timing and the RX control writes given as r1 and r2. */
  lemma InitSteps(r0: seq<byte>, r1: seq<byte>, r2: seq<byte>, h: Handle)
    requires |r0| == REGISTER_COUNT
    requires r1 == ApplyAll(r0, BaudPlan(h.baudrate, h.wakeupfilter, h.samplepoint))
    requires r2 == ApplyAll(r1, RxControlPlan(h))
    ensures var r := ApplyAll(r2, OpModePlan(h.opmode, h.oneshot));
      && r[CNF3..CNF1 as nat + 1] == (if SupportedBaud(h.baudrate)
                                      then BaudRegisters(h.baudrate, h.wakeupfilter, h.samplepoint).value
                                      else r0[CNF3..CNF1 as nat + 1])
      && r[RXB0CTRL] == (if Rxb0Control(h) != 0 then Rxb0Control(h) else r0[RXB0CTRL])
      && r[RXB1CTRL] == (if h.rxbufferopmode & RXB1_TURN_MASKS_FILTERS_OFF == RXB1_TURN_MASKS_FILTERS_OFF
                         then RXM_RECEIVE_ANY_MESSAGE else r0[RXB1CTRL])
      && r[CANCTRL] == (if h.opmode <= CONFIGURATION_OP_MODE then OpModeControl(h.opmode, h.oneshot).value else r0[CANCTRL])
      && (forall a | 0 <= a < REGISTER_COUNT && !(CNF3 as nat <= a <= CNF1 as nat)
                   && a != RXB0CTRL as nat && a != RXB1CTRL as nat && a != CANCTRL as nat :: r[a] == r0[a])
  {
    var r := ApplyAll(r2, OpModePlan(h.opmode, h.oneshot));
    BaudPlanEffect(r0, h.baudrate, h.wakeupfilter, h.samplepoint);
    RxControlPlanEffect(r1, h);
    OpModePlanEffect(r2, h.opmode, h.oneshot);
    SliceAgrees(r, r1, CNF3 as nat, CNF1 as nat + 1);
  }

  // ---------------------------------------------------------------------------
  // Aborts, interrupts and errors

  /** The TXREQ-clearing bit modify of the control register `ctrl`, issued only when its buffer is selected. */
  function AbortStep(selected: bool, ctrl: byte): (ops: seq<RegOp>)
    requires ctrl as nat < REGISTER_COUNT
    ensures AllFit(ops) && |ops| == if selected then 1 else 0
  {
    if selected then [BitModify(ctrl, TXREQ, 0)] else []
  }

  /** One TXREQ-clearing bit modify per selected TX buffer, in buffer order. */
  function AbortPlan(txBuffers: byte): (ops: seq<RegOp>)
    ensures AllFit(ops) && |ops| <= 3
    ensures forall n | 0 <= n < |ops| :: ops[n].BitModify? && ops[n].mask == TXREQ && ops[n].bits == 0
  {
    AllFitAppend(AbortStep(txBuffers & TXB0 == TXB0, TXB0CTRL), AbortStep(txBuffers & TXB1 == TXB1, TXB1CTRL));
    AllFitAppend(AbortStep(txBuffers & TXB0 == TXB0, TXB0CTRL) + AbortStep(txBuffers & TXB1 == TXB1, TXB1CTRL),
                 AbortStep(txBuffers & TXB2 == TXB2, TXB2CTRL));
    AbortStep(txBuffers & TXB0 == TXB0, TXB0CTRL)
    + AbortStep(txBuffers & TXB1 == TXB1, TXB1CTRL)
    + AbortStep(txBuffers & TXB2 == TXB2, TXB2CTRL)
  }

  /** A bit modify of one register that happens only when `cond` holds. */
  lemma OptionalBitModify(r: seq<byte>, addr: byte, mask: byte, bits: byte, cond: bool)
    requires |r| == REGISTER_COUNT && addr as nat < REGISTER_COUNT && BitModifiable(addr) && addr != EFLG
    ensures AllFit(if cond then [BitModify(addr, mask, bits)] else [])
    ensures var r' := ApplyAll(r, if cond then [BitModify(addr, mask, bits)] else []);
      && r'[addr as nat] == (if cond then BitModified(r[addr as nat], mask, bits) else r[addr as nat])
      && (forall a | 0 <= a < REGISTER_COUNT && a != addr as nat :: r'[a] == r[a])
  {
    if cond {
      ApplyAllSingle(r, BitModify(addr, mask, bits));
      BitModifyEffect(r, addr, mask, bits);
    }
  }

  /**
   * Aborting clears TXREQ in the control register of each selected buffer,
   * keeps its other bits, and leaves the unselected buffers and all other
   * registers alone.
   */
  lemma AbortPlanEffect(r: seq<byte>, txBuffers: byte)
    requires |r| == REGISTER_COUNT
    ensures var r' := ApplyAll(r, AbortPlan(txBuffers));
      && r'[TXB0CTRL] == (if txBuffers & TXB0 == TXB0 then r[TXB0CTRL] & !TXREQ else r[TXB0CTRL])
      && r'[TXB1CTRL] == (if txBuffers & TXB1 == TXB1 then r[TXB1CTRL] & !TXREQ else r[TXB1CTRL])
      && r'[TXB2CTRL] == (if txBuffers & TXB2 == TXB2 then r[TXB2CTRL] & !TXREQ else r[TXB2CTRL])
      && (forall a | 0 <= a < REGISTER_COUNT && a != TXB0CTRL as nat && a != TXB1CTRL as nat && a != TXB2CTRL as nat ::
            r'[a] == r[a])
  {
    var p0 := AbortStep(txBuffers & TXB0 == TXB0, TXB0CTRL);
    var p1 := AbortStep(txBuffers & TXB1 == TXB1, TXB1CTRL);
    var p2 := AbortStep(txBuffers & TXB2 == TXB2, TXB2CTRL);
    var r1 := ApplyAll(r, p0);
    var r2 := ApplyAll(r1, p1);
    ApplyAllAppend(r, p0, p1);
    ApplyAllAppend(r, p0 + p1, p2);
    AbortSteps(r, r1, r2, txBuffers);
  }

  /** AbortPlanEffect, with the states after the first and the second step given as r1 and r2. */
  lemma AbortSteps(r: seq<byte>, r1: seq<byte>, r2: seq<byte>, txBuffers: byte)
    requires |r| == REGISTER_COUNT
    requires r1 == ApplyAll(r, AbortStep(txBuffers & TXB0 == TXB0, TXB0CTRL))
    requires r2 == ApplyAll(r1, AbortStep(txBuffers & TXB1 == TXB1, TXB1CTRL))
    ensures var r' := ApplyAll(r2, AbortStep(txBuffers & TXB2 == TXB2, TXB2CTRL));
      && r'[TXB0CTRL] == (if txBuffers & TXB0 == TXB0 then r[TXB0CTRL] & !TXREQ else r[TXB0CTRL])
      && r'[TXB1CTRL] == (if txBuffers & TXB1 == TXB1 then r[TXB1CTRL] & !TXREQ else r[TXB1CTRL])
      && r'[TXB2CTRL] == (if txBuffers & TXB2 == TXB2 then r[TXB2CTRL] & !TXREQ else r[TXB2CTRL])
      && (forall a | 0 <= a < REGISTER_COUNT && a != TXB0CTRL as nat && a != TXB1CTRL as nat && a != TXB2CTRL as nat ::
            r'[a] == r[a])
  {
    OptionalBitModify(r, TXB0CTRL, TXREQ, 0, txBuffers & TXB0 == TXB0);
    OptionalBitModify(r1, TXB1CTRL, TXREQ, 0, txBuffers & TXB1 == TXB1);
    OptionalBitModify(r2, TXB2CTRL, TXREQ, 0, txBuffers & TXB2 == TXB2);
    ClearingTxReq(r[TXB0CTRL]);
    ClearingTxReq(r[TXB1CTRL]);
    ClearingTxReq(r[TXB2CTRL]);
  }

  lemma ClearingTxReq(v: byte)
    ensures BitModified(v, TXREQ, 0) == v & !TXREQ
  {
  }

  /** Abort-all: set ABAT in CANCTRL, then clear it again. */
  const ABORT_ALL_PLAN: seq<RegOp> := [BitModify(CANCTRL, ABAT, ABAT), BitModify(CANCTRL, ABAT, 0)]

  /**
   * Abort-all requests the abort (ABAT is set after the first operation) and
   * leaves CANCTRL with ABAT clear and its other bits as before, so new
   * transmissions are possible; nothing else changes.
   */
  lemma AbortAllEffect(r: seq<byte>)
    requires |r| == REGISTER_COUNT
    ensures AllFit(ABORT_ALL_PLAN)
    ensures Apply(r, ABORT_ALL_PLAN[0])[CANCTRL] & ABAT == ABAT
    ensures var r' := ApplyAll(r, ABORT_ALL_PLAN);
      && r'[CANCTRL] == r[CANCTRL] & !ABAT
      && (forall a | 0 <= a < REGISTER_COUNT && a != CANCTRL as nat :: r'[a] == r[a])
  {
    var r1 := Apply(r, ABORT_ALL_PLAN[0]);
    BitModifyEffect(r, CANCTRL, ABAT, ABAT);
    BitModifyEffect(r1, CANCTRL, ABAT, 0);
    ApplyAllSingle(r1, ABORT_ALL_PLAN[1]);
    assert ApplyAll(r, ABORT_ALL_PLAN) == ApplyAll(r1, ABORT_ALL_PLAN[1..]);
    assert ABORT_ALL_PLAN[1..] == [ABORT_ALL_PLAN[1]];
    var v := r1[CANCTRL];
    assert BitModified(v, ABAT, 0) == r[CANCTRL] & !ABAT;
  }

  /** CANINTE receives the enable byte as is. */
  function EnableIntPlan(interrupts: byte): (ops: seq<RegOp>)
    ensures AllFit(ops)
  {
    [Write(CANINTE, [interrupts])]
  }

  /** Clearing flags of a bit-modifiable flag register: mask = the flags to clear, data = 0. */
  function ClearFlagsPlan(reg: byte, flags: byte): (ops: seq<RegOp>)
    requires reg as nat < REGISTER_COUNT
    ensures AllFit(ops)
  {
    [BitModify(reg, flags, 0)]
  }

  /**
   * Clearing CANINTF flags clears exactly the selected bits; clearing EFLG
   * flags clears only the selected receive-overflow bits, and the error bits
   * 5..0 stay as they were even when selected. Nothing else changes.
   */
  lemma ClearFlagsEffect(r: seq<byte>, reg: byte, flags: byte)
    requires |r| == REGISTER_COUNT && (reg == CANINTF || reg == EFLG)
    ensures var r' := ApplyAll(r, ClearFlagsPlan(reg, flags));
      && (reg == CANINTF ==> r'[reg] == r[reg] & !flags)
      && (reg == EFLG ==> r'[reg] == r[reg] & !(flags & (RX1OVR | RX0OVR)))
      && (reg == EFLG ==> r'[reg] & !(RX1OVR | RX0OVR) == r[reg] & !(RX1OVR | RX0OVR))
      && (forall a | 0 <= a < REGISTER_COUNT && a != reg as nat :: r'[a] == r[a])
  {
    ApplyAllSingle(r, BitModify(reg, flags, 0));
    BitModifyEffect(r, reg, flags, 0);
    if reg == EFLG {
      EflgErrorBitsProtected(r, flags, 0);
    }
  }

  /** Enabling interrupts stores the enable byte in CANINTE and nothing else. */
  lemma EnableIntEffect(r: seq<byte>, interrupts: byte)
    requires |r| == REGISTER_COUNT
    ensures var r' := ApplyAll(r, EnableIntPlan(interrupts));
      && r'[CANINTE] == interrupts
      && (forall a | 0 <= a < REGISTER_COUNT && a != CANINTE as nat :: r'[a] == r[a])
  {
    ApplyAllSingle(r, Write(CANINTE, [interrupts]));
  }
}
