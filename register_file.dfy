/**
 * The chip's register file as seen through the driver's three register
 * primitives: a sequential WRITE of several bytes starting at an address, a
 * READ of several bytes, and a BIT MODIFY of one register under a mask. A
 * driver routine is described by the list of register operations it issues
 * (a plan); this module gives their effect on the register contents and the
 * bytes each one puts on the SPI bus between chip-select and release.
 */
module RegisterFile {
  import opened CanDefs

  /** The registers after writing `d` starting at `addr`, one address per byte. */
  function Written(r: seq<byte>, addr: nat, d: seq<byte>): (r': seq<byte>)
    requires addr + |d| <= |r|
    ensures |r'| == |r|
    ensures forall k {:trigger r'[k]} | 0 <= k < |r| :: r'[k] == if addr <= k < addr + |d| then d[k - addr] else r[k]
  {
    r[..addr] + d + r[addr + |d|..]
  }

  /** A WRITE op at address `n` is Written at `n`. */
  lemma ApplyWritten(r: seq<byte>, a: byte, bytes: seq<byte>, n: nat)
    requires |r| == REGISTER_COUNT && a as nat == n && n + |bytes| <= REGISTER_COUNT
    ensures Fits(Write(a, bytes)) && Apply(r, Write(a, bytes)) == Written(r, n, bytes)
  {
  }

  /** Writing no bytes changes nothing. */
  lemma WrittenNothing(r: seq<byte>, addr: nat)
    requires addr <= |r|
    ensures Written(r, addr, []) == r
  {
    assert r[..addr] + r[addr..] == r;
  }

  /** The written range reads back as the bytes written. */
  lemma WrittenSlice(r: seq<byte>, addr: nat, d: seq<byte>)
    requires addr + |d| <= |r|
    ensures Written(r, addr, d)[addr..addr + |d|] == d
  {
    var r' := Written(r, addr, d);
    assert r' == r[..addr] + d + r[addr + |d|..];
  }

  /** A range that does not overlap the written one is unchanged. */
  lemma WrittenSliceDisjoint(r: seq<byte>, addr: nat, d: seq<byte>, lo: nat, hi: nat)
    requires addr + |d| <= |r| && lo <= hi <= |r|
    requires hi <= addr || addr + |d| <= lo
    ensures Written(r, addr, d)[lo..hi] == r[lo..hi]
  {
    var r' := Written(r, addr, d);
    forall k | 0 <= k < hi - lo
      ensures r'[lo..hi][k] == r[lo..hi][k]
    {
      assert r'[lo..hi][k] == r'[lo + k];
    }
  }

  /** Writing one more byte after a written prefix extends the written prefix by that byte. */
  lemma WrittenExtend(r: seq<byte>, addr: nat, d: seq<byte>, k: nat)
    requires addr + |d| <= |r| && k < |d|
    ensures Written(r, addr, d[..k])[addr + k := d[k]] == Written(r, addr, d[..k + 1])
  {
    var x, y := Written(r, addr, d[..k])[addr + k := d[k]], Written(r, addr, d[..k + 1]);
    forall j | 0 <= j < |r|
      ensures x[j] == y[j]
    {
    }
  }

  /** Writing back what a range holds changes nothing. */
  lemma WrittenUnchanged(r: seq<byte>, addr: nat, n: nat)
    requires addr + n <= |r|
    ensures Written(r, addr, r[addr..addr + n]) == r
  {
    assert r[..addr] + r[addr..addr + n] + r[addr + n..] == r;
  }

  /** Registers that honour the BIT MODIFY mask. */
  predicate BitModifiable(addr: byte) {
    addr in {TXB0CTRL, TXB1CTRL, TXB2CTRL, RXB0CTRL, RXB1CTRL, CNF1, CNF2, CNF3,
             BFPCTRL, TXRTSCTRL, CANINTE, CANINTF, EFLG, CANCTRL}
  }

  /** The bits of a register a BIT MODIFY can change: only RX1OVR and RX0OVR in EFLG, all bits elsewhere. */
  function HostModifiable(addr: byte): (w: byte)
    ensures addr == EFLG ==> w & !(RX1OVR | RX0OVR) == 0
    ensures addr != EFLG ==> w == 0xFF
  {
    if addr == EFLG then RX1OVR | RX0OVR else 0xFF
  }

  /**
   * The mask the chip applies: the bits of the one sent that the host may
   * change, or 0xFF (a plain byte write) on registers without bit modify.
   */
  function EffectiveMask(addr: byte, mask: byte): (m: byte)
    ensures BitModifiable(addr) ==> m & !mask == 0 && m & !HostModifiable(addr) == 0
    ensures !BitModifiable(addr) ==> m == 0xFF
  {
    if BitModifiable(addr) then mask & HostModifiable(addr) else 0xFF
  }

  /** A register value after a masked update: the masked bits come from `bits`, the rest are kept. */
  function BitModified(prev: byte, mask: byte, bits: byte): (v: byte)
    ensures v & mask == bits & mask
    ensures v & !mask == prev & !mask
  {
    (prev & !mask) | (bits & mask)
  }

  /** One chip-select transaction that changes registers. */
  datatype RegOp =
    | Write(addr: byte, bytes: seq<byte>)
    | BitModify(addr: byte, mask: byte, bits: byte)

  /** The operation stays inside the 128-register map. */
  predicate Fits(op: RegOp) {
    match op
    case Write(addr, bytes) => addr as nat + |bytes| <= REGISTER_COUNT
    case BitModify(addr, _, _) => addr as nat < REGISTER_COUNT
  }

  predicate AllFit(ops: seq<RegOp>) {
    forall i | 0 <= i < |ops| :: Fits(ops[i])
  }

  /** Register `k` is one the operation changes or may change. */
  predicate Touches(op: RegOp, k: nat) {
    match op
    case Write(addr, bytes) => addr as nat <= k < addr as nat + |bytes|
    case BitModify(addr, _, _) => k == addr as nat
  }

  /** Effect of one operation on the register file. */
  function Apply(r: seq<byte>, op: RegOp): (r': seq<byte>)
    requires |r| == REGISTER_COUNT && Fits(op)
    ensures |r'| == REGISTER_COUNT
    ensures forall k {:trigger r'[k]} | 0 <= k < REGISTER_COUNT && !Touches(op, k) :: r'[k] == r[k]
  {
    match op
    case Write(addr, bytes) => Written(r, addr as nat, bytes)
    case BitModify(addr, mask, bits) =>
      r[addr as nat := BitModified(r[addr as nat], EffectiveMask(addr, mask), bits)]
  }

  /** Effect of a plan, operations applied in order. */
  function ApplyAll(r: seq<byte>, ops: seq<RegOp>): (r': seq<byte>)
    requires |r| == REGISTER_COUNT && AllFit(ops)
    ensures |r'| == REGISTER_COUNT
    decreases |ops|
  {
    if |ops| == 0 then r else ApplyAll(Apply(r, ops[0]), ops[1..])
  }

  /** The bytes a register-changing transaction sends: opcode, address, then payload. */
  function Wire(op: RegOp): (t: seq<byte>)
    ensures |t| >= 2 && t[1] == op.addr
    ensures op.Write? ==> t[0] == WRITE_INS && t[2..] == op.bytes
    ensures op.BitModify? ==> t == [BIT_MODIFY_INS, op.addr, op.mask, op.bits]
  {
    match op
    case Write(addr, bytes) => [WRITE_INS, addr] + bytes
    case BitModify(addr, mask, bits) => [BIT_MODIFY_INS, addr, mask, bits]
  }

  /** The transactions of a plan, in order. */
  function WireAll(ops: seq<RegOp>): (ts: seq<seq<byte>>)
    ensures |ts| == |ops|
    ensures forall i | 0 <= i < |ops| :: ts[i] == Wire(ops[i])
    decreases |ops|
  {
    if |ops| == 0 then [] else [Wire(ops[0])] + WireAll(ops[1..])
  }

  /** The transactions of two plans run one after the other are those of their concatenation. */
  lemma WireAllAppend(a: seq<RegOp>, b: seq<RegOp>)
    ensures WireAll(a + b) == WireAll(a) + WireAll(b)
  {
    var x, wa, wb := WireAll(a + b), WireAll(a), WireAll(b);
    forall i | 0 <= i < |x| ensures x[i] == (wa + wb)[i] {
      if i < |a| {
        assert (a + b)[i] == a[i] && wa[i] == Wire(a[i]);
      } else {
        assert (a + b)[i] == b[i - |a|] && wb[i - |a|] == Wire(b[i - |a|]);
      }
    }
  }

  /** The bytes of a READ transaction: opcode and address sent, then the bytes clocked back. */
  function ReadWire(addr: byte, got: seq<byte>): (t: seq<byte>)
    ensures |t| == 2 + |got| && t[0] == READ_INS && t[1] == addr && t[2..] == got
  {
    [READ_INS, addr] + got
  }

  /** The single RESET instruction. */
  const RESET_WIRE: seq<byte> := [RESET_INS]

  /** Recovers the operation from the bytes of a transaction, as the chip decodes it. */
  function ParseTransaction(t: seq<byte>): (op: Option<RegOp>)
    ensures op.Some? ==> Wire(op.value) == t
  {
    if |t| >= 2 && t[0] == WRITE_INS then Some(Write(t[1], t[2..]))
    else if |t| == 4 && t[0] == BIT_MODIFY_INS then Some(BitModify(t[1], t[2], t[3]))
    else None
  }

  /** The transaction bytes identify the operation: decoding gives it back. */
  lemma ParseWire(op: RegOp)
    ensures ParseTransaction(Wire(op)) == Some(op)
  {
    var t := Wire(op);
    if op.Write? {
      assert t[2..] == op.bytes;
    }
  }

  /** Different operations never put the same bytes on the bus. */
  lemma WireInjective(a: RegOp, b: RegOp)
    requires Wire(a) == Wire(b)
    ensures a == b
  {
    ParseWire(a);
    ParseWire(b);
  }

  /**
   * On a bit-modifiable register other than EFLG only the mask's bits change;
   * on EFLG only the mask's overflow bits change; elsewhere the data byte is
   * stored as is.
   */
  lemma BitModifyEffect(r: seq<byte>, addr: byte, mask: byte, bits: byte)
    requires |r| == REGISTER_COUNT && addr as nat < REGISTER_COUNT
    ensures BitModifiable(addr) && addr != EFLG ==>
      Apply(r, BitModify(addr, mask, bits))[addr as nat] == BitModified(r[addr as nat], mask, bits)
    ensures addr == EFLG ==>
      Apply(r, BitModify(addr, mask, bits))[addr as nat] == BitModified(r[addr as nat], mask & (RX1OVR | RX0OVR), bits)
    ensures !BitModifiable(addr) ==> Apply(r, BitModify(addr, mask, bits))[addr as nat] == bits
  {
    if !BitModifiable(addr) {
      ForcedMaskStoresData(r[addr as nat], bits);
    } else if addr != EFLG {
      assert mask & 0xFF == mask;
    }
  }

  /** No BIT MODIFY changes EFLG's error bits 5..0, whatever mask it sends. */
  lemma EflgErrorBitsProtected(r: seq<byte>, mask: byte, bits: byte)
    requires |r| == REGISTER_COUNT
    ensures Apply(r, BitModify(EFLG, mask, bits))[EFLG] & !(RX1OVR | RX0OVR) == r[EFLG] & !(RX1OVR | RX0OVR)
  {
    var m := EffectiveMask(EFLG, mask);
    var v := BitModified(r[EFLG], m, bits);
    assert v & !m == r[EFLG] & !m;
    assert m & !(RX1OVR | RX0OVR) == 0;
    MaskedPartKept(v, r[EFLG], m, !(RX1OVR | RX0OVR));
  }

  /** Two bytes that agree outside `m` agree on any `k` disjoint from `m`. */
  lemma MaskedPartKept(v: byte, w: byte, m: byte, k: byte)
    requires v & !m == w & !m && m & k == 0
    ensures v & k == w & k
  {
    assert k & !m == k;
    assert v & k == (v & !m) & k;
    assert w & k == (w & !m) & k;
  }

  lemma ForcedMaskStoresData(prev: byte, bits: byte)
    ensures BitModified(prev, 0xFF, bits) == bits
  {
  }

  lemma AllFitAppend(a: seq<RegOp>, b: seq<RegOp>)
    requires AllFit(a) && AllFit(b)
    ensures AllFit(a + b)
  {
    assert forall i | 0 <= i < |a + b| :: (a + b)[i] == if i < |a| then a[i] else b[i - |a|];
  }

  /** Running two plans one after the other is running their concatenation. */
  lemma {:induction false} ApplyAllAppend(r: seq<byte>, a: seq<RegOp>, b: seq<RegOp>)
    requires |r| == REGISTER_COUNT && AllFit(a) && AllFit(b)
    ensures AllFit(a + b)
    ensures ApplyAll(r, a + b) == ApplyAll(ApplyAll(r, a), b)
    decreases |a|
  {
    AllFitAppend(a, b);
    if |a| == 0 {
      assert a + b == b;
    } else {
      assert (a + b)[0] == a[0];
      assert (a + b)[1..] == a[1..] + b;
      ApplyAllAppend(Apply(r, a[0]), a[1..], b);
    }
  }

  /** A register no operation of the plan touches keeps its value. */
  lemma {:induction false} ApplyAllOutside(r: seq<byte>, ops: seq<RegOp>, k: nat)
    requires |r| == REGISTER_COUNT && AllFit(ops) && k < REGISTER_COUNT
    requires forall i | 0 <= i < |ops| :: !Touches(ops[i], k)
    ensures ApplyAll(r, ops)[k] == r[k]
    decreases |ops|
  {
    if |ops| > 0 {
      ApplyAllOutside(Apply(r, ops[0]), ops[1..], k);
    }
  }

  lemma ApplyAllSingle(r: seq<byte>, op: RegOp)
    requires |r| == REGISTER_COUNT && Fits(op)
    ensures AllFit([op]) && ApplyAll(r, [op]) == Apply(r, op)
  {
    assert ApplyAll(r, [op]) == ApplyAll(Apply(r, op), []);
  }
}
