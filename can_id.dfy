/**
 * CAN identifiers in the MCP2515's four-byte identifier groups
 * (SIDH, SIDL, EID8, EID0), as the driver packs them for masks, filters and
 * TX buffers and unpacks them from RX buffers.
 *
 * Register layout of a 29-bit identifier id = SID[10:0] ++ EID[17:0]:
 *   SIDH = SID[10:3]; SIDL = SID[2:0] in bits 7..5, EID[17:16] in bits 1..0;
 *   EID8 = EID[15:8]; EID0 = EID[7:0].
 * An 11-bit standard identifier occupies SIDH and SIDL bits 7..5 only.
 */
module CanId {
  import opened CanDefs

  /** The SID field of a group: SIDH gives SID[10:3], SIDL bits 7..5 give SID[2:0]. */
  function UnpackStandard(sidh: byte, sidl: byte): (sid: word)
    ensures sid < 0x800
    ensures sid >> 3 == sidh as word && sid & 7 == (sidl >> 5) as word
  {
    ((sidh as word) << 3) | ((sidl >> 5) as word)
  }

  /** The 29-bit identifier a group holds according to the register layout above. */
  function ExtendedIdOf(g: seq<byte>): (id: word)
    requires |g| >= 4
    ensures id < 0x2000_0000
    ensures id >> 18 == UnpackStandard(g[0], g[1])
    ensures id & 0x3FFFF == (((g[1] & SIDL_EID) as word) << 16) | ((g[2] as word) << 8) | (g[3] as word)
  {
    IdOfFields(g[0], g[1] >> 5, g[1] & SIDL_EID, g[2], g[3])
  }

  /** SID[10:3], SID[2:0], EID[17:16], EID[15:8], EID[7:0] assembled into a 29-bit identifier. */
  function IdOfFields(sidh: byte, sid: byte, eid: byte, eid8: byte, eid0: byte): word {
    (UnpackStandard(sidh, sid << 5) << 18) | ((eid as word) << 16) | ((eid8 as word) << 8) | (eid0 as word)
  }

  /**
   * Extended packing used for masks, filters and extended TX frames:
   * byte0 = id >> 21, byte1 = (id >> 13) & 0xE0 | (id >> 16) & 0x03,
   * byte2 = id >> 8, byte3 = id, each truncated to a byte.
   * The group holds exactly the low 29 bits of `id`, and SIDL bits 4..2
   * (SRR, EXIDE, unused) are left clear for the caller to set.
   */
  function PackExtended(id: word): (g: seq<byte>)
    ensures |g| == 4
    ensures ExtendedIdOf(g) == id & 0x1FFF_FFFF
    ensures g[1] & 0x1C == 0
  {
    [Lo8(id >> 21), Lo8(((id >> 13) & 0xE0) | ((id >> 16) & 0x03)), Lo8(id >> 8), Lo8(id)]
  }

  /**
   * The extended packing with EXIDE (SIDL bit 3) OR-ed in when `exide` holds,
   * as written for extended TX frames and for extended-only filters. Every
   * identifier field is that of the plain packing (FlaggedPackingKeepsId).
   */
  function PackExtendedFlagged(id: word, exide: bool): (g: seq<byte>)
    ensures |g| == 4
    ensures g[1] & 0x14 == 0
    ensures g[1] & SIDL_IDE == if exide then SIDL_IDE else 0
  {
    var p := PackExtended(id);
    if exide then p[1 := p[1] | SIDL_IDE] else p
  }

  /** Two groups that agree on SIDH, SIDL bits 7..5 and 1..0, EID8 and EID0 hold the same identifier, both ways of decoding. */
  lemma SameFieldsSameId(g: seq<byte>, h: seq<byte>)
    requires |g| >= 4 && |h| >= 4
    requires g[0] == h[0] && g[1] & 0xE3 == h[1] & 0xE3 && g[2] == h[2] && g[3] == h[3]
    ensures ExtendedIdOf(g) == ExtendedIdOf(h)
    ensures UnpackExtended(g) == UnpackExtended(h)
  {
    SidlFields(g[1], h[1]);
    SameIdFromFields(g, h);
    SameDecodeFromFields(g, h);
  }

  lemma SameIdFromFields(g: seq<byte>, h: seq<byte>)
    requires |g| >= 4 && |h| >= 4
    requires g[0] == h[0] && g[1] >> 5 == h[1] >> 5 && g[1] & SIDL_EID == h[1] & SIDL_EID && g[2] == h[2] && g[3] == h[3]
    ensures ExtendedIdOf(g) == ExtendedIdOf(h)
  {
    assert UnpackStandard(g[0], g[1]) == UnpackStandard(h[0], h[1]);
  }

  lemma SameDecodeFromFields(g: seq<byte>, h: seq<byte>)
    requires |g| >= 4 && |h| >= 4
    requires g[0] == h[0] && g[1] & SIDL_SID == h[1] & SIDL_SID && g[1] & SIDL_EID == h[1] & SIDL_EID && g[2] == h[2] && g[3] == h[3]
    ensures UnpackExtended(g) == UnpackExtended(h)
  {
  }

  /** SIDL bits 7..5 and 1..0 are the SID and EID fields. */
  lemma SidlFields(a: byte, b: byte)
    requires a & 0xE3 == b & 0xE3
    ensures a >> 5 == b >> 5 && a & SIDL_EID == b & SIDL_EID && a & SIDL_SID == b & SIDL_SID
  {
  }

  /** EXIDE does not disturb the identifier: the flagged group holds and decodes to what the plain one does. */
  lemma FlaggedPackingKeepsId(id: word, exide: bool)
    ensures ExtendedIdOf(PackExtendedFlagged(id, exide)) == id & 0x1FFF_FFFF
    ensures UnpackExtended(PackExtendedFlagged(id, exide)) == UnpackExtended(PackExtended(id))
  {
    var g, p := PackExtendedFlagged(id, exide), PackExtended(id);
    assert g[0] == p[0] && g[1] & 0xE3 == p[1] & 0xE3 && g[2] == p[2] && g[3] == p[3];
    SameFieldsSameId(g, p);
  }

  /**
   * Standard packing used for standard TX frames: SIDH = id >> 3 and
   * SIDL = id << 5 (truncated to bytes), EID8 = EID0 = 0. The group holds the
   * low 11 bits of `id` and every other SIDL bit, EXIDE included, is clear.
   */
  function PackStandard(id: word): (g: seq<byte>)
    ensures |g| == 4
    ensures UnpackStandard(g[0], g[1]) == id & 0x7FF
    ensures g[1] & 0x1F == 0 && g[2] == 0 && g[3] == 0
  {
    [Lo8(id >> 3), Lo8(id << 5), 0, 0]
  }

  /**
   * The driver's decode of an extended identifier read from an RX buffer.
   * As written, SIDL's SID[2:0] is shifted left by 18 instead of 13, so it
   * lands in bits 23..25 (OR-ed over SID[5:3]) and bits 18..20 are always 0.
   */
  function UnpackExtended(g: seq<byte>): (id: word)
    requires |g| >= 4
  {
    ((g[0] as word) << 21) | (((g[1] & SIDL_SID) as word) << 18) | (((g[1] & SIDL_EID) as word) << 16)
    | ((g[2] as word) << 8) | (g[3] as word)
  }

  /**
   * What the decode computes, against the layout: the 29-bit identifier the
   * group holds with bits 18..20 cleared, and SID[2:0] OR-ed in at bits 23..25.
   */
  lemma UnpackExtendedAsWritten(g: seq<byte>)
    requires |g| >= 4
    ensures UnpackExtended(g) < 0x2000_0000
    ensures UnpackExtended(g) == (ExtendedIdOf(g) & !0x1C_0000) | (((g[1] >> 5) as word) << 23)
  {
  }

  /** Bits 29..31 of an identifier never reach the registers. */
  lemma PackIgnoresHighBits(id: word)
    ensures PackExtended(id) == PackExtended(id & 0x1FFF_FFFF)
    ensures PackStandard(id) == PackStandard(id & 0x7FF)
  {
  }

  /**
   * Standard round trip: every 11-bit identifier packed by the TX path is
   * recovered by the RX decode, whatever the SRR, IDE and EID[17:16] bits of
   * SIDL (bits 4..0) hold.
   */
  lemma StandardRoundTrip(id: word, sidlFlags: byte)
    requires id < 0x800 && sidlFlags & SIDL_SID == 0
    ensures var g := PackStandard(id); UnpackStandard(g[0], g[1] | sidlFlags) == id
  {
    var g := PackStandard(id);
    assert (g[1] | sidlFlags) >> 5 == g[1] >> 5;
  }

  /** Extended round trip holds exactly for the identifiers whose bits 18..20 (SID[2:0]) are zero. */
  lemma ExtendedRoundTripIff(id: word)
    ensures UnpackExtended(PackExtended(id)) == id & 0x1FFF_FFFF <==> id & 0x1C_0000 == 0
  {
    var g := PackExtended(id);
    UnpackExtendedAsWritten(g);
    assert ExtendedIdOf(g) == id & 0x1FFF_FFFF;
    assert (g[1] >> 5) as word == (id >> 18) & 7;
  }

  /** An extended TX frame's group, EXIDE included, decodes to the identifier when bits 18..20 are zero. */
  lemma ExtendedFrameRoundTrip(id: word)
    requires id < 0x2000_0000 && id & 0x1C_0000 == 0
    ensures UnpackExtended(PackExtendedFlagged(id, true)) == id
  {
    FlaggedPackingKeepsId(id, true);
    ExtendedRoundTripIff(id);
  }

  /** Identifier bit 18 (SID0) comes back as bit 23. */
  lemma ExtendedBit18ComesBackAsBit23()
    ensures UnpackExtended(PackExtended(0x4_0000)) == 0x80_0000
  {
  }

  /**
   * The demo's acceptance setup for RXB0: mask 0x1FFC0000 covers exactly the
   * eleven SID bits, and filter 0x15540000 holds the same group as the
   * standard identifier 0x555 that the demo sends from TXB0.
   */
  lemma DemoStandardFilter()
    ensures PackExtended(0x1FFC_0000) == [0xFF, 0xE0, 0x00, 0x00]
    ensures PackExtended(0x1554_0000) == PackStandard(0x555)
    ensures UnpackStandard(PackExtended(0x1554_0000)[0], PackExtended(0x1554_0000)[1]) == 0x555
  {
  }

  /** The extended identifier 0x1D0CAFC8 sent by the demo does not survive the decode. */
  lemma DemoExtendedIdNotRecovered()
    ensures PackExtended(0x1D0C_AFC8) == [0xE8, 0x60, 0xAF, 0xC8]
    ensures UnpackExtended(PackExtended(0x1D0C_AFC8)) == 0x1D80_AFC8
  {
  }
}
