/**
 * The transmit state the driver reports for a TX buffer, decided from the
 * flags of its TXBnCTRL register: TXREQ (request pending), ABTF (aborted),
 * MLOA (lost arbitration) and TXERR (bus error).
 */
module TxStatus {
  import opened CanDefs

  predicate Flag(ctrl: byte, flag: byte) {
    ctrl & flag == flag
  }

  /**
   * The decision tree: a request that is still pending and not aborted is
   * classified by its error flags; otherwise an aborted request is reported as
   * aborted and anything else as sent. Each state is characterised by exactly
   * one combination of the four flags, and the result is always a state code.
   */
  function DecodeTxStatus(ctrl: byte): (s: byte)
    ensures s <= TX_SUCCESS
    ensures s == TX_SUCCESS <==> !Flag(ctrl, TXREQ) && !Flag(ctrl, ABTF)
    ensures s == TX_ABORTED <==> Flag(ctrl, ABTF)
    ensures s == TX_BUS_ERROR_AND_LOST_ARBITRATION <==>
      Flag(ctrl, TXREQ) && !Flag(ctrl, ABTF) && Flag(ctrl, TXERR) && Flag(ctrl, MLOA)
    ensures s == TX_BUS_ERROR <==>
      Flag(ctrl, TXREQ) && !Flag(ctrl, ABTF) && Flag(ctrl, TXERR) && !Flag(ctrl, MLOA)
    ensures s == TX_LOST_ARBITRATION <==>
      Flag(ctrl, TXREQ) && !Flag(ctrl, ABTF) && !Flag(ctrl, TXERR) && Flag(ctrl, MLOA)
    ensures s == TX_PENDING <==>
      Flag(ctrl, TXREQ) && !Flag(ctrl, ABTF) && !Flag(ctrl, TXERR) && !Flag(ctrl, MLOA)
  {
    if Flag(ctrl, TXREQ) && ctrl & ABTF == 0 then
      if ctrl & (TXERR | MLOA) == TXERR | MLOA then TX_BUS_ERROR_AND_LOST_ARBITRATION
      else if Flag(ctrl, TXERR) then TX_BUS_ERROR
      else if Flag(ctrl, MLOA) then TX_LOST_ARBITRATION
      else TX_PENDING
    else if Flag(ctrl, ABTF) then TX_ABORTED
    else TX_SUCCESS
  }

  /** Only the four flags matter: the priority bits, bit 7 and bit 2 are ignored. */
  lemma StatusIgnoresOtherBits(ctrl: byte)
    ensures DecodeTxStatus(ctrl) == DecodeTxStatus(ctrl & (ABTF | MLOA | TXERR | TXREQ))
  {
  }

  /** A buffer whose request was cleared by an abort (TXREQ and ABTF clear) reads as sent. */
  lemma ClearedRequestReadsAsSuccess(ctrl: byte)
    requires ctrl & (TXREQ | ABTF) == 0
    ensures DecodeTxStatus(ctrl) == TX_SUCCESS
  {
  }

  /** A freshly loaded buffer (control byte exactly TXREQ) reads as pending. */
  lemma FreshRequestReadsAsPending()
    ensures DecodeTxStatus(TXREQ) == TX_PENDING
  {
  }
}
