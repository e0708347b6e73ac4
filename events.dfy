/**
 * The decode pipeline of one bridge log: dispatch on the event kind
 * (`TokenMintExecuted`, `TokenBurnExecuted`, anything else), then
 * `processEvent`: drop the log silently when the request ID names another
 * token, drop it with an error log when its amount is zero, and otherwise
 * hand a leg to `meson_handle`.
 */
module Events {
  import opened ReqIdCodec
  import opened HexKey
  import opened MesonStore
  import opened Reconciliation

  /** The event a log's first topic identifies. */
  datatype EventKind = MintExecuted | BurnExecuted | Unrecognized

  /** The parts of a log the monitor reads: the event, the reqId topic and the transaction hash. */
  datatype Log = Log(kind: EventKind, reqId: Word256, txHash: Word256)

  /** The per-chain configuration entries the pipeline uses. */
  datatype ChainConfig = ChainConfig(name: string, mesonIndex: U8, tokenDecimal: U8, startBlock: nat)

  /** What became of one log. */
  datatype Decoded = Ignored | OtherToken | InvalidAmount | Accepted(leg: Leg)

  /** The event name `processEvent` passes on for a recognised kind. */
  function EventName(kind: EventKind): (name: string)
    requires kind != Unrecognized
    ensures name == BURN_EVENT <==> kind == BurnExecuted
    ensures name == MINT_EVENT <==> kind == MintExecuted
  {
    EventNamesDiffer();
    match kind
    case MintExecuted => MINT_EVENT
    case BurnExecuted => BURN_EVENT
  }

  /** `processEvent` up to the call of `meson_handle`. */
  function ProcessEvent(cfg: ChainConfig, eventName: string, reqId: Word256, txHash: Word256): (d: Decoded)
    ensures d != Ignored
    ensures d == OtherToken <==> TokenIndex(reqId) != cfg.mesonIndex
    ensures d == InvalidAmount <==> TokenIndex(reqId) == cfg.mesonIndex && RawAmount(reqId) == 0
    ensures d.Accepted? ==>
              && d.leg.reqId == HashHex(reqId)
              && d.leg.chain == cfg.name
              && d.leg.action == eventName
              && d.leg.createdTime == CreatedTime(reqId)
              && d.leg.amount == Rescale(RawAmount(reqId), cfg.tokenDecimal)
              && d.leg.txHash == HashHex(txHash)
  {
    if IsMyToken(reqId, cfg.mesonIndex) then
      match GetAmount(reqId, cfg.tokenDecimal)
      case AmountFailure(_) => InvalidAmount
      case Amount(amount) =>
        Accepted(Leg(HashHex(reqId), cfg.name, eventName, CreatedTime(reqId), amount, HashHex(txHash)))
    else
      OtherToken
  }

  /** The `switch` on the log's first topic, followed by `processEvent`. */
  function DecodeLog(cfg: ChainConfig, log: Log): (d: Decoded)
    ensures d == Ignored <==> log.kind == Unrecognized
    ensures log.kind != Unrecognized ==> d == ProcessEvent(cfg, EventName(log.kind), log.reqId, log.txHash)
  {
    if log.kind == Unrecognized then Ignored
    else ProcessEvent(cfg, EventName(log.kind), log.reqId, log.txHash)
  }

  /**
   * Two accepted legs with the same table key come from the same request ID:
   * they carry the same creation time, and on chains configured with the same
   * decimals the same amount.  So the second leg of a transfer meets the
   * record the first one created.
   */
  lemma {:induction false} SameKeySameTransfer(cfg1: ChainConfig, log1: Log, cfg2: ChainConfig, log2: Log)
    requires DecodeLog(cfg1, log1).Accepted? && DecodeLog(cfg2, log2).Accepted?
    requires DecodeLog(cfg1, log1).leg.reqId == DecodeLog(cfg2, log2).leg.reqId
    ensures log1.reqId == log2.reqId
    ensures DecodeLog(cfg1, log1).leg.createdTime == DecodeLog(cfg2, log2).leg.createdTime
    ensures cfg1.tokenDecimal == cfg2.tokenDecimal ==>
              DecodeLog(cfg1, log1).leg.amount == DecodeLog(cfg2, log2).leg.amount
  {
    HashHexInjective(log1.reqId, log2.reqId);
  }

  /**
   * A transfer seen end to end: a burn on one chain and a mint with the same
   * request ID on another, both configured for that request's token index and
   * with the same decimals, on a table that does not yet know the request.
   * The result is one record, leg A the burn and leg B the mint, is_check
   * true, outcome success and no alert.
   */
  lemma {:induction false} MatchedTransfer(rows: map<string, Meson>, burnChain: ChainConfig, mintChain: ChainConfig,
                                           reqId: Word256, burnTx: Word256, mintTx: Word256)
    requires burnChain.mesonIndex == TokenIndex(reqId) == mintChain.mesonIndex
    requires burnChain.tokenDecimal == mintChain.tokenDecimal
    requires RawAmount(reqId) != 0
    requires HashHex(reqId) !in rows
    ensures var burn := DecodeLog(burnChain, Log(BurnExecuted, reqId, burnTx));
            var mint := DecodeLog(mintChain, Log(MintExecuted, reqId, mintTx));
            && burn.Accepted? && mint.Accepted?
            && var first := Reconcile(rows, burn.leg);
               var second := Reconcile(first.rows, mint.leg);
               && first.outcome == Inserted && first.alert.None?
               && second.outcome == UpdatedOk && second.alert.None?
               && second.rows.Keys == rows.Keys + {HashHex(reqId)}
               && var m := second.rows[HashHex(reqId)];
                  && m.isCheck && m.chainA == burnChain.name && m.chainB == mintChain.name
                  && m.actionA == BURN_EVENT && m.actionB == MINT_EVENT
                  && m.txHashA == HashHex(burnTx) && m.txHashB == HashHex(mintTx)
                  && m.timestamp == CreatedTime(reqId)
  {
    var burn := DecodeLog(burnChain, Log(BurnExecuted, reqId, burnTx));
    var mint := DecodeLog(mintChain, Log(MintExecuted, reqId, mintTx));
    assert IsMesonEvent(BURN_EVENT, MINT_EVENT);
    PairOfLegs(rows, burn.leg, mint.leg);
  }
}
