/** The two relational tables the handlers write: `Activity`, whose rows are
    inserted with `ON CONFLICT ("txHash") DO NOTHING`, and `Market`, whose
    status column a resolution overwrites with an `UPDATE ... WHERE
    "marketAddress" = $2` that never creates rows. */
module Store {

  datatype Action = Buy | Sell   // stored as 'BUY' / 'SELL'
  datatype Side = Yes | No       // stored as 'YES' / 'NO'

  /** A fixed-point amount as the ledger emits it: the decimal string `raw`
      in minor units, to be divided by 10^decimals. */
  datatype Amount = Amount(raw: string, decimals: nat)

  datatype Activity = Activity(
    txHash: string,
    marketAddress: string,
    userAddress: string,
    action: Action,
    outcome: Side,
    amount: Amount,
    totalValue: Amount,
    timestamp: string)

  /** `activity` is keyed by transaction hash; `market` maps a market address to its status. */
  datatype Tables = Tables(activity: map<string, Activity>, market: map<string, string>)

  /** The single store operation a handler performs. */
  datatype Write = NoWrite | InsertActivity(row: Activity) | SetResolved(marketAddress: string)

  const ResolvedStatus: string := "resolved"

  function ApplyWrite(t: Tables, w: Write): Tables
  {
    match w
    case NoWrite => t
    case InsertActivity(row) =>
      if row.txHash in t.activity then t
      else t.(activity := t.activity[row.txHash := row])
    case SetResolved(addr) =>
      if addr in t.market then t.(market := t.market[addr := ResolvedStatus]) else t
  }

  /** An insert is ignored when a row with the same transaction hash exists;
      the resolving update creates no row and changes only the named market. */
  lemma ApplyWriteSpec(t: Tables, w: Write)
    ensures var t' := ApplyWrite(t, w);
      && (w.InsertActivity? ==>
            t'.market == t.market &&
            t'.activity == if w.row.txHash in t.activity then t.activity
                           else t.activity[w.row.txHash := w.row])
      && (w.SetResolved? ==>
            t'.activity == t.activity && t'.market.Keys == t.market.Keys &&
            (forall a :: a in t.market ==>
               t'.market[a] == if a == w.marketAddress then ResolvedStatus else t.market[a]))
      && (w.NoWrite? ==> t' == t)
  {
  }

  /** The tables already reflect write `w`: applying it again changes nothing. */
  predicate Absorbs(t: Tables, w: Write) {
    match w
    case NoWrite => true
    case InsertActivity(row) => row.txHash in t.activity
    case SetResolved(addr) => addr in t.market ==> t.market[addr] == ResolvedStatus
  }

  lemma AbsorbedWriteIsNoOp(t: Tables, w: Write)
    requires Absorbs(t, w)
    ensures ApplyWrite(t, w) == t
  {
    if w.SetResolved? && w.marketAddress in t.market {
      assert t.market[w.marketAddress := ResolvedStatus] == t.market;
    }
  }

  /** Every write is absorbed once applied, and stays absorbed whatever is applied afterwards. */
  lemma AbsorptionIsStable(t: Tables, w: Write, later: Write)
    ensures Absorbs(ApplyWrite(t, w), w)
    ensures Absorbs(t, w) ==> Absorbs(ApplyWrite(t, later), w)
  {
  }
}
