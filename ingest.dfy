/** The ingestion pipeline shared by the indexer service and the sync
    service, as pure functions of its inputs: which events reach a handler,
    what each handler does, how one poll ("tick") walks the unprocessed
    version range in batches, and what that does to the checkpoint.

    A run is described by its TRACE: the ordered list of handler effects
    (outcome, store write, webhook notification) it produces. The trace depends
    only on the transactions, the service, the handler map, the module address
    and which statements the database accepts; the tables a run leaves behind are
    `ApplyWrites(tables, trace)` and the webhook calls it makes are
    `Notes(trace)`. The listener classes are proved against these functions. */
module Ingest {
  import opened Wrappers
  import opened StringOps
  import opened Ledger
  import opened Store

  // ---------------------------------------------------------------------
  // Configuration of a listener and of one call
  // ---------------------------------------------------------------------

  datatype Handler = SharesMinted | SharesBurned | MarketCreated | MarketResolved

  /** Which copy of the listener runs: the indexer (with a webhook client when
      a webhook URL is configured) or the sync service (no webhook at all). */
  datatype Service = Indexer(webhookEnabled: bool) | Sync

  /** Whether the database accepts the statement that the handler of event
      `e` of transaction `tx` issues. Each `Exec` succeeds or fails on its own. */
  type StoreOracle = (Transaction, Event) -> bool

  /** `Dispatch` settings plus the database's answer to each handler statement. */
  datatype Ctx = Ctx(svc: Service, moduleAddress: string, handlers: map<string, Handler>, storeUp: StoreOracle)

  /** One `SendEvent` call, named by the handler that makes it; `Payload`
      gives the arguments it posts. Its result is ignored. */
  datatype Notification = Minted(e: Event, tx: Transaction) | Burned(e: Event, tx: Transaction) | Created(e: Event, tx: Transaction)

  /** The arguments of `SendEvent(eventType, data, txHash, sender)`. */
  datatype WebhookPayload = WebhookPayload(eventType: string, data: EventData, txHash: string, sender: string)

  /** Skipped: no handler ran. Done: the handler returned nil. Failed: it
      returned an error (logged, processing continues). Panicked: a slice
      expression in a log line panicked; nothing recovers it, so it ends the
      process. */
  datatype Outcome = Skipped | Done | Failed | Panicked

  datatype Effect = Effect(outcome: Outcome, write: Write, note: Option<Notification>)

  const UserTransaction: string := "user_transaction"
  const TypeSeparator: string := "::"
  const LogPrefixBytes: nat := 10     // the handlers log `addr[:10]`
  const ShareDecimals: nat := 6       // shares are divided by 1e6
  const AptDecimals: nat := 8         // APT amounts are divided by 1e8 (octas)
  const BatchSize: nat := 100

  /** Largest ledger tip for which `start + limit` cannot wrap around in uint64. */
  const MaxTip: nat := MaxUint64 - BatchSize

  const DefaultHandlerNames: set<string> :=
    {"SharesMintedEvent", "SharesBurnedEvent", "MarketCreatedEvent", "MarketResolvedEvent"}

  /** `registerDefaultHandlers`: the four handlers are (re)registered under
      their event names; every other registration is kept. */
  function WithDefaultHandlers(h: map<string, Handler>): (r: map<string, Handler>)
    ensures r.Keys == h.Keys + DefaultHandlerNames
    ensures r["SharesMintedEvent"] == SharesMinted && r["SharesBurnedEvent"] == SharesBurned
    ensures r["MarketCreatedEvent"] == MarketCreated && r["MarketResolvedEvent"] == MarketResolved
    ensures forall n :: n in h && n !in DefaultHandlerNames ==> r[n] == h[n]
  {
    h["SharesMintedEvent" := SharesMinted]["SharesBurnedEvent" := SharesBurned]
     ["MarketCreatedEvent" := MarketCreated]["MarketResolvedEvent" := MarketResolved]
  }

  // ---------------------------------------------------------------------
  // Filter and dispatch (processTx)
  // ---------------------------------------------------------------------

  /** The last `::`-separated part of an event type, when there are at least three parts. */
  function EventName(typ: string): Option<string>
  {
    var parts := Split(typ, TypeSeparator);
    if |parts| < 3 then None else Some(parts[|parts| - 1])
  }

  /** The handler `processTx` runs for event `e`, if any. */
  function Dispatch(ctx: Ctx, e: Event): Option<Handler>
  {
    if !Contains(e.typ, ctx.moduleAddress) then None
    else match EventName(e.typ)
      case None => None
      case Some(name) => if name in ctx.handlers then Some(ctx.handlers[name]) else None
  }

  /** A name extracted from an event type ends the type: it holds no `::`,
      the type ends in `::` followed by it, and what comes before that
      contains another `::`. Where the type has three or more `:` in a row,
      the leftmost match decides, so the name may itself begin with `:`
      (`"a::b:::c"` gives `":c"`). */
  lemma EventNameShape(typ: string)
    ensures EventName(typ).Some? <==> |Split(typ, TypeSeparator)| >= 3
    ensures EventName(typ).Some? ==> LastSegment(typ, EventName(typ).value)
  {
    var parts := Split(typ, TypeSeparator);
    if |parts| >= 3 {
      LastPieceIsSegment(typ, parts);
    }
  }

  /** `name` is the final `::` segment of `typ`, and at least one more `::` precedes it. */
  predicate LastSegment(typ: string, name: string) {
    var cut := |typ| - |name| - 2;
    && !Contains(name, TypeSeparator)
    && 0 <= cut && typ[cut..] == TypeSeparator + name
    && Contains(typ[..cut], TypeSeparator)
  }

  lemma LastPieceIsSegment(typ: string, parts: seq<string>)
    requires parts == Split(typ, TypeSeparator) && |parts| >= 3
    ensures LastSegment(typ, parts[|parts| - 1])
  {
    var n := |parts|;
    var name := parts[n - 1];
    var front := parts[..n - 1];
    SplitPiecesAreFree(typ, TypeSeparator);
    assert !Contains(name, TypeSeparator);
    var p := Join(front, TypeSeparator);
    JoinedLast(typ, parts, front, name);
    JoinContainsSeparator(front, TypeSeparator);
    assert typ[..|p|] == p && typ[|p|..] == TypeSeparator + name;
  }

  /** A split's input is the join of all pieces but the last, `::`, and the last piece. */
  lemma JoinedLast(typ: string, parts: seq<string>, front: seq<string>, name: string)
    requires parts == Split(typ, TypeSeparator) && |parts| >= 2
    requires front == parts[..|parts| - 1] && name == parts[|parts| - 1]
    ensures typ == Join(front, TypeSeparator) + TypeSeparator + name
  {
    SplitJoin(typ, TypeSeparator);
    assert parts == front + [name];
    JoinSnoc(front, name, TypeSeparator);
  }

  /** A handler runs for an event exactly when all three filter rules hold:
      the type contains the module address, it splits into at least three
      `::` parts, and a handler is registered under the last part. */
  lemma DispatchRule(ctx: Ctx, tx: Transaction, e: Event)
    ensures var parts := Split(e.typ, TypeSeparator);
      Dispatch(ctx, e).Some? <==>
        Contains(e.typ, ctx.moduleAddress) && |parts| >= 3 && parts[|parts| - 1] in ctx.handlers
    ensures EventEffect(ctx, tx, e).outcome == Skipped <==> Dispatch(ctx, e).None?
  {
  }

  // ---------------------------------------------------------------------
  // The handlers
  // ---------------------------------------------------------------------

  /** A notification is sent only by the indexer, and only with a webhook client. */
  function Notify(svc: Service, n: Notification): (r: Option<Notification>)
    ensures r.Some? <==> svc == Indexer(true)
    ensures r.Some? ==> r.value == n
  {
    if svc.Indexer? && svc.webhookEnabled then Some(n) else None
  }

  /** The webhook payload of a mint. */
  function MintedNote(e: Event, tx: Transaction): WebhookPayload
  {
    WebhookPayload(e.typ, map[
      "market_address" := Str(StringField(e.data, "market_address")),
      "buyer" := Str(StringField(e.data, "user")),
      "is_yes_outcome" := Bool(BoolField(e.data, "is_yes")),
      "apt_amount_in" := Str(StringField(e.data, "apt_amount_in")),
      "shares_out" := Str(StringField(e.data, "shares_out"))], tx.hash, tx.sender)
  }

  /** The webhook payload of a burn. */
  function BurnedNote(e: Event, tx: Transaction): WebhookPayload
  {
    WebhookPayload(e.typ, map[
      "market_address" := Str(StringField(e.data, "market_address")),
      "seller" := Str(StringField(e.data, "user")),
      "is_yes_outcome" := Bool(BoolField(e.data, "is_yes")),
      "apt_amount_out" := Str(StringField(e.data, "apt_amount_out")),
      "shares_in" := Str(StringField(e.data, "shares_in"))], tx.hash, tx.sender)
  }

  /** The webhook payload of a market creation (indexer only). */
  function CreatedNote(e: Event, tx: Transaction): WebhookPayload
  {
    WebhookPayload(e.typ, map[
      "market_address" := Str(StringField(e.data, "market_address")),
      "creator" := Str(StringField(e.data, "creator")),
      "description" := Str(StringField(e.data, "description")),
      "resolution_timestamp" := Str(StringField(e.data, "resolution_timestamp"))], tx.hash, tx.sender)
  }

  /** What a webhook call posts: the event's type, the transaction's hash and
      sender, and data naming the market. A trade names the trader as `buyer`
      (mint) or `seller` (burn), its side as `is_yes_outcome`, and passes the
      two amounts on as the raw strings of the event, not divided into shares
      or APT; a creation passes on the creator, description and resolution
      time. */
  function Payload(n: Notification): (p: WebhookPayload)
    ensures p.eventType == n.e.typ && p.txHash == n.tx.hash && p.sender == n.tx.sender
    ensures "market_address" in p.data && p.data["market_address"] == Str(StringField(n.e.data, "market_address"))
    ensures n.Minted? ==>
      && p.data.Keys == {"market_address", "buyer", "is_yes_outcome", "apt_amount_in", "shares_out"}
      && p.data["buyer"] == Str(StringField(n.e.data, "user"))
      && p.data["is_yes_outcome"] == Bool(BoolField(n.e.data, "is_yes"))
      && p.data["apt_amount_in"] == Str(StringField(n.e.data, "apt_amount_in"))
      && p.data["shares_out"] == Str(StringField(n.e.data, "shares_out"))
    ensures n.Burned? ==>
      && p.data.Keys == {"market_address", "seller", "is_yes_outcome", "apt_amount_out", "shares_in"}
      && p.data["seller"] == Str(StringField(n.e.data, "user"))
      && p.data["is_yes_outcome"] == Bool(BoolField(n.e.data, "is_yes"))
      && p.data["apt_amount_out"] == Str(StringField(n.e.data, "apt_amount_out"))
      && p.data["shares_in"] == Str(StringField(n.e.data, "shares_in"))
    ensures n.Created? ==>
      && p.data.Keys == {"market_address", "creator", "description", "resolution_timestamp"}
      && p.data["creator"] == Str(StringField(n.e.data, "creator"))
      && p.data["description"] == Str(StringField(n.e.data, "description"))
      && p.data["resolution_timestamp"] == Str(StringField(n.e.data, "resolution_timestamp"))
  {
    match n
    case Minted(e, tx) => MintedNote(e, tx)
    case Burned(e, tx) => BurnedNote(e, tx)
    case Created(e, tx) => CreatedNote(e, tx)
  }

  /** The Activity row a trade event produces. */
  function TradeRow(action: Action, e: Event, tx: Transaction, sharesKey: string, aptKey: string): Activity
  {
    Activity(
      tx.hash,
      StringField(e.data, "market_address"),
      StringField(e.data, "user"),
      action,
      if BoolField(e.data, "is_yes") then Yes else No,
      Amount(StringField(e.data, sharesKey), ShareDecimals),
      Amount(StringField(e.data, aptKey), AptDecimals),
      tx.timestamp)
  }

  /** The store is written before the log line that slices the market and user addresses. */
  function TradeEffect(svc: Service, row: Activity, storeUp: bool, note: Notification): Effect
  {
    if !storeUp then Effect(Failed, NoWrite, None)
    else if SlicePanics(row.marketAddress, LogPrefixBytes) || SlicePanics(row.userAddress, LogPrefixBytes) then
      Effect(Panicked, InsertActivity(row), None)
    else Effect(Done, InsertActivity(row), Notify(svc, note))
  }

  /** `handleSharesMinted`: one BUY row keyed on the transaction hash. */
  function HandleSharesMinted(svc: Service, e: Event, tx: Transaction, storeUp: bool): Effect
  {
    TradeEffect(svc, TradeRow(Buy, e, tx, "shares_out", "apt_amount_in"), storeUp, Minted(e, tx))
  }

  lemma HandleSharesMintedSpec(svc: Service, e: Event, tx: Transaction, storeUp: bool)
    ensures var eff := HandleSharesMinted(svc, e, tx, storeUp);
      && (!storeUp ==> eff == Effect(Failed, NoWrite, None))
      && (storeUp ==> eff.write.InsertActivity?)
      && (eff.write.InsertActivity? ==>
            var row := eff.write.row;
            && row.txHash == tx.hash && row.action == Buy
            && (row.outcome == Yes <==> "is_yes" in e.data && e.data["is_yes"] == Bool(true))
            && row.marketAddress == StringField(e.data, "market_address")
            && row.userAddress == StringField(e.data, "user")
            && row.amount == Amount(StringField(e.data, "shares_out"), 6)
            && row.totalValue == Amount(StringField(e.data, "apt_amount_in"), 8))
      && (eff.outcome == Panicked <==>
            storeUp && (Utf8Len(StringField(e.data, "market_address")) < 10 || Utf8Len(StringField(e.data, "user")) < 10))
      && (eff.note.Some? <==> eff.outcome == Done && svc == Indexer(true))
  {
  }

  /** `handleSharesBurned`: one SELL row keyed on the transaction hash. */
  function HandleSharesBurned(svc: Service, e: Event, tx: Transaction, storeUp: bool): Effect
  {
    TradeEffect(svc, TradeRow(Sell, e, tx, "shares_in", "apt_amount_out"), storeUp, Burned(e, tx))
  }

  lemma HandleSharesBurnedSpec(svc: Service, e: Event, tx: Transaction, storeUp: bool)
    ensures var eff := HandleSharesBurned(svc, e, tx, storeUp);
      && (!storeUp ==> eff == Effect(Failed, NoWrite, None))
      && (storeUp ==> eff.write.InsertActivity?)
      && (eff.write.InsertActivity? ==>
            var row := eff.write.row;
            && row.txHash == tx.hash && row.action == Sell
            && (row.outcome == Yes <==> "is_yes" in e.data && e.data["is_yes"] == Bool(true))
            && row.marketAddress == StringField(e.data, "market_address")
            && row.userAddress == StringField(e.data, "user")
            && row.amount == Amount(StringField(e.data, "shares_in"), 6)
            && row.totalValue == Amount(StringField(e.data, "apt_amount_out"), 8))
      && (eff.outcome == Panicked <==>
            storeUp && (Utf8Len(StringField(e.data, "market_address")) < 10 || Utf8Len(StringField(e.data, "user")) < 10))
      && (eff.note.Some? <==> eff.outcome == Done && svc == Indexer(true))
  {
  }

  /** `handleMarketCreated`: never writes the store. The indexer copy notifies;
      the sync copy reads `market_obj_addr` instead of `market_address` and
      only logs. Both slice the market and creator addresses in a log line. */
  function HandleMarketCreated(svc: Service, e: Event, tx: Transaction): Effect
  {
    var market := StringField(e.data, if svc.Sync? then "market_obj_addr" else "market_address");
    var creator := StringField(e.data, "creator");
    if SlicePanics(market, LogPrefixBytes) || SlicePanics(creator, LogPrefixBytes) then
      Effect(Panicked, NoWrite, None)
    else
      Effect(Done, NoWrite, Notify(svc, Created(e, tx)))
  }

  lemma HandleMarketCreatedSpec(svc: Service, e: Event, tx: Transaction)
    ensures var eff := HandleMarketCreated(svc, e, tx);
      && eff.write == NoWrite
      && (eff.outcome == Done || eff.outcome == Panicked)
      && (eff.outcome == Panicked <==>
            var addrKey := if svc.Sync? then "market_obj_addr" else "market_address";
            Utf8Len(StringField(e.data, addrKey)) < 10 || Utf8Len(StringField(e.data, "creator")) < 10)
      && (eff.note.Some? <==> eff.outcome == Done && svc == Indexer(true))
  {
  }

  /** `handleMarketResolved`: the log line slicing the market address comes
      before the UPDATE; the UPDATE only touches the named market. */
  function HandleMarketResolved(e: Event, storeUp: bool): Effect
  {
    var market := StringField(e.data, "market_address");
    if SlicePanics(market, LogPrefixBytes) then Effect(Panicked, NoWrite, None)
    else if !storeUp then Effect(Failed, NoWrite, None)
    else Effect(Done, SetResolved(market), None)
  }

  lemma HandleMarketResolvedSpec(e: Event, storeUp: bool)
    ensures var eff := HandleMarketResolved(e, storeUp);
      && eff.note.None?
      && (eff.outcome == Panicked <==> Utf8Len(StringField(e.data, "market_address")) < 10)
      && (eff.outcome == Done <==> eff.write != NoWrite)
      && (eff.outcome == Done <==> storeUp && eff.outcome != Panicked)
      && (eff.write != NoWrite ==> eff.write == SetResolved(StringField(e.data, "market_address")))
  {
  }

  function RunHandler(svc: Service, h: Handler, e: Event, tx: Transaction, storeUp: bool): Effect
  {
    match h
    case SharesMinted => HandleSharesMinted(svc, e, tx, storeUp)
    case SharesBurned => HandleSharesBurned(svc, e, tx, storeUp)
    case MarketCreated => HandleMarketCreated(svc, e, tx)
    case MarketResolved => HandleMarketResolved(e, storeUp)
  }

  /** A registered handler always runs: its outcome is never `Skipped`. */
  lemma RunHandlerSpec(svc: Service, h: Handler, e: Event, tx: Transaction, storeUp: bool)
    ensures RunHandler(svc, h, e, tx, storeUp).outcome != Skipped
  {
  }

  /** What one event of a kept transaction does. */
  function EventEffect(ctx: Ctx, tx: Transaction, e: Event): Effect
  {
    match Dispatch(ctx, e)
    case None => Effect(Skipped, NoWrite, None)
    case Some(h) => RunHandler(ctx.svc, h, e, tx, ctx.storeUp(tx, e))
  }

  /** The sync service never sends a notification. */
  lemma SyncEventIsSilent(ctx: Ctx, tx: Transaction, e: Event)
    requires ctx.svc.Sync?
    ensures EventEffect(ctx, tx, e).note.None?
  {
  }

  // ---------------------------------------------------------------------
  // Traces
  // ---------------------------------------------------------------------

  /** The trace stops right after the first panic. */
  predicate Crashed(t: seq<Effect>) {
    |t| > 0 && t[|t| - 1].outcome == Panicked
  }

  predicate NoPanic(t: seq<Effect>) {
    forall i :: 0 <= i < |t| ==> t[i].outcome != Panicked
  }

  /** No effect before the last one is a panic. */
  predicate OnlyLastPanics(t: seq<Effect>) {
    forall i :: 0 <= i < |t| - 1 ==> t[i].outcome != Panicked
  }

  predicate Quiet(t: seq<Effect>) {
    forall i :: 0 <= i < |t| ==> t[i].note.None?
  }

  lemma ConcatTraces(a: seq<Effect>, b: seq<Effect>)
    ensures NoPanic(a) && NoPanic(b) ==> NoPanic(a + b)
    ensures NoPanic(a) && OnlyLastPanics(b) ==> OnlyLastPanics(a + b)
    ensures Crashed(b) ==> Crashed(a + b)
    ensures Quiet(a) && Quiet(b) ==> Quiet(a + b)
  {
    assert forall i :: |a| <= i < |a + b| ==> (a + b)[i] == b[i - |a|];
    assert forall i :: 0 <= i < |a| ==> (a + b)[i] == a[i];
  }

  /** The effects of the events of a kept transaction, in order: every event
      is handled, whatever earlier handlers returned, unless one panics. */
  function EventsTrace(ctx: Ctx, tx: Transaction, es: seq<Event>): seq<Effect>
  {
    if es == [] then []
    else
      var eff := EventEffect(ctx, tx, es[0]);
      if eff.outcome == Panicked then [eff] else [eff] + EventsTrace(ctx, tx, es[1..])
  }

  /** At most one effect per event; only the last effect can be a panic, and
      the events are cut short only by one. */
  lemma {:induction false} EventsTraceShape(ctx: Ctx, tx: Transaction, es: seq<Event>)
    ensures var t := EventsTrace(ctx, tx, es);
      |t| <= |es| && OnlyLastPanics(t) && (|t| < |es| ==> Crashed(t))
    decreases |es|
  {
    if es != [] {
      var eff := EventEffect(ctx, tx, es[0]);
      if eff.outcome != Panicked {
        EventsTraceShape(ctx, tx, es[1..]);
        ConcatTraces([eff], EventsTrace(ctx, tx, es[1..]));
      }
    }
  }

  /** The i-th effect of a transaction's trace is what its i-th event does. */
  lemma {:induction false} EventsTraceFollowsEvents(ctx: Ctx, tx: Transaction, es: seq<Event>)
    ensures var t := EventsTrace(ctx, tx, es);
      |t| <= |es| && forall i :: 0 <= i < |t| ==> t[i] == EventEffect(ctx, tx, es[i])
    decreases |es|
  {
    EventsTraceShape(ctx, tx, es);
    if es != [] && EventEffect(ctx, tx, es[0]).outcome != Panicked {
      EventsTraceFollowsEvents(ctx, tx, es[1..]);
      var t := EventsTrace(ctx, tx, es);
      var rest := EventsTrace(ctx, tx, es[1..]);
      assert t == [EventEffect(ctx, tx, es[0])] + rest;
      assert forall i :: 1 <= i < |t| ==> t[i] == rest[i - 1] && es[1..][i - 1] == es[i];
    }
  }

  /** A handler error does not stop the events after it: when no handler
      panics, every event of the transaction is dispatched, in order. */
  lemma HandlerErrorsDoNotStopEvents(ctx: Ctx, tx: Transaction, es: seq<Event>)
    requires forall i :: 0 <= i < |es| ==> EventEffect(ctx, tx, es[i]).outcome != Panicked
    ensures var t := EventsTrace(ctx, tx, es);
      |t| == |es| && forall i :: 0 <= i < |es| ==> t[i] == EventEffect(ctx, tx, es[i])
  {
    EventsTraceShape(ctx, tx, es);
    EventsTraceFollowsEvents(ctx, tx, es);
  }

  /** One step of a loop over a transaction's events: the trace so far is
      extended by the effect of event `i`, and stops there if it panicked. */
  lemma EventsTraceStep(ctx: Ctx, tx: Transaction, es: seq<Event>, i: nat, done: seq<Effect>, eff: Effect)
    requires i < |es| && eff == EventEffect(ctx, tx, es[i])
    requires EventsTrace(ctx, tx, es) == done + EventsTrace(ctx, tx, es[i..])
    ensures eff.outcome == Panicked ==> EventsTrace(ctx, tx, es) == done + [eff]
    ensures eff.outcome != Panicked ==>
      EventsTrace(ctx, tx, es) == (done + [eff]) + EventsTrace(ctx, tx, es[i + 1..])
  {
    assert es[i..][0] == es[i] && es[i..][1..] == es[i + 1..];
  }

  lemma {:induction false} SyncEventsAreQuiet(ctx: Ctx, tx: Transaction, es: seq<Event>)
    requires ctx.svc.Sync?
    ensures Quiet(EventsTrace(ctx, tx, es))
    decreases |es|
  {
    if es != [] {
      SyncEventIsSilent(ctx, tx, es[0]);
      if EventEffect(ctx, tx, es[0]).outcome != Panicked {
        SyncEventsAreQuiet(ctx, tx, es[1..]);
        ConcatTraces([EventEffect(ctx, tx, es[0])], EventsTrace(ctx, tx, es[1..]));
      }
    }
  }

  /** `processTx`: the effects of the events of a successful user transaction. */
  function TxTrace(ctx: Ctx, tx: Transaction): seq<Effect>
  {
    if !tx.success || tx.kind != UserTransaction then [] else EventsTrace(ctx, tx, tx.events)
  }

  /** `processTx` does nothing unless the transaction succeeded and is a user
      transaction; otherwise it handles its events in order, at most one effect
      each, all of them unless a handler panics, and the panic is the last effect. */
  lemma TxTraceShape(ctx: Ctx, tx: Transaction)
    ensures var t := TxTrace(ctx, tx);
      && (!tx.success || tx.kind != UserTransaction ==> t == [])
      && |t| <= |tx.events|
      && (tx.success && tx.kind == UserTransaction && !Crashed(t) ==> |t| == |tx.events|)
      && OnlyLastPanics(t)
      && (ctx.svc.Sync? ==> Quiet(t))
  {
    if tx.success && tx.kind == UserTransaction {
      EventsTraceShape(ctx, tx, tx.events);
      if ctx.svc.Sync? {
        SyncEventsAreQuiet(ctx, tx, tx.events);
      }
    }
  }

  /** The transactions of one batch, in ledger order, until the first panic. */
  function TxsTrace(ctx: Ctx, txs: seq<Transaction>): seq<Effect>
  {
    if txs == [] then []
    else
      var first := TxTrace(ctx, txs[0]);
      if Crashed(first) then first else first + TxsTrace(ctx, txs[1..])
  }

  /** Only the last effect of a batch can be a panic; the sync service's
      batches send no notification. */
  lemma {:induction false} TxsTraceShape(ctx: Ctx, txs: seq<Transaction>)
    ensures OnlyLastPanics(TxsTrace(ctx, txs))
    ensures ctx.svc.Sync? ==> Quiet(TxsTrace(ctx, txs))
    decreases |txs|
  {
    if txs != [] {
      var first := TxTrace(ctx, txs[0]);
      TxTraceShape(ctx, txs[0]);
      if !Crashed(first) {
        TxsTraceShape(ctx, txs[1..]);
        assert NoPanic(first);
        ConcatTraces(first, TxsTrace(ctx, txs[1..]));
      }
    }
  }

  /** One step of a loop over a batch: the trace so far is extended by the
      trace of transaction `j`, and stops there if it crashed. */
  lemma TxsTraceStep(ctx: Ctx, txs: seq<Transaction>, j: nat, done: seq<Effect>, t: seq<Effect>)
    requires j < |txs| && t == TxTrace(ctx, txs[j])
    requires TxsTrace(ctx, txs) == done + TxsTrace(ctx, txs[j..])
    ensures Crashed(t) ==> TxsTrace(ctx, txs) == done + t
    ensures !Crashed(t) ==> TxsTrace(ctx, txs) == (done + t) + TxsTrace(ctx, txs[j + 1..])
  {
    assert txs[j..][0] == txs[j] && txs[j..][1..] == txs[j + 1..];
  }

  /** The tables after the writes of a trace, applied in order. */
  function ApplyWrites(t: Tables, trace: seq<Effect>): Tables
  {
    if trace == [] then t
    else ApplyWrite(ApplyWrites(t, trace[..|trace| - 1]), trace[|trace| - 1].write)
  }

  function NoteSeq(n: Option<Notification>): seq<Notification>
  {
    if n.Some? then [n.value] else []
  }

  /** The webhook calls of a trace, in order. */
  function Notes(trace: seq<Effect>): seq<Notification>
  {
    if trace == [] then []
    else
      Notes(trace[..|trace| - 1]) + NoteSeq(trace[|trace| - 1].note)
  }

  /** One more effect: its write is applied last and its notification sent last. */
  lemma TraceSnoc(t: Tables, trace: seq<Effect>, eff: Effect)
    ensures ApplyWrites(t, trace + [eff]) == ApplyWrite(ApplyWrites(t, trace), eff.write)
    ensures Notes(trace + [eff]) == Notes(trace) + NoteSeq(eff.note)
  {
    assert (trace + [eff])[..|trace|] == trace;
  }

  lemma {:induction false} ApplyWritesConcat(t: Tables, a: seq<Effect>, b: seq<Effect>)
    ensures ApplyWrites(t, a + b) == ApplyWrites(ApplyWrites(t, a), b)
    decreases |b|
  {
    if b == [] {
      assert a + b == a;
    } else {
      var b' := b[..|b| - 1];
      ApplyWritesConcat(t, a, b');
      assert (a + b)[..|a + b| - 1] == a + b';
    }
  }

  lemma {:induction false} NotesConcat(a: seq<Effect>, b: seq<Effect>)
    ensures Notes(a + b) == Notes(a) + Notes(b)
    decreases |b|
  {
    if b == [] {
      assert a + b == a;
    } else {
      var b' := b[..|b| - 1];
      var last := b[|b| - 1];
      NotesConcat(a, b');
      assert (a + b)[..|a + b| - 1] == a + b' && (a + b)[|a + b| - 1] == last;
      assert Notes(a + b) == Notes(a + b') + NoteSeq(last.note);
      assert Notes(b) == Notes(b') + NoteSeq(last.note);
      assert (Notes(a) + Notes(b')) + NoteSeq(last.note) == Notes(a) + (Notes(b') + NoteSeq(last.note));
    }
  }

  lemma {:induction false} QuietTraceNotifiesNothing(trace: seq<Effect>)
    requires Quiet(trace)
    ensures Notes(trace) == []
    decreases |trace|
  {
    if trace != [] {
      QuietTraceNotifiesNothing(trace[..|trace| - 1]);
    }
  }

  // ---------------------------------------------------------------------
  // Idempotence of replays
  // ---------------------------------------------------------------------

  /** After a trace is applied, every write in it is absorbed by the tables. */
  lemma {:induction false} AppliedTraceIsAbsorbed(t: Tables, trace: seq<Effect>)
    ensures forall i :: 0 <= i < |trace| ==> Absorbs(ApplyWrites(t, trace), trace[i].write)
    decreases |trace|
  {
    if trace != [] {
      var front := trace[..|trace| - 1];
      var last := trace[|trace| - 1].write;
      AppliedTraceIsAbsorbed(t, front);
      var mid := ApplyWrites(t, front);
      forall i | 0 <= i < |trace|
        ensures Absorbs(ApplyWrites(t, trace), trace[i].write)
      {
        AbsorptionIsStable(mid, last, last);
        if i < |trace| - 1 {
          assert trace[i] == front[i];
          AbsorptionIsStable(mid, trace[i].write, last);
        }
      }
    }
  }

  /** Tables that absorb every write of a trace are left unchanged by it. */
  lemma {:induction false} AbsorbedTraceIsNoOp(t: Tables, trace: seq<Effect>)
    requires forall i :: 0 <= i < |trace| ==> Absorbs(t, trace[i].write)
    ensures ApplyWrites(t, trace) == t
    decreases |trace|
  {
    if trace != [] {
      var front := trace[..|trace| - 1];
      assert forall i :: 0 <= i < |front| ==> front[i] == trace[i];
      AbsorbedTraceIsNoOp(t, front);
      AbsorbedWriteIsNoOp(t, trace[|trace| - 1].write);
    }
  }

  /** Re-delivering any prefix of what was already applied leaves the Activity
      and Market tables unchanged: inserts are ignored on a known hash and a
      resolved market stays resolved. This is what makes a retried or replayed
      range safe. */
  lemma ReplayedPrefixIsAbsorbed(t: Tables, trace: seq<Effect>, replay: seq<Effect>)
    requires replay <= trace
    ensures ApplyWrites(ApplyWrites(t, trace), replay) == ApplyWrites(t, trace)
  {
    AppliedTraceIsAbsorbed(t, trace);
    var done := ApplyWrites(t, trace);
    assert forall i :: 0 <= i < |replay| ==> replay[i] == trace[i];
    AbsorbedTraceIsNoOp(done, replay);
  }

  // ---------------------------------------------------------------------
  // Batching (poll)
  // ---------------------------------------------------------------------

  datatype Batch = Batch(start: nat, limit: nat)

  /** The `limit` poll requests for a batch starting at `start`. */
  function BatchLimit(start: nat, end: nat): (limit: nat)
    requires start <= end
    ensures 1 <= limit <= BatchSize && start + limit <= end + 1
    ensures limit < BatchSize ==> start + limit == end + 1
  {
    if start + BatchSize > end then end - start + 1 else BatchSize
  }

  /** The batches that cover `[start, end]`, as poll's loop computes them. */
  function Batches(start: nat, end: nat): seq<Batch>
    decreases end + 1 - start
  {
    if start > end then []
    else
      var limit := BatchLimit(start, end);
      [Batch(start, limit)] + Batches(start + limit, end)
  }

  /** The batches are ascending and contiguous, start at `start`, end at
      `end`, each requests 1 to 100 versions, all but the last exactly 100,
      and together they request `end - start + 1` versions. */
  lemma {:induction false} BatchesCoverRange(start: nat, end: nat)
    requires start <= end
    ensures var bs := Batches(start, end);
      && |bs| > 0
      && bs[0].start == start
      && bs[|bs| - 1].start + bs[|bs| - 1].limit == end + 1
      && (forall i :: 0 <= i < |bs| ==> 1 <= bs[i].limit <= BatchSize)
      && (forall i :: 0 <= i < |bs| - 1 ==> bs[i].limit == BatchSize)
      && (forall i :: 0 <= i < |bs| - 1 ==> bs[i].start + bs[i].limit == bs[i + 1].start)
      && TotalLimit(bs) == end - start + 1
    decreases end + 1 - start
  {
    var limit := BatchLimit(start, end);
    var bs := Batches(start, end);
    var rest := Batches(start + limit, end);
    assert bs == [Batch(start, limit)] + rest;
    if start + limit <= end {
      BatchesCoverRange(start + limit, end);
      assert limit == BatchSize;
      assert forall i :: 1 <= i < |bs| ==> bs[i] == rest[i - 1];
      assert TotalLimit(bs) == limit + TotalLimit(rest);
    } else {
      assert rest == [];
      assert TotalLimit(bs) == limit + TotalLimit(rest);
    }
  }

  function TotalLimit(bs: seq<Batch>): nat
  {
    if bs == [] then 0 else bs[0].limit + TotalLimit(bs[1..])
  }

  predicate InBatch(b: Batch, v: nat) {
    b.start <= v < b.start + b.limit
  }

  /** Every version of the range lies in a requested batch. */
  lemma {:induction false} EveryVersionInABatch(start: nat, end: nat, v: nat)
    requires start <= v <= end
    ensures exists i :: 0 <= i < |Batches(start, end)| && InBatch(Batches(start, end)[i], v)
    decreases end + 1 - start
  {
    var limit := BatchLimit(start, end);
    var bs := Batches(start, end);
    var rest := Batches(start + limit, end);
    assert bs == [Batch(start, limit)] + rest;
    if v >= start + limit {
      EveryVersionInABatch(start + limit, end, v);
      var i :| 0 <= i < |rest| && InBatch(rest[i], v);
      assert bs[i + 1] == rest[i];
    } else {
      assert InBatch(bs[0], v);
    }
  }

  datatype WalkStatus = Completed | FetchFailed(err: LedgerError) | WalkCrashed

  datatype WalkResult = WalkResult(status: WalkStatus, trace: seq<Effect>, requests: seq<Batch>)

  /** What processing one fetched batch contributes to the trace. The walk
      is stated over any such runner, so that its lemmas do not depend on
      what the handlers do. */
  type Runner = seq<Transaction> -> seq<Effect>

  /** The runner of poll: the transactions of the batch, in ledger order. */
  function BatchRunner(ctx: Ctx): Runner {
    txs => TxsTrace(ctx, txs)
  }

  /** Only the last effect of a batch can be a panic; the sync service's
      batches send no notification. */
  lemma BatchRunnerShape(ctx: Ctx)
    ensures forall txs :: OnlyLastPanics(BatchRunner(ctx)(txs))
    ensures ctx.svc.Sync? ==> forall txs :: Quiet(BatchRunner(ctx)(txs))
  {
    forall txs ensures OnlyLastPanics(BatchRunner(ctx)(txs)) && (ctx.svc.Sync? ==> Quiet(BatchRunner(ctx)(txs))) {
      TxsTraceShape(ctx, txs);
    }
  }

  /** `run` is the batch runner of `ctx`. The link is used only where the
      trace of a batch is at hand. */
  ghost predicate RunsBatches(run: Runner, ctx: Ctx) {
    forall txs {:trigger TxsTrace(ctx, txs)} :: run(txs) == TxsTrace(ctx, txs)
  }

  /** Poll's `for start <= end` loop from `start`: fetch a batch, process its
      transactions, advance; a fetch error ends the walk, as does a panic. */
  function Walk(run: Runner, start: nat, end: nat, fetch: Fetcher): WalkResult
    decreases end + 1 - start
  {
    if start > end then WalkResult(Completed, [], [])
    else
      var limit := BatchLimit(start, end);
      var b := Batch(start, limit);
      match fetch(start, limit)
      case Failure(err) => WalkResult(FetchFailed(err), [], [b])
      case Success(txs) =>
        var t := run(txs);
        if Crashed(t) then WalkResult(WalkCrashed, t, [b])
        else
          var rest := Walk(run, start + limit, end, fetch);
          WalkResult(rest.status, t + rest.trace, [b] + rest.requests)
  }

  /** The requests of a walk are the batches of the range, in order, up to
      the one that failed or crashed; a completed walk requested them all; a
      failed walk reports the error of its last request. */
  lemma {:induction false} WalkRequests(run: Runner, start: nat, end: nat, fetch: Fetcher)
    ensures var r := Walk(run, start, end, fetch);
      && r.requests <= Batches(start, end)
      && (start <= end ==> |r.requests| > 0)
      && (r.status == Completed ==> r.requests == Batches(start, end))
      && (r.status.FetchFailed? ==>
            |r.requests| > 0 &&
            var b := r.requests[|r.requests| - 1];
            fetch(b.start, b.limit) == Failure(r.status.err))
    decreases end + 1 - start
  {
    if start <= end {
      var limit := BatchLimit(start, end);
      var b := Batch(start, limit);
      assert Batches(start, end) == [b] + Batches(start + limit, end);
      var f := fetch(start, limit);
      if f.Success? && !Crashed(run(f.value)) {
        var rest := Walk(run, start + limit, end, fetch);
        WalkRequests(run, start + limit, end, fetch);
        var reqs := [b] + rest.requests;
        assert Walk(run, start, end, fetch).requests == reqs;
        assert rest.requests != [] ==> reqs[|reqs| - 1] == rest.requests[|rest.requests| - 1];
      }
    }
  }

  /** Only a crashed walk holds a panic, as its last effect, when that holds
      of every batch. */
  lemma {:induction false} WalkPanics(run: Runner, start: nat, end: nat, fetch: Fetcher)
    requires forall txs :: OnlyLastPanics(run(txs))
    ensures var r := Walk(run, start, end, fetch);
      && (r.status == WalkCrashed ==> Crashed(r.trace))
      && (r.status != WalkCrashed ==> NoPanic(r.trace))
    decreases end + 1 - start
  {
    if start <= end {
      var limit := BatchLimit(start, end);
      var f := fetch(start, limit);
      if f.Success? {
        var t := run(f.value);
        if !Crashed(t) {
          assert NoPanic(t);
          var rest := Walk(run, start + limit, end, fetch);
          WalkPanics(run, start + limit, end, fetch);
          ConcatTraces(t, rest.trace);
        }
      }
    }
  }

  /** A walk whose batches send no notification sends none. */
  lemma {:induction false} WalkQuiet(run: Runner, start: nat, end: nat, fetch: Fetcher)
    requires forall txs :: Quiet(run(txs))
    ensures Quiet(Walk(run, start, end, fetch).trace)
    decreases end + 1 - start
  {
    if start <= end {
      var limit := BatchLimit(start, end);
      var f := fetch(start, limit);
      if f.Success? && !Crashed(run(f.value)) {
        var rest := Walk(run, start + limit, end, fetch);
        WalkQuiet(run, start + limit, end, fetch);
        ConcatTraces(run(f.value), rest.trace);
      }
    }
  }

  /** The walk from `first` has done the work `done` and has still to do the
      walk from `start`: same final status, and its trace is `done` followed
      by the trace of the rest. This is the invariant of poll's loop. */
  predicate WalkedUpTo(run: Runner, first: nat, start: nat, end: nat, fetch: Fetcher, done: seq<Effect>) {
    var w := Walk(run, first, end, fetch);
    var rest := Walk(run, start, end, fetch);
    w.status == rest.status && w.trace == done + rest.trace
  }

  /** The work of a trace followed by more work: the writes and the webhook
      calls of `t` come after those of `done`. */
  lemma ExtendTrace(t0: Tables, s0: seq<Notification>, done: seq<Effect>, t: seq<Effect>)
    ensures ApplyWrites(t0, done + t) == ApplyWrites(ApplyWrites(t0, done), t)
    ensures s0 + Notes(done + t) == (s0 + Notes(done)) + Notes(t)
  {
    ApplyWritesConcat(t0, done, t);
    NotesConcat(done, t);
  }

  lemma WalkStarts(run: Runner, first: nat, end: nat, fetch: Fetcher)
    ensures WalkedUpTo(run, first, first, end, fetch, [])
  {
    var w := Walk(run, first, end, fetch);
    assert [] + w.trace == w.trace;
  }

  /** The first iteration of the walk, unrolled. */
  lemma WalkFirstBatch(run: Runner, start: nat, end: nat, fetch: Fetcher)
    requires start <= end
    ensures var limit := BatchLimit(start, end);
      var w := Walk(run, start, end, fetch);
      match fetch(start, limit)
      case Failure(err) => w.status == FetchFailed(err) && w.trace == []
      case Success(txs) =>
        var t := run(txs);
        var rest := Walk(run, start + limit, end, fetch);
        if Crashed(t) then w.status == WalkCrashed && w.trace == t
        else w.status == rest.status && w.trace == t + rest.trace
  {
  }

  /** A failed fetch at `start` ends the walk with the work done so far. */
  lemma WalkFetchFails(run: Runner, first: nat, start: nat, end: nat, fetch: Fetcher, done: seq<Effect>, err: LedgerError)
    requires start <= end && fetch(start, BatchLimit(start, end)) == Failure(err)
    requires WalkedUpTo(run, first, start, end, fetch, done)
    ensures Walk(run, first, end, fetch).status == FetchFailed(err)
    ensures Walk(run, first, end, fetch).trace == done
  {
    WalkFirstBatch(run, start, end, fetch);
    assert done + [] == done;
  }

  /** A fetched batch at `start` extends the work done by its transactions'
      trace; the walk ends there if a handler panicked. */
  lemma WalkAdvances(run: Runner, first: nat, start: nat, end: nat, fetch: Fetcher, done: seq<Effect>, txs: seq<Transaction>)
    requires start <= end && fetch(start, BatchLimit(start, end)) == Success(txs)
    requires WalkedUpTo(run, first, start, end, fetch, done)
    ensures var t := run(txs);
      if Crashed(t) then
        Walk(run, first, end, fetch).status == WalkCrashed && Walk(run, first, end, fetch).trace == done + t
      else WalkedUpTo(run, first, start + BatchLimit(start, end), end, fetch, done + t)
  {
    WalkFirstBatch(run, start, end, fetch);
    var t := run(txs);
    if !Crashed(t) {
      var rest := Walk(run, start + BatchLimit(start, end), end, fetch).trace;
      assert done + (t + rest) == (done + t) + rest;
    }
  }

  /** The walk has passed the end of the range. */
  lemma WalkEnds(run: Runner, first: nat, start: nat, end: nat, fetch: Fetcher, done: seq<Effect>)
    requires start > end
    requires WalkedUpTo(run, first, start, end, fetch, done)
    ensures Walk(run, first, end, fetch).status == Completed
    ensures Walk(run, first, end, fetch).trace == done
  {
    assert done + [] == done;
  }

  /** Before the first batch: nothing done, nothing written, nothing sent. */
  lemma WalkBegins(run: Runner, first: nat, end: nat, fetch: Fetcher, t0: Tables, s0: seq<Notification>)
    ensures WalkedUpTo(run, first, first, end, fetch, [])
    ensures t0 == ApplyWrites(t0, []) && s0 == s0 + Notes([])
  {
    WalkStarts(run, first, end, fetch);
  }

  /** After the last batch, the tables and the webhook calls `t` and `s` are
      those of the whole walk. */
  lemma WalkFinished(run: Runner, first: nat, start: nat, end: nat, fetch: Fetcher, done: seq<Effect>,
                     t0: Tables, s0: seq<Notification>, t: Tables, s: seq<Notification>)
    requires start > end && WalkedUpTo(run, first, start, end, fetch, done)
    requires t == ApplyWrites(t0, done) && s == s0 + Notes(done)
    ensures var w := Walk(run, first, end, fetch);
      && w.status == Completed
      && t == ApplyWrites(t0, w.trace)
      && s == s0 + Notes(w.trace)
  {
    WalkEnds(run, first, start, end, fetch, done);
  }

  // ---------------------------------------------------------------------
  // One tick of the poller
  // ---------------------------------------------------------------------

  datatype PollResult = Polled | PollError(err: LedgerError) | PollCrashed

  /** `save` says whether `saveLastVersion` is attempted with `newLast`. */
  datatype TickResult = TickResult(result: PollResult, newLast: nat, trace: seq<Effect>, requests: seq<Batch>, save: bool)

  /** `poll`, given the answer of `GetLatestLedgerInfo` and of every range fetch. */
  function Tick(run: Runner, last: nat, latest: Result<nat, LedgerError>, fetch: Fetcher): TickResult
  {
    match latest
    case Failure(err) => TickResult(PollError(err), last, [], [], false)
    case Success(tip) =>
      if tip <= last then TickResult(Polled, last, [], [], false)
      else
        var w := Walk(run, last + 1, tip, fetch);
        match w.status
        case Completed => TickResult(Polled, tip, w.trace, w.requests, true)
        case FetchFailed(err) => TickResult(PollError(err), last, w.trace, w.requests, false)
        case WalkCrashed => TickResult(PollCrashed, last, w.trace, w.requests, false)
  }

  /** What one tick of the poller promises. */
  lemma TickSpec(run: Runner, last: nat, latest: Result<nat, LedgerError>, fetch: Fetcher)
    requires forall txs :: OnlyLastPanics(run(txs))
    ensures var r := Tick(run, last, latest, fetch);
      // the checkpoint never moves backwards, and moves only after a complete walk to the tip
      && r.newLast >= last
      && (r.save <==> r.newLast != last)
      && (r.save ==> r.result == Polled && latest == Success(r.newLast))
      // nothing new: nothing fetched, nothing changed
      && (latest.Success? && latest.value <= last ==> r == TickResult(Polled, last, [], [], false))
      && (latest.Failure? ==> r == TickResult(PollError(latest.error), last, [], [], false))
      // a new tip: the walk starts at last+1, and succeeds only after covering [last+1, tip]
      && (latest.Success? && latest.value > last ==>
            |r.requests| > 0 && r.requests <= Batches(last + 1, latest.value) &&
            (r.result == Polled <==> r.save) &&
            (r.save ==> r.requests == Batches(last + 1, latest.value)))
      // a fetch error is reported, with the checkpoint untouched
      && (latest.Success? && r.result.PollError? ==>
            |r.requests| > 0 &&
            var b := r.requests[|r.requests| - 1];
            fetch(b.start, b.limit) == Failure(r.result.err) && r.newLast == last)
      && (r.result == PollCrashed <==> Crashed(r.trace))
      && ((forall txs :: Quiet(run(txs))) ==> Quiet(r.trace))
  {
    if latest.Success? && latest.value > last {
      WalkRequests(run, last + 1, latest.value, fetch);
      WalkPanics(run, last + 1, latest.value, fetch);
      if forall txs :: Quiet(run(txs)) {
        WalkQuiet(run, last + 1, latest.value, fetch);
      }
    }
  }

  /** Running the same tick twice (the ledger is immutable, so a retried range
      returns the same transactions) leaves the tables as running it once. */
  lemma TickReplayIsIdempotent(run: Runner, last: nat, latest: Result<nat, LedgerError>, fetch: Fetcher, t: Tables)
    ensures var r := Tick(run, last, latest, fetch);
      ApplyWrites(ApplyWrites(t, r.trace), r.trace) == ApplyWrites(t, r.trace)
  {
    var r := Tick(run, last, latest, fetch);
    ReplayedPrefixIsAbsorbed(t, r.trace, r.trace);
  }

  /** A retry after a failure: applying the trace of a run that stopped
      early and then the trace of a run that redoes that work and more
      leaves the tables as the second run alone. */
  lemma RetriedTraceIsAbsorbed(t: Tables, first: seq<Effect>, retry: seq<Effect>)
    requires first <= retry
    ensures ApplyWrites(ApplyWrites(t, first), retry) == ApplyWrites(t, retry)
  {
    var more := retry[|first|..];
    assert retry == first + more;
    ApplyWritesConcat(ApplyWrites(t, first), first, more);
    ReplayedPrefixIsAbsorbed(t, first, first);
    ApplyWritesConcat(t, first, more);
  }

  /** The requests of a walk before its last one were answered the same way
      by `fetch2`. */
  predicate SameAnswersBeforeLast(reqs: seq<Batch>, fetch1: Fetcher, fetch2: Fetcher) {
    forall i :: 0 <= i < |reqs| - 1 ==> fetch2(reqs[i].start, reqs[i].limit) == fetch1(reqs[i].start, reqs[i].limit)
  }

  /** A walk that stopped on a fetch error, walked again from the same
      start up to the same or a later tip by a ledger that answers the
      batches that succeeded the same way, and with the same batch runner
      `run` (the same handler map, module address and database answer to
      every statement), redoes the same work first. */
  lemma {:induction false} RetriedWalkExtends(run: Runner, start: nat, end1: nat, end2: nat, fetch1: Fetcher, fetch2: Fetcher)
    requires end1 <= end2
    requires Walk(run, start, end1, fetch1).status.FetchFailed?
    requires SameAnswersBeforeLast(Walk(run, start, end1, fetch1).requests, fetch1, fetch2)
    ensures Walk(run, start, end1, fetch1).trace <= Walk(run, start, end2, fetch2).trace
    decreases end1 + 1 - start
  {
    var w1 := Walk(run, start, end1, fetch1);
    var limit := BatchLimit(start, end1);
    var f := fetch1(start, limit);
    if f.Success? {
      var t := run(f.value);
      var rest1 := Walk(run, start + limit, end1, fetch1);
      WalkRequests(run, start + limit, end1, fetch1);
      assert start + limit <= end1;
      assert limit == BatchSize && BatchLimit(start, end2) == BatchSize;
      assert w1.requests == [Batch(start, limit)] + rest1.requests;
      assert w1.requests[0] == Batch(start, limit);
      assert fetch2(start, limit) == f;
      forall i | 0 <= i < |rest1.requests| - 1
        ensures fetch2(rest1.requests[i].start, rest1.requests[i].limit) == fetch1(rest1.requests[i].start, rest1.requests[i].limit)
      {
        assert rest1.requests[i] == w1.requests[i + 1];
      }
      RetriedWalkExtends(run, start + limit, end1, end2, fetch1, fetch2);
    }
  }

  /** A tick that ends on a fetch error leaves the checkpoint where it was,
      so the next tick walks the same range again, up to the same or a later
      tip. When the ledger answers the batches that succeeded the first time
      the same way and the batch runner `run` is the same (the same handler
      map, module address and database answer to every statement), the first
      tick's trace is a prefix of the second's, and the tables after both
      ticks are those after the second tick alone. With different database
      answers this can fail: a refused insert lets a later event of the same
      transaction run, while an accepted one may panic before it. */
  lemma RetriedTickIsAbsorbed(run: Runner, last: nat, tip1: nat, tip2: nat, fetch1: Fetcher, fetch2: Fetcher, t: Tables)
    requires tip1 <= tip2
    requires Tick(run, last, Success(tip1), fetch1).result.PollError?
    requires SameAnswersBeforeLast(Tick(run, last, Success(tip1), fetch1).requests, fetch1, fetch2)
    ensures var r1 := Tick(run, last, Success(tip1), fetch1);
      var r2 := Tick(run, r1.newLast, Success(tip2), fetch2);
      && r1.newLast == last
      && r1.trace <= r2.trace
      && ApplyWrites(ApplyWrites(t, r1.trace), r2.trace) == ApplyWrites(t, r2.trace)
  {
    var r1 := Tick(run, last, Success(tip1), fetch1);
    RetriedWalkExtends(run, last + 1, tip1, tip2, fetch1, fetch2);
    RetriedTraceIsAbsorbed(t, r1.trace, Tick(run, last, Success(tip2), fetch2).trace);
  }

  /** The sync service's ticks never call the webhook. */
  lemma SyncTickIsSilent(ctx: Ctx, last: nat, latest: Result<nat, LedgerError>, fetch: Fetcher)
    requires ctx.svc.Sync?
    ensures Notes(Tick(BatchRunner(ctx), last, latest, fetch).trace) == []
  {
    BatchRunnerShape(ctx);
    TickSpec(BatchRunner(ctx), last, latest, fetch);
    QuietTraceNotifiesNothing(Tick(BatchRunner(ctx), last, latest, fetch).trace);
  }

  // ---------------------------------------------------------------------
  // The checkpoint row
  // ---------------------------------------------------------------------

  /** `loadLastVersion`: the stored decimal string, parsed; nothing when the
      database is unreachable, the row is missing or the value does not parse. */
  function LoadCheckpoint(storeUp: bool, row: Option<string>): (v: Option<nat>)
    ensures v.Some? ==> v.value <= MaxUint64
    ensures v.Some? <==> storeUp && row.Some? && ParseUint(row.value).Some?
  {
    if !storeUp || row.None? then None else ParseUint(row.value)
  }

  /** What `saveLastVersion` stores. */
  function CheckpointRow(v: nat): string
  {
    FormatUint(v)
  }

  /** A saved checkpoint is read back as the same version on restart. */
  lemma CheckpointRoundTrip(v: nat)
    requires v <= MaxUint64
    ensures LoadCheckpoint(true, Some(CheckpointRow(v))) == Some(v)
  {
    FormatParseRoundTrip(v);
  }
}
