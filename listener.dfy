/** The `EventListener` of both services as one class: the indexer copy
    (`svc == Indexer(..)`) and the sync copy (`svc == Sync`) differ only in
    the webhook and in what `handleMarketCreated` reads. The fields stand for
    the listener's own state (checkpoint and handler map) and for what it
    changes outside: the Activity and Market tables, the `sync_state`
    checkpoint row and the webhook calls made. Every method is proved
    against the pure pipeline in module Ingest. */
module Listener {
  import opened Wrappers
  import opened StringOps
  import opened Ledger
  import opened Store
  import opened Ingest

  class EventListener {
    const svc: Service
    const moduleAddress: string
    var lastVersion: nat
    var handlers: map<string, Handler>
    var tables: Tables
    /** The `last_indexed_version` row of `sync_state`, if present. */
    var checkpoint: Option<string>
    /** Every `SendEvent` call made so far, in order. */
    var sent: seq<Notification>

    /** `lastVersion` is a uint64. */
    ghost predicate Valid()
      reads this`lastVersion
    {
      lastVersion <= MaxUint64
    }

    /** The indexer's `NewEventListener`: an empty handler map and version
        0, with a webhook client exactly when a webhook URL is given. */
    constructor NewIndexer(moduleAddress: string, webhookURL: string, tables: Tables, checkpoint: Option<string>)
      ensures svc == Indexer(webhookURL != "") && this.moduleAddress == moduleAddress
      ensures lastVersion == 0 && handlers == map[]
      ensures this.tables == tables && this.checkpoint == checkpoint && sent == []
      ensures Valid()
    {
      svc := Indexer(webhookURL != "");
      this.moduleAddress := moduleAddress;
      lastVersion := 0;
      handlers := map[];
      this.tables := tables;
      this.checkpoint := checkpoint;
      sent := [];
    }

    /** The sync service's `NewEventListener`: an empty handler map and
        version 0, and no webhook client. */
    constructor NewSync(moduleAddress: string, tables: Tables, checkpoint: Option<string>)
      ensures svc == Sync && this.moduleAddress == moduleAddress
      ensures lastVersion == 0 && handlers == map[]
      ensures this.tables == tables && this.checkpoint == checkpoint && sent == []
      ensures Valid()
    {
      svc := Sync;
      this.moduleAddress := moduleAddress;
      lastVersion := 0;
      handlers := map[];
      this.tables := tables;
      this.checkpoint := checkpoint;
      sent := [];
    }

    /** What the pure pipeline needs to know about this listener during one call. */
    function Context(storeUp: StoreOracle): Ctx
      reads this`handlers
    {
      Ctx(svc, moduleAddress, handlers, storeUp)
    }

    method RegisterHandler(name: string, h: Handler)
      modifies this`handlers
      ensures handlers == old(handlers)[name := h]
    {
      handlers := handlers[name := h];
    }

    method RegisterDefaultHandlers()
      modifies this`handlers
      ensures handlers == WithDefaultHandlers(old(handlers))
    {
      RegisterHandler("SharesMintedEvent", SharesMinted);
      RegisterHandler("SharesBurnedEvent", SharesBurned);
      RegisterHandler("MarketCreatedEvent", MarketCreated);
      RegisterHandler("MarketResolvedEvent", MarketResolved);
    }

    // -------------------------------------------------------------------
    // Store statements
    // -------------------------------------------------------------------

    /** `INSERT INTO "Activity" ... ON CONFLICT ("txHash") DO NOTHING`. */
    method Insert(row: Activity)
      modifies this`tables
      ensures tables == ApplyWrite(old(tables), InsertActivity(row))
    {
      if row.txHash !in tables.activity {
        tables := tables.(activity := tables.activity[row.txHash := row]);
      }
    }

    /** `UPDATE "Market" SET status = 'resolved' WHERE "marketAddress" = addr`. */
    method MarkResolved(addr: string)
      modifies this`tables
      ensures tables == ApplyWrite(old(tables), SetResolved(addr))
    {
      if addr in tables.market {
        tables := tables.(market := tables.market[addr := ResolvedStatus]);
      }
    }

    /** `if l.webhookClient != nil { l.webhookClient.SendEvent(..) }`; the error is discarded. */
    method SendIfEnabled(n: Notification)
      modifies this`sent
      ensures sent == old(sent) + NoteSeq(Notify(svc, n))
    {
      if svc.Indexer? && svc.webhookEnabled {
        sent := sent + [n];
      }
    }

    // -------------------------------------------------------------------
    // The handlers
    // -------------------------------------------------------------------

    method HandleSharesMinted(e: Event, tx: Transaction, storeUp: bool) returns (outcome: Outcome)
      modifies this`tables, this`sent
      ensures var eff := Ingest.HandleSharesMinted(svc, e, tx, storeUp);
        && outcome == eff.outcome
        && tables == ApplyWrite(old(tables), eff.write)
        && sent == old(sent) + NoteSeq(eff.note)
    {
      var row := TradeRow(Buy, e, tx, "shares_out", "apt_amount_in");
      if !storeUp {
        return Failed;
      }
      Insert(row);
      if SlicePanics(row.marketAddress, LogPrefixBytes) || SlicePanics(row.userAddress, LogPrefixBytes) {
        return Panicked;
      }
      SendIfEnabled(Minted(e, tx));
      return Done;
    }

    method HandleSharesBurned(e: Event, tx: Transaction, storeUp: bool) returns (outcome: Outcome)
      modifies this`tables, this`sent
      ensures var eff := Ingest.HandleSharesBurned(svc, e, tx, storeUp);
        && outcome == eff.outcome
        && tables == ApplyWrite(old(tables), eff.write)
        && sent == old(sent) + NoteSeq(eff.note)
    {
      var row := TradeRow(Sell, e, tx, "shares_in", "apt_amount_out");
      if !storeUp {
        return Failed;
      }
      Insert(row);
      if SlicePanics(row.marketAddress, LogPrefixBytes) || SlicePanics(row.userAddress, LogPrefixBytes) {
        return Panicked;
      }
      SendIfEnabled(Burned(e, tx));
      return Done;
    }

    method HandleMarketCreated(e: Event, tx: Transaction) returns (outcome: Outcome)
      modifies this`tables, this`sent
      ensures var eff := Ingest.HandleMarketCreated(svc, e, tx);
        && outcome == eff.outcome
        && tables == old(tables)
        && sent == old(sent) + NoteSeq(eff.note)
    {
      var market := StringField(e.data, if svc.Sync? then "market_obj_addr" else "market_address");
      var creator := StringField(e.data, "creator");
      if SlicePanics(market, LogPrefixBytes) || SlicePanics(creator, LogPrefixBytes) {
        return Panicked;
      }
      if svc.Indexer? {
        SendIfEnabled(Created(e, tx));
      }
      return Done;
    }

    method HandleMarketResolved(e: Event, storeUp: bool) returns (outcome: Outcome)
      modifies this`tables, this`sent
      ensures var eff := Ingest.HandleMarketResolved(e, storeUp);
        && outcome == eff.outcome
        && tables == ApplyWrite(old(tables), eff.write)
        && sent == old(sent)
    {
      var market := StringField(e.data, "market_address");
      if SlicePanics(market, LogPrefixBytes) {
        return Panicked;
      }
      if !storeUp {
        return Failed;
      }
      MarkResolved(market);
      return Done;
    }

    /** Calls the registered handler. */
    method Run(h: Handler, e: Event, tx: Transaction, storeUp: bool) returns (outcome: Outcome)
      modifies this`tables, this`sent
      ensures var eff := RunHandler(svc, h, e, tx, storeUp);
        && outcome == eff.outcome
        && tables == ApplyWrite(old(tables), eff.write)
        && sent == old(sent) + NoteSeq(eff.note)
    {
      match h
      case SharesMinted => outcome := HandleSharesMinted(e, tx, storeUp);
      case SharesBurned => outcome := HandleSharesBurned(e, tx, storeUp);
      case MarketCreated => outcome := HandleMarketCreated(e, tx);
      case MarketResolved => outcome := HandleMarketResolved(e, storeUp);
    }

    /** The body of `processTx`'s event loop: the three filter rules, then the handler. */
    method HandleEvent(e: Event, tx: Transaction, storeUp: StoreOracle) returns (outcome: Outcome)
      modifies this`tables, this`sent
      ensures var eff := EventEffect(Ctx(svc, moduleAddress, handlers, storeUp), tx, e);
        && outcome == eff.outcome
        && tables == ApplyWrite(old(tables), eff.write)
        && sent == old(sent) + NoteSeq(eff.note)
    {
      outcome := Skipped;
      if Contains(e.typ, moduleAddress) {
        var parts := Split(e.typ, TypeSeparator);
        if |parts| >= 3 {
          var name := parts[|parts| - 1];
          if name in handlers {
            outcome := Run(handlers[name], e, tx, storeUp(tx, e));
          }
        }
      }
    }

    // -------------------------------------------------------------------
    // processTx
    // -------------------------------------------------------------------

    /** `processTx`. It always returns nil in the source; `crashed` reports
        that a handler panicked, which nothing recovers, so the process ends. */
    method ProcessTx(tx: Transaction, storeUp: StoreOracle) returns (crashed: bool)
      modifies this`tables, this`sent
      ensures var t := TxTrace(Context(storeUp), tx);
        && crashed == Crashed(t)
        && tables == ApplyWrites(old(tables), t)
        && sent == old(sent) + Notes(t)
    {
      if !tx.success || tx.kind != UserTransaction {
        assert sent == old(sent) + [];
        return false;
      }
      ghost var ctx := Context(storeUp);
      ghost var s0 := sent;
      ghost var done: seq<Effect> := [];
      var i := 0;
      while i < |tx.events|
        invariant 0 <= i <= |tx.events|
        invariant ctx == Context(storeUp)
        invariant EventsTrace(ctx, tx, tx.events) == done + EventsTrace(ctx, tx, tx.events[i..])
        invariant NoPanic(done)
        invariant tables == ApplyWrites(old(tables), done)
        invariant sent == s0 + Notes(done)
      {
        var e := tx.events[i];
        ghost var eff := EventEffect(ctx, tx, e);
        var outcome := HandleEvent(e, tx, storeUp);
        EventsTraceStep(ctx, tx, tx.events, i, done, eff);
        TraceSnoc(old(tables), done, eff);
        assert (s0 + Notes(done)) + NoteSeq(eff.note) == s0 + (Notes(done) + NoteSeq(eff.note));
        ConcatTraces(done, [eff]);
        done := done + [eff];
        if outcome == Panicked {
          return true;
        }
        i := i + 1;
      }
      assert tx.events[i..] == [];
      assert done + [] == done;
      assert TxTrace(ctx, tx) == done;
      return false;
    }

    // -------------------------------------------------------------------
    // poll
    // -------------------------------------------------------------------

    /** The loop of `poll` over the transactions of one fetched batch; it
        ends early when a handler panics. */
    method ProcessTxs(txs: seq<Transaction>, storeUp: StoreOracle) returns (crashed: bool)
      modifies this`tables, this`sent
      ensures var t := TxsTrace(Context(storeUp), txs);
        && crashed == Crashed(t)
        && tables == ApplyWrites(old(tables), t)
        && sent == old(sent) + Notes(t)
    {
      ghost var done: seq<Effect> := [];
      var j := 0;
      while j < |txs|
        invariant 0 <= j <= |txs|
        invariant TxsTrace(Context(storeUp), txs) == done + TxsTrace(Context(storeUp), txs[j..])
        invariant NoPanic(done)
        invariant tables == ApplyWrites(old(tables), done)
        invariant sent == old(sent) + Notes(done)
      {
        crashed, done := ProcessTxStep(txs, j, storeUp, done, old(tables), old(sent));
        if crashed {
          return;
        }
        j := j + 1;
      }
      assert txs[j..] == [] && done + [] == done;
      return false;
    }

    /** One iteration of the loop over a batch: transaction `j` after the
        work `done`. `t0` and `s0` are the tables and the webhook calls
        before the batch. */
    method ProcessTxStep(txs: seq<Transaction>, j: nat, storeUp: StoreOracle,
                         ghost done: seq<Effect>, ghost t0: Tables, ghost s0: seq<Notification>)
      returns (crashed: bool, ghost done': seq<Effect>)
      requires j < |txs|
      requires TxsTrace(Context(storeUp), txs) == done + TxsTrace(Context(storeUp), txs[j..])
      requires NoPanic(done)
      requires tables == ApplyWrites(t0, done) && sent == s0 + Notes(done)
      modifies this`tables, this`sent
      ensures tables == ApplyWrites(t0, done') && sent == s0 + Notes(done')
      ensures crashed ==> TxsTrace(Context(storeUp), txs) == done' && Crashed(done')
      ensures !crashed ==>
        NoPanic(done') && TxsTrace(Context(storeUp), txs) == done' + TxsTrace(Context(storeUp), txs[j + 1..])
    {
      ghost var ctx := Context(storeUp);
      ghost var t := TxTrace(ctx, txs[j]);
      crashed := ProcessTx(txs[j], storeUp);
      TxTraceShape(ctx, txs[j]);
      TxsTraceStep(ctx, txs, j, done, t);
      ExtendTrace(t0, s0, done, t);
      ConcatTraces(done, t);
      done' := done + t;
    }

    /** The `for start <= end` loop of `poll` over `[first, end]`: fetch a
        batch of at most 100 versions, process its transactions, advance.
        It returns early on a fetch error or when a handler panics. */
    method WalkRange(ghost run: Runner, first: nat, end: nat, fetch: Fetcher, storeUp: StoreOracle) returns (status: WalkStatus)
      requires first <= end <= MaxTip
      requires RunsBatches(run, Context(storeUp))
      modifies this`tables, this`sent
      ensures var w := Walk(run, first, end, fetch);
        && status == w.status
        && tables == ApplyWrites(old(tables), w.trace)
        && sent == old(sent) + Notes(w.trace)
    {
      var start := first;
      ghost var done: seq<Effect> := [];
      WalkBegins(run, first, end, fetch, tables, sent);
      while start <= end
        invariant first <= start <= end + 1
        invariant WalkedUpTo(run, first, start, end, fetch, done)
        invariant tables == ApplyWrites(old(tables), done)
        invariant sent == old(sent) + Notes(done)
        decreases end + 1 - start
      {
        var limit, stop;
        limit, stop, done := ProcessBatch(run, first, start, end, fetch, storeUp, done, old(tables), old(sent));
        if stop.Some? {
          return stop.value;
        }
        start := start + limit;
      }
      WalkFinished(run, first, start, end, fetch, done, old(tables), old(sent), tables, sent);
      status := Completed;
    }

    /** One iteration of poll's batch loop at `start`, after the work `done`
        starting from `first`: `stop` is the walk's final status when the
        fetch failed or a handler panicked, and `None` when the loop goes on
        at `start + limit`. `t0` and `s0` are the tables and the webhook calls
        before the walk. */
    method ProcessBatch(ghost run: Runner, ghost first: nat, start: nat, end: nat, fetch: Fetcher, storeUp: StoreOracle,
                        ghost done: seq<Effect>, ghost t0: Tables, ghost s0: seq<Notification>)
      returns (limit: nat, stop: Option<WalkStatus>, ghost done': seq<Effect>)
      requires first <= start <= end <= MaxTip
      requires RunsBatches(run, Context(storeUp))
      requires WalkedUpTo(run, first, start, end, fetch, done)
      requires tables == ApplyWrites(t0, done) && sent == s0 + Notes(done)
      modifies this`tables, this`sent
      ensures limit == BatchLimit(start, end) && start < start + limit <= end + 1
      ensures tables == ApplyWrites(t0, done') && sent == s0 + Notes(done')
      ensures stop.Some? ==>
        var w := Walk(run, first, end, fetch);
        && stop.value == w.status
        && tables == ApplyWrites(t0, w.trace)
        && sent == s0 + Notes(w.trace)
      ensures stop.None? ==> WalkedUpTo(run, first, start + limit, end, fetch, done')
    {
      limit := BatchSize;
      if start + limit > end {
        limit := end - start + 1;
      }
      var fetched := fetch(start, limit);
      if fetched.Failure? {
        WalkFetchFails(run, first, start, end, fetch, done, fetched.error);
        return limit, Some(FetchFailed(fetched.error)), done;
      }
      assert limit == BatchLimit(start, end);
      stop, done' := RunFetched(run, first, start, limit, end, fetch, storeUp, fetched.value, done, t0, s0);
    }

    /** The rest of an iteration of poll's batch loop, once the batch at
        `start` was fetched as `txs`: process its transactions. */
    method RunFetched(ghost run: Runner, ghost first: nat, start: nat, limit: nat, end: nat, fetch: Fetcher, storeUp: StoreOracle, txs: seq<Transaction>,
                      ghost done: seq<Effect>, ghost t0: Tables, ghost s0: seq<Notification>)
      returns (stop: Option<WalkStatus>, ghost done': seq<Effect>)
      requires first <= start <= end && limit == BatchLimit(start, end) && fetch(start, limit) == Success(txs)
      requires RunsBatches(run, Context(storeUp))
      requires WalkedUpTo(run, first, start, end, fetch, done)
      requires tables == ApplyWrites(t0, done) && sent == s0 + Notes(done)
      modifies this`tables, this`sent
      ensures tables == ApplyWrites(t0, done') && sent == s0 + Notes(done')
      ensures stop.Some? ==>
        var w := Walk(run, first, end, fetch);
        && stop.value == w.status
        && tables == ApplyWrites(t0, w.trace)
        && sent == s0 + Notes(w.trace)
      ensures stop.None? ==>
        WalkedUpTo(run, first, start + limit, end, fetch, done')
    {
      ghost var t := TxsTrace(Context(storeUp), txs);
      var crashed := ProcessTxs(txs, storeUp);
      ExtendTrace(t0, s0, done, t);
      WalkAdvances(run, first, start, end, fetch, done, txs);
      done' := done + t;
      stop := if crashed then Some(WalkCrashed) else None;
    }

    /** `poll`, given the answer of `GetLatestLedgerInfo`, the answers of the
        range fetches, the database's answer to each handler statement, and
        whether the checkpoint upsert succeeds. A failed save is only logged:
        the version still moves and `poll` still succeeds. */
    method Poll(latest: Result<nat, LedgerError>, fetch: Fetcher, storeUp: StoreOracle, saveUp: bool) returns (result: PollResult)
      requires Valid()
      requires latest.Success? ==> latest.value <= MaxTip
      modifies this`lastVersion, this`tables, this`sent, this`checkpoint
      ensures Valid()
      ensures var r := Tick(BatchRunner(Context(storeUp)), old(lastVersion), latest, fetch);
        && result == r.result
        && lastVersion == r.newLast
        && tables == ApplyWrites(old(tables), r.trace)
        && sent == old(sent) + Notes(r.trace)
        && checkpoint == (if r.save && saveUp then Some(CheckpointRow(r.newLast)) else old(checkpoint))
    {
      if latest.Failure? {
        return PollError(latest.error);
      }
      var latestVersion := latest.value;
      if latestVersion <= lastVersion {
        return Polled;
      }
      result := PollRange(latestVersion, fetch, storeUp, saveUp);
    }

    /** The part of `poll` after a new tip was seen: walk `(lastVersion, tip]`
        and advance and save the checkpoint only if the walk completed. */
    method PollRange(tip: nat, fetch: Fetcher, storeUp: StoreOracle, saveUp: bool) returns (result: PollResult)
      requires Valid() && lastVersion < tip <= MaxTip
      modifies this`lastVersion, this`tables, this`sent, this`checkpoint
      ensures Valid()
      ensures var r := Tick(BatchRunner(Context(storeUp)), old(lastVersion), Success(tip), fetch);
        && result == r.result
        && lastVersion == r.newLast
        && tables == ApplyWrites(old(tables), r.trace)
        && sent == old(sent) + Notes(r.trace)
        && checkpoint == (if r.save && saveUp then Some(CheckpointRow(r.newLast)) else old(checkpoint))
    {
      var status := WalkRange(BatchRunner(Context(storeUp)), lastVersion + 1, tip, fetch, storeUp);
      match status
      case FetchFailed(err) =>
        return PollError(err);
      case WalkCrashed =>
        return PollCrashed;
      case Completed =>
        lastVersion := tip;
        var saved := SaveLastVersion(saveUp);
        return Polled;
    }

    // -------------------------------------------------------------------
    // The checkpoint row and Start
    // -------------------------------------------------------------------

    /** `loadLastVersion`; `loaded` is false where the source returns an error. */
    method LoadLastVersion(storeUp: bool) returns (loaded: bool)
      modifies this`lastVersion
      ensures var v := LoadCheckpoint(storeUp, checkpoint);
        loaded == v.Some? && lastVersion == (if loaded then v.value else old(lastVersion))
    {
      if !storeUp || checkpoint.None? {
        return false;
      }
      var parsed := ParseUint(checkpoint.value);
      if parsed.None? {
        return false;
      }
      lastVersion := parsed.value;
      return true;
    }

    /** `saveLastVersion`: upserts the decimal form of `lastVersion`. */
    method SaveLastVersion(storeUp: bool) returns (saved: bool)
      modifies this`checkpoint
      ensures saved == storeUp
      ensures checkpoint == if storeUp then Some(CheckpointRow(lastVersion)) else old(checkpoint)
    {
      if !storeUp {
        return false;
      }
      checkpoint := Some(FormatUint(lastVersion));
      return true;
    }

    /** `Start` up to its ticker loop: resume from the stored checkpoint, or
        else from the current ledger tip, then register the default handlers.
        `err` is the error `Start` returns when the fallback also fails. */
    method Start(storeUp: bool, latest: Result<nat, LedgerError>) returns (err: Option<LedgerError>)
      requires Valid()
      requires latest.Success? ==> latest.value <= MaxUint64
      modifies this`lastVersion, this`handlers
      ensures Valid()
      ensures var stored := LoadCheckpoint(storeUp, old(checkpoint));
        && (stored.Some? ==> err.None? && lastVersion == stored.value)
        && (stored.None? && latest.Success? ==> err.None? && lastVersion == latest.value)
        && (stored.None? && latest.Failure? ==> err == Some(latest.error) && lastVersion == old(lastVersion))
      ensures err.None? ==> handlers == WithDefaultHandlers(old(handlers))
      ensures err.Some? ==> handlers == old(handlers)
    {
      var loaded := LoadLastVersion(storeUp);
      if !loaded {
        if latest.Failure? {
          return Some(latest.error);
        }
        lastVersion := latest.value;
      }
      RegisterDefaultHandlers();
      return None;
    }
  }
}
