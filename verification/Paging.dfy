/** Reading the accept log page by page, and what following the cursor adds up to. */
module Paging {
  import opened Types
  import opened Store
  import opened Archive
  import opened Invariant
  import opened Lifecycle
  import opened Operations
  import Runs

  const PAGE_BYTES: nat := 8 * MIB
  const MAX_QUERY_LIMIT: nat := 1000

  /** A cursor fixes the horizon `through`; 0 asks for a new one. */
  datatype Cursor = Cursor(storeId: string, after: nat, through: nat)
  datatype CursorText = Empty | Token(cursor: Cursor) | Garbage
  datatype Page = Page(storeId: string, highWater: nat, records: seq<BillingRecord>, next: Cursor, hasMore: bool)

  // ---- one page ------------------------------------------------------------------------------------

  /** The stored body of a sequence, hot or cached. */
  function BodyAt(db: Database, n: nat): Result<BillingRecord> {
    match Get(db, Events, Seq(n))
    case Some(Body(r)) => Ok(r)
    case Some(_) => Err(Unavailable)
    case None =>
      if n > Floor(db) then Err(Unavailable)
      else match Get(db, ArchiveCache, Seq(n))
        case Some(Body(r)) => Ok(r)
        case Some(_) => Err(Unavailable)
        case None => Err(ArchiveUnavailable)
  }

  predicate Intact(db: Database, r: BillingRecord, n: nat) {
    && r.sequence == n && Acceptable(r.event) && r.content == ContentOf(r.event)
    && (match Get(db, Ids, Name(r.event.id)) case Some(Num(_)) => true case _ => BindsTo(db, r))
  }

  function Bytes(records: seq<BillingRecord>): nat {
    if records == [] then 0 else Bytes(records[..|records| - 1]) + records[|records| - 1].Length()
  }

  /** The page after it has taken `records`, which start right after `after`. */
  function Gather(db: Database, after: nat, through: nat, limit: nat, records: seq<BillingRecord>): Result<seq<BillingRecord>>
    decreases limit - |records|
  {
    var n := after + |records| + 1;
    if n > through || |records| >= limit then Ok(records)
    else match BodyAt(db, n)
      case Err(e) => Err(e)
      case Ok(r) =>
        if Bytes(records) + r.Length() > PAGE_BYTES && records != [] then Ok(records)
        else if !Intact(db, r, n) then Err(Unavailable)
        else Gather(db, after, through, limit, records + [r])
  }

  predicate CursorFits(db: Database, c: Cursor) {
    && |c.storeId| == 32 && c.storeId == StoreId(db) && c.after <= Head(db) && c.through <= Head(db)
    && (c.through != 0 ==> c.after <= c.through)
  }

  /** Where the page starts; None when the cursor is refused. */
  function StartOf(db: Database, text: CursorText): Option<Cursor> {
    match text
    case Empty => Some(Cursor(StoreId(db), 0, Head(db)))
    case Garbage => None
    case Token(c) =>
      if !CursorFits(db, c) then None else Some(c.(through := if c.through == 0 then Head(db) else c.through))
  }

  function PageOf(db: Database, start: Cursor, records: seq<BillingRecord>): Page {
    var after := start.after + |records|;
    Page(StoreId(db), start.through, records,
         Cursor(StoreId(db), after, if after < start.through then start.through else 0), after < start.through)
  }

  function PageOutcome(db: Database, text: CursorText, limit: nat): Result<Page> {
    if limit < 1 || limit > MAX_QUERY_LIMIT then Err(CursorInvalid)
    else match StartOf(db, text)
      case None => Err(CursorInvalid)
      case Some(start) =>
        match Gather(db, start.after, start.through, limit, [])
        case Err(e) => Err(e)
        case Ok(records) => Ok(PageOf(db, start, records))
  }

  /** The loop of `Page`. */
  method GatherLoop(db: Database, after: nat, through: nat, limit: nat) returns (r: Result<seq<BillingRecord>>)
    ensures r == Gather(db, after, through, limit, [])
  {
    hide BodyAt, Intact;
    var at, records, pageBytes := after, [], 0;
    while at < through && |records| < limit
      invariant at == after + |records| && |records| <= limit && pageBytes == Bytes(records)
      invariant Gather(db, after, through, limit, records) == Gather(db, after, through, limit, [])
      decreases limit - |records|
    {
      var body := BodyAt(db, at + 1);
      if body.Err? { return Err(body.error); }
      var record := body.value;
      if pageBytes + record.Length() > PAGE_BYTES && records != [] { break; }
      if !Intact(db, record, at + 1) { return Err(Unavailable); }
      assert (records + [record])[..|records|] == records;
      records := records + [record];
      pageBytes := pageBytes + record.Length();
      at := at + 1;
    }
    r := Ok(records);
  }

  // ---- what a page shows ---------------------------------------------------------------------------------

  predicate Readable(db: Database, n: nat) { n > Floor(db) || Seq(n) in Rows(db, ArchiveCache) }

  /** Hot or cached, the body of a sequence is the accepted original; and only a retired body
      that is not cached is missing. */
  lemma BodyIsOriginal(db: Database, log: Log, n: nat)
    requires LedgerOk(db, log) && 1 <= n <= |log|
    ensures BodyAt(db, n) == if Readable(db, n) then Ok(log[n - 1]) else Err(ArchiveUnavailable)
    ensures Intact(db, log[n - 1], n)
  {
    hide LedgerOk, Intact, Floor;
    BodyRows(db, log, n);
    OriginalIntact(db, log, n);
  }

  lemma BodyRows(db: Database, log: Log, n: nat)
    requires LedgerOk(db, log) && 1 <= n <= |log|
    ensures Get(db, Events, Seq(n)) == if n > Floor(db) then Some(Body(log[n - 1])) else None
    ensures Seq(n) in Rows(db, ArchiveCache) ==> Get(db, ArchiveCache, Seq(n)) == Some(Body(log[n - 1]))
  {
    hide IdsOk, ReceiptIdsOk, ReceiptTimesOk, LogOk, CachedLength;
    if Seq(n) in Rows(db, Events) { assert Floor(db) < Seq(n).n; }
  }

  lemma OriginalIntact(db: Database, log: Log, n: nat)
    requires LedgerOk(db, log) && 1 <= n <= |log|
    ensures Intact(db, log[n - 1], n)
  {
    hide HotOk, ReceiptIdsOk, ReceiptTimesOk, CacheOk, ContentOf, Acceptable, EraOf;
    assert Decodes(log[n - 1], n) && Name(log[n - 1].event.id) in Rows(db, Ids);
  }

  predicate ReadsAs(db: Database, log: Log, n: nat) requires 1 <= n <= |log| {
    BodyAt(db, n) == (if Readable(db, n) then Ok(log[n - 1]) else Err(ArchiveUnavailable)) && Intact(db, log[n - 1], n)
  }

  ghost predicate AllReadAs(db: Database, log: Log) { forall n :: 1 <= n <= |log| ==> ReadsAs(db, log, n) }

  lemma LedgerReads(db: Database, log: Log)
    requires LedgerOk(db, log)
    ensures AllReadAs(db, log)
  {
    forall n | 1 <= n <= |log| ensures ReadsAs(db, log, n) { BodyIsOriginal(db, log, n); }
  }

  /** The next `k` records fit one page and can all be read. */
  predicate Fits(db: Database, log: Log, after: nat, k: nat) {
    && after + k <= |log| && Bytes(log[after..after + k]) <= PAGE_BYTES && forall n :: after < n <= after + k ==> Readable(db, n)
  }

  /** A page of `k` records is as long as its limit, its horizon and the byte bound let it be. */
  predicate FullPage(db: Database, log: Log, after: nat, through: nat, limit: nat, k: nat) {
    && Fits(db, log, after, k) && k <= limit && after + k <= through <= |log|
    && (k < limit && after + k < through ==> Readable(db, after + k + 1) && Bytes(log[after..after + k + 1]) > PAGE_BYTES)
  }

  /** After `k` records the page would need a retired body that is not cached. */
  predicate BlockedPage(db: Database, log: Log, after: nat, through: nat, limit: nat, k: nat) {
    Fits(db, log, after, k) && k < limit && after + k < through && !Readable(db, after + k + 1)
  }

  lemma OneMoreRecord(log: Log, after: nat, k: nat)
    requires after + k < |log|
    ensures log[after..after + k + 1] == log[after..after + k] + [log[after + k]]
    ensures Bytes(log[after..after + k + 1]) == Bytes(log[after..after + k]) + log[after + k].Length()
  {
    var longer := log[after..after + k + 1];
    assert longer == log[after..after + k] + [log[after + k]];
    assert longer[..|longer| - 1] == log[after..after + k];
  }

  lemma FirstFits(log: Log, after: nat)
    requires LogOk(log) && after < |log|
    ensures log[after].Length() <= PAGE_BYTES && log[after].Length() > 0
  {
    assert Decodes(log[after], after + 1);
  }

  lemma {:induction false} GatherServes(db: Database, log: Log, after: nat, through: nat, limit: nat, k: nat)
    requires LogOk(log) && AllReadAs(db, log) && Fits(db, log, after, k) && k <= limit && after + k <= through <= |log|
    ensures var g := Gather(db, after, through, limit, log[after..after + k]);
      && (g.Ok? ==> after + |g.value| <= |log| && g.value == log[after..after + |g.value|] && FullPage(db, log, after, through, limit, |g.value|))
      && (g.Err? ==> g.error == ArchiveUnavailable && exists j :: BlockedPage(db, log, after, through, limit, j))
    decreases limit - k
  {
    hide Intact, BodyAt, LogOk, Bytes;
    var records, n := log[after..after + k], after + k + 1;
    assert |records| == k;
    if n <= through && k < limit {
      assert ReadsAs(db, log, n);
      if Readable(db, n) {
        OneMoreRecord(log, after, k);
        if Bytes(records) + log[n - 1].Length() <= PAGE_BYTES {
          GatherServes(db, log, after, through, limit, k + 1);
        } else if k == 0 {
          NoBytes(log, after);
          FirstFits(log, after);
        }
      } else {
        assert BlockedPage(db, log, after, through, limit, k);
      }
    }
  }

  lemma NoBytes(log: Log, after: nat)
    requires after <= |log|
    ensures log[after..after] == [] && Bytes(log[after..after]) == 0
  {}

  lemma StartFits(db: Database, log: Log, text: CursorText)
    requires LedgerOk(db, log) && StartOf(db, text).Some?
    ensures var start := StartOf(db, text).value; start.after <= start.through <= |log|
  {}

  /** A page is a stretch of the accept log after its cursor, as long as the limit, the horizon
      and the byte bound let it be, and it moves the cursor behind itself; a well-formed request
      fails only because a retired body it would need is not cached. */
  ghost predicate ServesLog(db: Database, log: Log, start: Cursor, limit: nat, outcome: Result<Page>) {
    match outcome
    case Ok(page) =>
      && page.next.after == start.after + |page.records| <= page.highWater == start.through <= |log|
      && page.records == log[start.after..page.next.after]
      && page.storeId == page.next.storeId == StoreId(db)
      && page.hasMore == (page.next.after < page.highWater)
      && page.next.through == (if page.hasMore then page.highWater else 0)
      && (start.after < start.through ==> page.records != [])
      && |page.records| <= limit && Bytes(page.records) <= PAGE_BYTES
      && FullPage(db, log, start.after, start.through, limit, |page.records|)
    case Err(e) => e == ArchiveUnavailable && exists k :: BlockedPage(db, log, start.after, start.through, limit, k)
  }

  lemma StretchServes(db: Database, log: Log, text: CursorText, limit: nat, start: Cursor)
    requires LogOk(log) && AllReadAs(db, log) && 1 <= limit <= MAX_QUERY_LIMIT && StartOf(db, text) == Some(start)
    requires start.after <= start.through <= |log|
    ensures ServesLog(db, log, start, limit, PageOutcome(db, text, limit))
  {
    hide LogOk, AllReadAs, Gather, Bytes;
    NoBytes(log, start.after);
    GatherServes(db, log, start.after, start.through, limit, 0);
    if start.after < start.through { NotEmpty(db, log, start.after, start.through, limit); }
  }

  lemma NotEmpty(db: Database, log: Log, after: nat, through: nat, limit: nat)
    requires LogOk(log) && after < through && limit > 0
    ensures !FullPage(db, log, after, through, limit, 0)
  {
    hide LogOk;
    if through <= |log| {
      NoBytes(log, after);
      OneMoreRecord(log, after, 0);
      FirstFits(log, after);
    }
  }

  lemma PageServes(cfg: Config, db: Database, log: Log, text: CursorText, limit: nat)
    requires Inv(cfg, db, log) && 1 <= limit <= MAX_QUERY_LIMIT && StartOf(db, text).Some?
    ensures ServesLog(db, log, StartOf(db, text).value, limit, PageOutcome(db, text, limit))
  {
    hide PageOutcome, ServesLog, LogOk, IdsOk, HotOk, ReceiptIdsOk, ReceiptTimesOk, CacheOk, AllReadAs;
    StartFits(db, log, text);
    LedgerReads(db, log);
    StretchServes(db, log, text, limit, StartOf(db, text).value);
  }

  /** A request is refused as such exactly when the limit is out of range or the cursor is not
      one of this store within what was accepted; without a cursor it starts at the beginning
      and its horizon is the whole log. */
  lemma RefusesExactly(cfg: Config, db: Database, log: Log, text: CursorText, limit: nat)
    requires Inv(cfg, db, log) && |StoreId(db)| == 32
    ensures PageOutcome(db, text, limit) == Err(CursorInvalid) <==>
              || limit < 1 || limit > MAX_QUERY_LIMIT || text.Garbage?
              || (text.Token? && !(&& text.cursor.storeId == StoreId(db) && text.cursor.after <= |log| && text.cursor.through <= |log|
                                   && (text.cursor.through == 0 || text.cursor.after <= text.cursor.through)))
    ensures StartOf(db, Empty) == Some(Cursor(StoreId(db), 0, |log|))
  {
    hide Inv, Gather, ServesLog;
    HeadRead(cfg, db, log);
    if 1 <= limit <= MAX_QUERY_LIMIT && StartOf(db, text).Some? {
      PageServes(cfg, db, log, text, limit);
      ServedOrMissing(db, log, StartOf(db, text).value, limit, PageOutcome(db, text, limit));
    }
  }

  lemma HeadRead(cfg: Config, db: Database, log: Log)
    requires Inv(cfg, db, log)
    ensures Head(db) == |log|
  {
    hide SchemaOk, ProtocolOk;
  }

  lemma ServedOrMissing(db: Database, log: Log, start: Cursor, limit: nat, outcome: Result<Page>)
    requires ServesLog(db, log, start, limit, outcome)
    ensures outcome.Ok? || outcome.error == ArchiveUnavailable
  {
    hide FullPage, BlockedPage;
  }

  lemma {:induction false} BytesGrow(log: Log, after: nat, j: nat, k: nat)
    requires j <= k && after + k <= |log|
    ensures Bytes(log[after..after + j]) <= Bytes(log[after..after + k])
    decreases k
  {
    if j < k {
      BytesGrow(log, after, j, k - 1);
      OneMoreRecord(log, after, k - 1);
    }
  }

  /** At most one length is full, and then nothing blocks the page: so the two cases of
      `ServesLog` decide the answer, and the length of the page. */
  lemma PageDetermined(db: Database, log: Log, after: nat, through: nat, limit: nat, k: nat, j: nat)
    requires FullPage(db, log, after, through, limit, k)
    ensures FullPage(db, log, after, through, limit, j) ==> j == k
    ensures !BlockedPage(db, log, after, through, limit, j)
  {
    hide Bytes;
    if k < j && after + j <= |log| { BytesGrow(log, after, k + 1, j); }
    if j < k { BytesGrow(log, after, j + 1, k); }
  }

  // ---- following the cursor --------------------------------------------------------------------------------

  function Flatten(pages: seq<Page>): seq<BillingRecord> {
    if pages == [] then [] else Flatten(pages[..|pages| - 1]) + pages[|pages| - 1].records
  }

  function TextBefore(pages: seq<Page>, k: nat): CursorText requires k <= |pages| {
    if k == 0 then Empty else Token(pages[k - 1].next)
  }

  ghost predicate ServedAt(states: seq<Node>, at: seq<nat>, limits: seq<nat>, pages: seq<Page>, k: nat)
    requires k < |pages| == |at| == |limits|
  {
    && at[k] < |states| && (k > 0 ==> at[k - 1] <= at[k])
    && PageOutcome(states[at[k]].db, TextBefore(pages, k), limits[k]) == Ok(pages[k])
  }

  /** Pages read one after the other, each from the cursor of the one before, while the
      store goes through the history. */
  ghost predicate IsReading(cfg: Config, states: seq<Node>, events: seq<Event>, at: seq<nat>, limits: seq<nat>, pages: seq<Page>) {
    && Runs.IsHistory(cfg, states, events) && |pages| == |at| == |limits|
    && forall k :: 0 <= k < |pages| ==> ServedAt(states, at, limits, pages, k)
  }

  lemma ServedStarts(db: Database, text: CursorText, limit: nat)
    requires PageOutcome(db, text, limit).Ok?
    ensures 1 <= limit <= MAX_QUERY_LIMIT && StartOf(db, text).Some?
  {}

  lemma PageAt(cfg: Config, states: seq<Node>, events: seq<Event>, at: seq<nat>, limits: seq<nat>, pages: seq<Page>, k: nat)
    requires IsReading(cfg, states, events, at, limits, pages) && k < |pages|
    ensures at[k] < |states|
    ensures var log, page := states[at[k]].log, pages[k];
      var from := if k == 0 then 0 else pages[k - 1].next.after;
      && page.next.after == from + |page.records| <= page.highWater <= |log|
      && page.records == log[from..page.next.after]
      && (from < page.highWater ==> page.records != [])
      && page.hasMore == (page.next.after < page.highWater)
      && (page.hasMore ==> page.next.through == page.highWater)
      && (!page.hasMore ==> page.next.through == 0 && page.next.after == page.highWater)
      && (k > 0 && pages[k - 1].next.through != 0 ==> page.highWater == pages[k - 1].next.through)
  {
    hide Inv, Runs.IsHistory, PageOutcome;
    assert ServedAt(states, at, limits, pages, k);
    Runs.HistoryInv(cfg, states, events, at[k]);
    ServedStarts(states[at[k]].db, TextBefore(pages, k), limits[k]);
    PageServes(cfg, states[at[k]].db, states[at[k]].log, TextBefore(pages, k), limits[k]);
  }

  /** Whatever happens between the requests, the successful pages add up to exactly the
      records 1..k of the accept log in order: no gap, no repeat, original content. */
  lemma {:induction false} PagesAddUp(cfg: Config, states: seq<Node>, events: seq<Event>, at: seq<nat>, limits: seq<nat>,
                                      pages: seq<Page>, k: nat)
    requires IsReading(cfg, states, events, at, limits, pages) && k < |pages|
    ensures at[k] < |states| && pages[k].next.after <= |states[at[k]].log|
    ensures Flatten(pages[..k + 1]) == states[at[k]].log[..pages[k].next.after]
    decreases k
  {
    hide Later, PageOutcome, Runs.IsHistory, Promises;
    PageAt(cfg, states, events, at, limits, pages, k);
    assert pages[..k + 1][..k] == pages[..k];
    if k > 0 {
      PagesAddUp(cfg, states, events, at, limits, pages, k - 1);
      assert ServedAt(states, at, limits, pages, k);
      Runs.NothingTakenBack(cfg, states, events, at[k - 1], at[k]);
      var log, from, to := states[at[k]].log, pages[k - 1].next.after, pages[k].next.after;
      assert states[at[k - 1]].log[..from] == log[..from];
      assert log[..from] + log[from..to] == log[..to];
    }
  }

  /** A horizon is fixed by its first page: until a page is final the high water stays, each
      page advances, and the final page ends exactly at it. */
  lemma HorizonStays(cfg: Config, states: seq<Node>, events: seq<Event>, at: seq<nat>, limits: seq<nat>, pages: seq<Page>, k: nat)
    requires IsReading(cfg, states, events, at, limits, pages) && k + 1 < |pages|
    ensures pages[k].hasMore ==> pages[k + 1].highWater == pages[k].highWater && pages[k].next.after < pages[k + 1].next.after
    ensures !pages[k].hasMore ==> pages[k].next.after == pages[k].highWater
    ensures !pages[k].hasMore ==> at[k + 1] < |states| && pages[k + 1].highWater == Head(states[at[k + 1]].db)
  {
    PageAt(cfg, states, events, at, limits, pages, k);
    PageAt(cfg, states, events, at, limits, pages, k + 1);
    assert ServedAt(states, at, limits, pages, k + 1);
  }

  lemma CursorKept(d: Database, db: Database, c: Cursor)
    requires CursorFits(db, c) && Promises(d, db)
    ensures CursorFits(d, c)
  {}

  lemma NextFits(cfg: Config, db: Database, log: Log, text: CursorText, limit: nat)
    requires Inv(cfg, db, log) && PageOutcome(db, text, limit).Ok? && |StoreId(db)| == 32
    ensures CursorFits(db, PageOutcome(db, text, limit).value.next)
  {
    PageServes(cfg, db, log, text, limit);
  }

  /** A cursor once handed out is accepted by every later state. */
  lemma CursorAccepted(cfg: Config, states: seq<Node>, events: seq<Event>, i: nat, j: nat, text: CursorText, limit: nat)
    requires Runs.IsHistory(cfg, states, events) && i <= j < |states| && |StoreId(states[i].db)| == 32
    requires PageOutcome(states[i].db, text, limit).Ok?
    ensures CursorFits(states[j].db, PageOutcome(states[i].db, text, limit).value.next)
  {
    Runs.HistoryInv(cfg, states, events, i);
    Runs.NothingTakenBack(cfg, states, events, i, j);
    NextFits(cfg, states[i].db, states[i].log, text, limit);
    CursorKept(states[j].db, states[i].db, PageOutcome(states[i].db, text, limit).value.next);
  }
}
