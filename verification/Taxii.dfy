/**
 Running one TAXII collection: the loop, a history of processes running it, and what survives.

 The environment is a script of ticks, one for each turn of the loop. It decides cancellation,
 the server's answer, whether each transaction commits, and whether the process is killed between
 ingesting a page and persisting the cursor. A script that runs out kills the process at a loop head.
 */
module Taxii {
  import opened Machine
  import opened Feed

  datatype Page = Page(
    entries: seq<Entry>, newest: Option<Stamp>, next: Option<Token>, more: bool, etag: Option<Tag>)

  /** `Unchanged` is a 304; `Refused` is any failed fetch. */
  datatype Answer = Got(page: Page) | Unchanged | Refused

  /** `held` and `tag` are what the server holds, and the tag it would give that, as it answers. */
  datatype Tick = Tick(
    cancelled: bool, answer: Answer, ingested: bool, killed: bool, persisted: bool,
    held: seq<Entry>, tag: Tag)

  datatype Run =
    | Live(db: Db, cursor: Cursor, pages: u64, objects: u64, next: Option<Token>, etag: Option<Tag>)
    | Done(db: Db, outcome: Outcome)

  function OutcomeOf(run: Run): Outcome {
    if run.Done? then run.outcome else Killed
  }

  function Begin(db: Db, options: Options, now: Stamp): Run {
    var cursor := CursorOf(db, now);
    Live(db, cursor, 0, 0, cursor.nextToken, if options.useEtag then cursor.etag else None)
  }

  /** Persist and report; a failed transaction is an error and leaves the stored cursor alone. */
  function Conclude(db: Db, report: Report, persisted: bool): Run {
    if persisted then Done(db.(saved := Some(report.cursor)), Finished(report)) else Done(db, Broke)
  }

  /** Record a failure against the position of the last good page, if that can be written at all. */
  function Abandon(db: Db, cursor: Cursor, now: Stamp, persisted: bool): Run {
    var failed := cursor.(lastStatus := Failed, lastRunAt := now);
    Done(if persisted then db.(saved := Some(failed)) else db, Broke)
  }

  /** The cursor once a page's records are stored. */
  function Moved(cursor: Cursor, page: Page, now: Stamp): Cursor {
    Cursor(
      page.newest.Or(cursor.addedAfter),
      page.etag.Or(cursor.etag),
      if page.more then page.next else None,
      now,
      if page.more then Partial else Complete,
      SatAdd(cursor.recordsSeen, |page.entries|))
  }

  /** One turn of the loop. */
  function Advance(run: Run, options: Options, now: Stamp, tick: Tick): Run
    requires run.Live?
  {
    var Live(db, cursor, pages, objects, next, etag) := run;
    if tick.cancelled then
      Conclude(db, Report(pages, objects, false, cursor.(lastStatus := Partial, lastRunAt := now)), tick.persisted)
    else if pages >= options.maxPages then
      Conclude(db,
               Report(pages, objects, false, cursor.(lastStatus := Partial, nextToken := next, lastRunAt := now)),
               tick.persisted)
    else
      match tick.answer
      case Unchanged =>
        Conclude(db, Report(pages, objects, true, cursor.(lastStatus := NotModified, lastRunAt := now)), tick.persisted)
      case Refused => Abandon(db, cursor, now, tick.persisted)
      case Got(page) =>
        var pages' := SatAdd(pages, 1);
        var objects' := SatAdd(objects, |page.entries|);
        if page.entries == [] then
          var ended := cursor.(lastStatus := Complete, nextToken := None);
          var last := ended.(etag := page.etag.Or(cursor.etag), lastRunAt := now);
          Conclude(db, Report(pages', objects', false, last), tick.persisted)
        else if !tick.ingested then
          Abandon(db, cursor, now, tick.persisted)
        else
          var filled := db.(stored := db.stored + Contents(page.entries));
          var moved := Moved(cursor, page, now);
          if tick.killed then Done(filled, Killed)
          else if !tick.persisted then Done(filled, Broke)
          else if !page.more then
            Done(filled.(saved := Some(moved)), Finished(Report(pages', objects', false, moved)))
          else Live(filled.(saved := Some(moved)), moved, pages', objects', page.next, None)
  }

  /** A whole process: turns until the run ends or the script does. */
  function Drive(run: Run, options: Options, now: Stamp, ticks: seq<Tick>): Run
    decreases |ticks|
  {
    if run.Done? || ticks == [] then run
    else Drive(Advance(run, options, now, ticks[0]), options, now, ticks[1..])
  }

  /** The loop itself, writing through the store. */
  method SyncCollection(store: Store, options: Options, now: Stamp, env: seq<Tick>) returns (outcome: Outcome)
    modifies store
    ensures var run := Drive(Begin(old(store.View()), options, now), options, now, env);
            store.View() == run.db && outcome == OutcomeOf(run)
  {
    var cursor := if store.saved.Some? then store.saved.value else Cursor(None, None, None, now, Complete, 0);
    var pages: u64, objects: u64 := 0, 0;
    var next := cursor.nextToken;
    var etag := if options.useEtag then cursor.etag else None;
    var turn := 0;
    while turn < |env|
      invariant 0 <= turn <= |env|
      invariant Drive(Live(store.View(), cursor, pages, objects, next, etag), options, now, env[turn..])
             == Drive(Begin(old(store.View()), options, now), options, now, env)
    {
      var tick := env[turn];
      assert env[turn..][1..] == env[turn + 1..];
      turn := turn + 1;
      if tick.cancelled {
        cursor := cursor.(lastStatus := Partial, lastRunAt := now);
        var ok := store.Persist(cursor, tick.persisted);
        return if ok then Finished(Report(pages, objects, false, cursor)) else Broke;
      }
      if pages >= options.maxPages {
        cursor := cursor.(lastStatus := Partial, nextToken := next, lastRunAt := now);
        var ok := store.Persist(cursor, tick.persisted);
        return if ok then Finished(Report(pages, objects, false, cursor)) else Broke;
      }
      if tick.answer.Unchanged? {
        cursor := cursor.(lastStatus := NotModified, lastRunAt := now);
        var ok := store.Persist(cursor, tick.persisted);
        return if ok then Finished(Report(pages, objects, true, cursor)) else Broke;
      }
      if tick.answer.Refused? {
        var _ := store.Persist(cursor.(lastStatus := Failed, lastRunAt := now), tick.persisted);
        return Broke;
      }
      var page := tick.answer.page;
      pages := SatAdd(pages, 1);
      objects := SatAdd(objects, |page.entries|);
      if page.entries == [] {
        cursor := cursor.(lastStatus := Complete, nextToken := None);
        cursor := cursor.(etag := page.etag.Or(cursor.etag), lastRunAt := now);
        var ok := store.Persist(cursor, tick.persisted);
        return if ok then Finished(Report(pages, objects, false, cursor)) else Broke;
      }
      var ingested := store.Ingest(Contents(page.entries), tick.ingested);
      if !ingested {
        var _ := store.Persist(cursor.(lastStatus := Failed, lastRunAt := now), tick.persisted);
        return Broke;
      }
      if page.newest.Some? {
        cursor := cursor.(addedAfter := page.newest);
      }
      cursor := cursor.(etag := page.etag.Or(cursor.etag), recordsSeen := SatAdd(cursor.recordsSeen, |page.entries|));
      cursor := cursor.(lastRunAt := now, lastStatus := if page.more then Partial else Complete);
      cursor := cursor.(nextToken := if page.more then page.next else None);
      if tick.killed {
        return Killed;
      }
      var ok := store.Persist(cursor, tick.persisted);
      if !ok {
        return Broke;
      }
      if !page.more {
        return Finished(Report(pages, objects, false, cursor));
      }
      next := page.next;
      etag := None;
    }
    return Killed;
  }

  // ----- one process, any server -----

  /** Whether this turn reaches the server at all. */
  predicate Asks(run: Run, options: Options, tick: Tick)
    requires run.Live?
  {
    !tick.cancelled && run.pages < options.maxPages
  }

  /** The three answers after which the code calls a run complete. */
  predicate Ends(answer: Answer) {
    answer.Unchanged? || (answer.Got? && (answer.page.entries == [] || !answer.page.more))
  }

  /** The process ends on turn `k`, having asked and been given one of those answers. */
  ghost predicate EndsAt(run: Run, options: Options, now: Stamp, ticks: seq<Tick>, k: nat)
    requires k < |ticks|
  {
    var head := Drive(run, options, now, ticks[..k]);
    && head.Live? && Asks(head, options, ticks[k]) && Ends(ticks[k].answer)
    && Drive(run, options, now, ticks) == Advance(head, options, now, ticks[k])
  }

  /** What holds at every loop head of a process that started from `first`. */
  ghost predicate Steady(first: Cursor, options: Options, run: Run) {
    run.Live? ==>
      && run.next == run.cursor.nextToken
      && run.pages <= options.maxPages
      && run.cursor.recordsSeen == SatAdd(first.recordsSeen, run.objects)
      && run.etag == (if run.pages == 0 && options.useEtag then first.etag else None)
      && (run.pages == 0 ==> run.cursor == first)
  }

  lemma {:induction false} SteadyThroughout(first: Cursor, run: Run, options: Options, now: Stamp, ticks: seq<Tick>)
    requires Steady(first, options, run)
    ensures Steady(first, options, Drive(run, options, now, ticks))
    decreases |ticks|
  {
    if run.Live? && ticks != [] {
      SteadyThroughout(first, Advance(run, options, now, ticks[0]), options, now, ticks[1..]);
    }
  }

  /** The turn on which a process ended. */
  lemma {:induction false} LastTurn(run: Run, options: Options, now: Stamp, ticks: seq<Tick>) returns (k: nat)
    requires run.Live? && Drive(run, options, now, ticks).Done?
    ensures k < |ticks|
    ensures var head := Drive(run, options, now, ticks[..k]);
            head.Live? && Drive(run, options, now, ticks) == Advance(head, options, now, ticks[k])
    decreases |ticks|
  {
    var step := Advance(run, options, now, ticks[0]);
    if step.Done? {
      k := 0;
    } else {
      var rest := LastTurn(step, options, now, ticks[1..]);
      k := rest + 1;
      assert ticks[..k][1..] == ticks[1..][..rest];
    }
  }

  /** At every loop head the local token is the cursor's, and only a first request can be conditional. */
  lemma {:induction false} LoopHeads(db: Db, options: Options, now: Stamp, ticks: seq<Tick>)
    ensures var head := Drive(Begin(db, options, now), options, now, ticks);
            head.Live? ==>
              && head.next == head.cursor.nextToken
              && (head.etag.Some? ==> head.pages == 0 && options.useEtag && head.etag == CursorOf(db, now).etag)
  {
    SteadyThroughout(CursorOf(db, now), Begin(db, options, now), options, now, ticks);
  }

  lemma {:induction false} FinishingTurn(first: Cursor, head: Run, options: Options, now: Stamp, tick: Tick)
    requires head.Live? && Steady(first, options, head)
    requires OutcomeOf(Advance(head, options, now, tick)).Finished?
    ensures var end := Advance(head, options, now, tick);
            var report := end.outcome.report;
            && report.pages <= options.maxPages
            && report.cursor.recordsSeen == SatAdd(first.recordsSeen, report.objects)
            && end.db.saved == Some(report.cursor) && report.cursor.lastRunAt == now
            && (report.notModified <==> report.cursor.lastStatus.NotModified?)
            && (report.IsComplete() ==> report.notModified || report.cursor.nextToken.None?)
            && (report.IsComplete() <==> Asks(head, options, tick) && Ends(tick.answer))
  {
  }

  /**
   What a report means, whatever the server did: the page bound held, `records_seen` grew by exactly
   the objects counted, the reported cursor is the stored one, and the run is called complete
   exactly when its last turn asked and got an empty page, a last page, or a 304.
   */
  lemma {:induction false} ReportMeans(db: Db, options: Options, now: Stamp, ticks: seq<Tick>)
    requires OutcomeOf(Drive(Begin(db, options, now), options, now, ticks)).Finished?
    ensures var run := Drive(Begin(db, options, now), options, now, ticks);
            var report := run.outcome.report;
            && report.pages <= options.maxPages
            && report.cursor.recordsSeen == SatAdd(CursorOf(db, now).recordsSeen, report.objects)
            && run.db.saved == Some(report.cursor) && report.cursor.lastRunAt == now
            && (report.notModified <==> report.cursor.lastStatus.NotModified?)
            && (report.IsComplete() ==> report.notModified || report.cursor.nextToken.None?)
    ensures var begin := Begin(db, options, now);
            Drive(begin, options, now, ticks).outcome.report.IsComplete() <==>
            exists k :: 0 <= k < |ticks| && EndsAt(begin, options, now, ticks, k)
  {
    var k := LastTurn(Begin(db, options, now), options, now, ticks);
    var begin := Begin(db, options, now);
    SteadyThroughout(CursorOf(db, now), begin, options, now, ticks[..k]);
    FinishingTurn(CursorOf(db, now), Drive(begin, options, now, ticks[..k]), options, now, ticks[k]);
    assert OutcomeOf(Drive(begin, options, now, ticks)).report.IsComplete() ==> EndsAt(begin, options, now, ticks, k);
    forall j | 0 <= j < |ticks| && EndsAt(begin, options, now, ticks, j)
      ensures OutcomeOf(Drive(begin, options, now, ticks)).report.IsComplete()
    {
      SteadyThroughout(CursorOf(db, now), begin, options, now, ticks[..j]);
      FinishingTurn(CursorOf(db, now), Drive(begin, options, now, ticks[..j]), options, now, ticks[j]);
    }
  }

  /** Two cursors that would ask for the same window. */
  predicate SameWindow(a: Cursor, b: Cursor) {
    a.addedAfter == b.addedAfter && a.nextToken == b.nextToken && a.etag == b.etag && a.recordsSeen == b.recordsSeen
  }

  lemma {:induction false} RowKeepsUp(run: Run, options: Options, now: Stamp, ticks: seq<Tick>)
    requires run.Live? ==> SameWindow(CursorOf(run.db, now), run.cursor) && run.next == run.cursor.nextToken
    ensures var head := Drive(run, options, now, ticks);
            head.Live? ==> SameWindow(CursorOf(head.db, now), head.cursor) && head.next == head.cursor.nextToken
    decreases |ticks|
  {
    if run.Live? && ticks != [] {
      RowKeepsUp(Advance(run, options, now, ticks[0]), options, now, ticks[1..]);
    }
  }

  /**
   A process that breaks or is killed, at any point and against any server, leaves the stored position
   where its last loop head had it: the next process asks for the window that was not finished. It sends the
   stored tag, which the broken process sent with its first request only.
   */
  lemma {:induction false} BrokenAsksAgain(db: Db, options: Options, now: Stamp, ticks: seq<Tick>, later: Stamp)
    returns (k: nat)
    requires !OutcomeOf(Drive(Begin(db, options, now), options, now, ticks)).Finished?
    ensures k <= |ticks|
    ensures var begin := Begin(db, options, now);
            var end, head := Drive(begin, options, now, ticks), Drive(begin, options, now, ticks[..k]);
            var again := Begin(end.db, options, later);
            && head.Live? && (end == head || (k < |ticks| && end == Advance(head, options, now, ticks[k])))
            && SameWindow(again.cursor, head.cursor) && again.next == head.next
            && again.etag == (if options.useEtag then head.cursor.etag else None)
            && head.etag == (if head.pages == 0 then again.etag else None)
  {
    var begin := Begin(db, options, now);
    if Drive(begin, options, now, ticks).Live? {
      k := |ticks|;
      assert ticks[..k] == ticks;
    } else {
      k := LastTurn(begin, options, now, ticks);
    }
    var head := Drive(begin, options, now, ticks[..k]);
    RowKeepsUp(begin, options, now, ticks[..k]);
    SteadyThroughout(CursorOf(db, now), begin, options, now, ticks[..k]);
    if k < |ticks| {
      BreakKeepsRow(head, options, now, ticks[k], later);
    }
    FromRow(CursorOf(db, now), head, Drive(begin, options, now, ticks).db, options, later);
  }

  lemma {:induction false} BreakKeepsRow(head: Run, options: Options, now: Stamp, tick: Tick, later: Stamp)
    requires head.Live? && SameWindow(CursorOf(head.db, now), head.cursor)
    requires var step := Advance(head, options, now, tick); step.Done? && !OutcomeOf(step).Finished?
    ensures SameWindow(CursorOf(Advance(head, options, now, tick).db, later), head.cursor)
  {
  }

  /** What a process starting from a row in the same window does first. */
  lemma {:induction false} FromRow(first: Cursor, head: Run, db: Db, options: Options, later: Stamp)
    requires head.Live? && Steady(first, options, head) && SameWindow(CursorOf(db, later), head.cursor)
    ensures var again := Begin(db, options, later);
            && SameWindow(again.cursor, head.cursor) && again.next == head.next
            && again.etag == (if options.useEtag then head.cursor.etag else None)
            && head.etag == (if head.pages == 0 then again.etag else None)
  {
  }

  // ----- many processes, any server -----

  datatype Launch = Launch(options: Options, now: Stamp, ticks: seq<Tick>)

  function RunOf(db: Db, launch: Launch): Run {
    Drive(Begin(db, launch.options, launch.now), launch.options, launch.now, launch.ticks)
  }

  function DbAfter(db: Db, launches: seq<Launch>): Db
    decreases |launches|
  {
    if launches == [] then db else DbAfter(RunOf(db, launches[0]).db, launches[1..])
  }

  function Pages(ticks: seq<Tick>): set<Page> {
    set t | t in ticks && t.answer.Got? :: t.answer.page
  }

  function PagesOf(launches: seq<Launch>): set<Page> {
    if launches == [] then {} else Pages(launches[0].ticks) + PagesOf(launches[1..])
  }

  /** A mark is the starting one, or the newest stamp of some page whose records are all stored. */
  ghost predicate Backed(first: Option<Stamp>, at: Option<Stamp>, stored: set<Entry>, pages: set<Page>) {
    at == first || exists p :: p in pages && at.Some? && p.newest == at && Contents(p.entries) <= stored
  }

  ghost predicate BackedRun(first: Option<Stamp>, run: Run, pages: set<Page>) {
    && Backed(first, CursorOf(run.db, 0).addedAfter, run.db.stored, pages)
    && (run.Live? ==> Backed(first, run.cursor.addedAfter, run.db.stored, pages))
  }

  lemma {:induction false} BackedThroughout(first: Option<Stamp>, run: Run, options: Options, now: Stamp,
                                            ticks: seq<Tick>, pages: set<Page>)
    requires BackedRun(first, run, pages) && Pages(ticks) <= pages
    ensures BackedRun(first, Drive(run, options, now, ticks), pages)
    ensures run.db.stored <= Drive(run, options, now, ticks).db.stored
    decreases |ticks|
  {
    if run.Live? && ticks != [] {
      var step := Advance(run, options, now, ticks[0]);
      assert ticks[0].answer.Got? ==> ticks[0].answer.page in Pages(ticks);
      assert BackedRun(first, step, pages);
      BackedThroughout(first, step, options, now, ticks[1..], pages);
    }
  }

  /**
   The cursor never moves ahead of the data. After any sequence of processes against any server,
   crashes between ingest and persist included, no record was lost and the stored high-water mark
   is the first one or the newest stamp of a page whose records are all stored.
   */
  lemma {:induction false} CursorNeverAhead(db: Db, launches: seq<Launch>)
    ensures db.stored <= DbAfter(db, launches).stored
    ensures Backed(CursorOf(db, 0).addedAfter, CursorOf(DbAfter(db, launches), 0).addedAfter,
                   DbAfter(db, launches).stored, PagesOf(launches))
    decreases |launches|
  {
    if launches != [] {
      var first, l := CursorOf(db, 0).addedAfter, launches[0];
      BackedThroughout(first, Begin(db, l.options, l.now), l.options, l.now, l.ticks, Pages(l.ticks));
      CursorNeverAhead(RunOf(db, l).db, launches[1..]);
    }
  }

  // ----- many processes, an honest server -----

  /** The database, and what the server held when last asked. */
  datatype World = World(db: Db, held: seq<Entry>)

  /** An honest answer to the request the loop makes here. A 304 answers only a tag that is current. */
  ghost predicate HonestAnswer(run: Run, tick: Tick)
    requires run.Live?
  {
    match tick.answer
    case Refused => true
    case Unchanged => run.etag == Some(tick.tag)
    case Got(page) =>
      && HonestBlock(tick.held, StartOf(tick.held, run.cursor.addedAfter, run.next),
                     page.entries, page.newest, page.next, page.more)
      && (page.etag.Some? ==> page.etag.value == tick.tag)
  }

  /** The server only ever adds newer entries, and answers from what it then holds. */
  ghost predicate HonestTick(held: seq<Entry>, run: Run, options: Options, tick: Tick)
    requires run.Live?
  {
    && Grows(held, tick.held)
    && (Asks(run, options, tick) ==> HonestAnswer(run, tick))
  }

  ghost predicate HonestTicks(held: seq<Entry>, run: Run, options: Options, now: Stamp, ticks: seq<Tick>)
    decreases |ticks|
  {
    run.Live? && ticks != [] ==>
      && HonestTick(held, run, options, ticks[0])
      && HonestTicks(ticks[0].held, Advance(run, options, now, ticks[0]), options, now, ticks[1..])
  }

  ghost predicate HonestLaunch(w: World, l: Launch) {
    HonestTicks(w.held, Begin(w.db, l.options, l.now), l.options, l.now, l.ticks)
  }

  /** The world after a process: what the server held is as of the last turn the process took. */
  function Follow(held: seq<Entry>, run: Run, options: Options, now: Stamp, ticks: seq<Tick>): World
    decreases |ticks|
  {
    if run.Done? || ticks == [] then World(run.db, held)
    else Follow(ticks[0].held, Advance(run, options, now, ticks[0]), options, now, ticks[1..])
  }

  function Play(w: World, l: Launch): World {
    Follow(w.held, Begin(w.db, l.options, l.now), l.options, l.now, l.ticks)
  }

  /** The guard of sync.rs:193-197: this process sends no entity tag. */
  predicate SendsNoTag(db: Db, options: Options) {
    !options.useEtag || CursorOf(db, 0).etag.None?
  }

  /** The stored position is one the server and the store bear out, counting from `start`. */
  ghost predicate SoundWorld(w: World, start: Option<Stamp>) {
    var cursor := CursorOf(w.db, 0);
    Sound(w.held, start, w.db.stored, cursor.addedAfter, cursor.nextToken)
  }

  ghost predicate SoundRun(held: seq<Entry>, start: Option<Stamp>, run: Run) {
    && SoundWorld(World(run.db, held), start)
    && (run.Live? ==>
          && run.next == run.cursor.nextToken
          && Sound(held, start, run.db.stored, run.cursor.addedAfter, run.next))
  }

  lemma {:induction false} SoundTurn(held: seq<Entry>, start: Option<Stamp>, run: Run, options: Options, now: Stamp,
                                     tick: Tick)
    requires run.Live? && SoundRun(held, start, run) && HonestTick(held, run, options, tick)
    ensures var step := Advance(run, options, now, tick);
            && SoundRun(tick.held, start, step)
            && (OutcomeOf(step).Finished? && step.outcome.report.IsComplete() && !step.outcome.report.notModified ==>
                  AllCovered(tick.held, start, step.db.stored))
            && (step.Live? ==>
                  && step.etag.None? && tick.answer.Got?
                  && Position(tick.held, step.cursor.addedAfter)
                     == Position(tick.held, run.cursor.addedAfter) + |tick.answer.page.entries|)
  {
    var cursor, row := run.cursor, CursorOf(run.db, 0);
    SoundGrows(held, tick.held, start, run.db.stored, cursor.addedAfter, run.next);
    SoundGrows(held, tick.held, start, run.db.stored, row.addedAfter, row.nextToken);
    if Asks(run, options, tick) && tick.answer.Got? {
      var page := tick.answer.page;
      SoundPage(tick.held, start, run.db.stored, cursor.addedAfter, run.next, row.addedAfter, row.nextToken,
                page.entries, page.newest, page.next, page.more);
    }
  }

  lemma {:induction false} SoundThroughout(held: seq<Entry>, start: Option<Stamp>, run: Run,
                                           options: Options, now: Stamp, ticks: seq<Tick>)
    requires SoundRun(held, start, run) && HonestTicks(held, run, options, now, ticks)
    ensures var w := Follow(held, run, options, now, ticks);
            var end := Drive(run, options, now, ticks);
            && w.db == end.db && SoundWorld(w, start)
            && (run.Live? && OutcomeOf(end).Finished? && end.outcome.report.IsComplete()
                && (run.etag.None? || !end.outcome.report.notModified) ==>
                  AllCovered(w.held, start, w.db.stored))
    decreases |ticks|
  {
    if run.Live? && ticks != [] {
      SoundTurn(held, start, run, options, now, ticks[0]);
      SoundThroughout(ticks[0].held, start, Advance(run, options, now, ticks[0]), options, now, ticks[1..]);
    }
  }

  ghost predicate HonestHistory(w: World, launches: seq<Launch>)
    decreases |launches|
  {
    launches != [] ==> HonestLaunch(w, launches[0]) && HonestHistory(Play(w, launches[0]), launches[1..])
  }

  function PlayAll(w: World, launches: seq<Launch>): World
    decreases |launches|
  {
    if launches == [] then w else PlayAll(Play(w, launches[0]), launches[1..])
  }

  /**
   Under an honest server that may keep growing, everything between the first mark and the stored one
   is stored after any history of finished, failed, cancelled, bounded or crashed processes, and
   whether or not 304s were used.
   */
  lemma {:induction false} NothingSkipped(w: World, start: Option<Stamp>, launches: seq<Launch>)
    requires SoundWorld(w, start) && HonestHistory(w, launches)
    ensures SoundWorld(PlayAll(w, launches), start)
    decreases |launches|
  {
    if launches != [] {
      var l := launches[0];
      SoundThroughout(w.held, start, Begin(w.db, l.options, l.now), l.options, l.now, l.ticks);
      NothingSkipped(Play(w, l), start, launches[1..]);
    }
  }

  /**
   Completeness across crashes. After any such history, a process that reports itself complete leaves every
   entry the server held at its last answer stored, unless it sent a tag and was answered with a 304.
   */
  lemma {:induction false} CompleteMeansEverything(w: World, start: Option<Stamp>, launches: seq<Launch>, last: Launch)
    requires SoundWorld(w, start) && HonestHistory(w, launches)
    requires var before := PlayAll(w, launches);
             && HonestLaunch(before, last) && OutcomeOf(RunOf(before.db, last)).Finished?
             && var report := RunOf(before.db, last).outcome.report;
             report.IsComplete() && (!report.notModified || SendsNoTag(before.db, last.options))
    ensures var after := Play(PlayAll(w, launches), last);
            AllCovered(after.held, start, after.db.stored)
  {
    NothingSkipped(w, start, launches);
    var before := PlayAll(w, launches);
    SoundThroughout(before.held, start, Begin(before.db, last.options, last.now),
                    last.options, last.now, last.ticks);
  }

  /** A fresh database is sound against any ordered server, counting from the beginning. */
  lemma {:induction false} FreshIsSound(held: seq<Entry>)
    requires Ordered(held)
    ensures SoundWorld(World(Db({}, None), held), None)
  {
  }

  // ----- an undisturbed process finishes -----

  predicate Undisturbed(held: seq<Entry>, tick: Tick) {
    !tick.cancelled && tick.answer.Got? && tick.ingested && !tick.killed && tick.persisted && tick.held == held
  }

  /** How many pages can still be needed: one for each entry left, and one to learn that none are. */
  function PagesLeft(held: seq<Entry>, at: Option<Stamp>): nat {
    var left := |held| - Position(held, at);
    if left == 0 then 1 else left
  }

  lemma {:induction false} UndisturbedTurn(held: seq<Entry>, start: Option<Stamp>, run: Run,
                                           options: Options, now: Stamp, tick: Tick)
    requires run.Live? && SoundRun(held, start, run) && HonestTick(held, run, options, tick)
    requires Undisturbed(held, tick) && run.pages < options.maxPages
    ensures var step := Advance(run, options, now, tick);
            && (step.Done? ==> OutcomeOf(step).Finished? && step.outcome.report.IsComplete())
            && (step.Live? ==>
                  && SoundRun(held, start, step) && step.pages == run.pages + 1
                  && PagesLeft(held, step.cursor.addedAfter) < PagesLeft(held, run.cursor.addedAfter))
  {
    SoundTurn(held, start, run, options, now, tick);
    SoundStart(held, start, run.db.stored, run.cursor.addedAfter, run.next);
  }

  /** A process nothing disturbs, against an honest server that holds still, runs to completion. */
  lemma {:induction false} UndisturbedFinishes(held: seq<Entry>, start: Option<Stamp>, run: Run,
                                               options: Options, now: Stamp, ticks: seq<Tick>)
    requires run.Live? && SoundRun(held, start, run) && HonestTicks(held, run, options, now, ticks)
    requires forall t :: t in ticks ==> Undisturbed(held, t)
    requires |ticks| >= PagesLeft(held, run.cursor.addedAfter)
    requires run.pages + PagesLeft(held, run.cursor.addedAfter) <= options.maxPages
    ensures var end := Drive(run, options, now, ticks);
            OutcomeOf(end).Finished? && end.outcome.report.IsComplete()
    decreases |ticks|
  {
    var step := Advance(run, options, now, ticks[0]);
    assert Undisturbed(held, ticks[0]);
    UndisturbedTurn(held, start, run, options, now, ticks[0]);
    if step.Live? {
      UndisturbedFinishes(held, start, step, options, now, ticks[1..]);
    } else {
      assert Drive(step, options, now, ticks[1..]) == step;
    }
  }
}
