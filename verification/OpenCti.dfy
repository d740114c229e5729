/**
 Polling one OpenCTI instance. The same order as TAXII (fetch, ingest, persist), with three
 differences: the page cursor is not kept between processes, there are no entity tags, and a server
 that claims more without moving its page cursor ends the run as partial.

 An object OpenCTI cannot render as STIX is counted on its page and never stored.
 */
module OpenCti {
  import opened Machine
  import opened Feed

  datatype Page = Page(
    entries: seq<Entry>, unrenderable: set<Entry>, newest: Option<Stamp>, next: Option<Token>, more: bool)

  datatype Answer = Got(page: Page) | Refused

  /** As for TAXII. `persistedAgain` decides the second write, made when the page cursor is stuck. */
  datatype Tick = Tick(
    cancelled: bool, answer: Answer, ingested: bool, killed: bool, persisted: bool, persistedAgain: bool,
    held: seq<Entry>)

  datatype Run =
    | Live(db: Db, cursor: Cursor, pages: u64, objects: u64, after: Option<Token>)
    | Done(db: Db, outcome: Outcome)

  function OutcomeOf(run: Run): Outcome {
    if run.Done? then run.outcome else Killed
  }

  function Begin(db: Db, now: Stamp): Run {
    Live(db, CursorOf(db, now), 0, 0, None)
  }

  function Rendered(page: Page): set<Entry> {
    Contents(page.entries) - page.unrenderable
  }

  /** Persist and report; a failed transaction is an error and leaves the stored cursor alone. */
  function Conclude(db: Db, report: Report, persisted: bool): Run {
    if persisted then Done(db.(saved := Some(report.cursor)), Finished(report)) else Done(db, Broke)
  }

  function Abandon(db: Db, cursor: Cursor, now: Stamp, persisted: bool): Run {
    var failed := cursor.(lastStatus := Failed, lastRunAt := now);
    Done(if persisted then db.(saved := Some(failed)) else db, Broke)
  }

  /** The cursor once a page's records are stored. */
  function Moved(cursor: Cursor, page: Page, now: Stamp): Cursor {
    cursor.(addedAfter := page.newest.Or(cursor.addedAfter),
            recordsSeen := SatAdd(cursor.recordsSeen, |page.entries|),
            lastRunAt := now,
            lastStatus := if page.more then Partial else Complete)
  }

  /** One turn of the loop. */
  function Advance(run: Run, options: Options, now: Stamp, tick: Tick): Run
    requires run.Live?
  {
    var Live(db, cursor, pages, objects, after) := run;
    if tick.cancelled || pages >= options.maxPages then
      Conclude(db, Report(pages, objects, false, cursor.(lastStatus := Partial, lastRunAt := now)), tick.persisted)
    else
      match tick.answer
      case Refused => Abandon(db, cursor, now, tick.persisted)
      case Got(page) =>
        var pages' := SatAdd(pages, 1);
        var objects' := SatAdd(objects, |page.entries|);
        if page.entries == [] then
          Conclude(db, Report(pages', objects', false, cursor.(lastStatus := Complete, lastRunAt := now)),
              tick.persisted)
        else if !tick.ingested then
          Abandon(db, cursor, now, tick.persisted)
        else
          var filled := db.(stored := db.stored + Rendered(page));
          var moved := Moved(cursor, page, now);
          if tick.killed then Done(filled, Killed)
          else if !tick.persisted then Done(filled, Broke)
          else
            var written := filled.(saved := Some(moved));
            if !page.more then Done(written, Finished(Report(pages', objects', false, moved)))
            else if page.next.None? || page.next == after then
              Conclude(written, Report(pages', objects', false, moved.(lastStatus := Partial)), tick.persistedAgain)
            else Live(written, moved, pages', objects', page.next)
  }

  function Drive(run: Run, options: Options, now: Stamp, ticks: seq<Tick>): Run
    decreases |ticks|
  {
    if run.Done? || ticks == [] then run
    else Drive(Advance(run, options, now, ticks[0]), options, now, ticks[1..])
  }

  /** The loop itself, writing through the store. */
  method SyncOpenCti(store: Store, options: Options, now: Stamp, env: seq<Tick>) returns (outcome: Outcome)
    modifies store
    ensures var run := Drive(Begin(old(store.View()), now), options, now, env);
            store.View() == run.db && outcome == OutcomeOf(run)
  {
    var cursor := if store.saved.Some? then store.saved.value else Cursor(None, None, None, now, Complete, 0);
    var pages: u64, objects: u64 := 0, 0;
    var after: Option<Token> := None;
    var turn := 0;
    while turn < |env|
      invariant 0 <= turn <= |env|
      invariant Drive(Live(store.View(), cursor, pages, objects, after), options, now, env[turn..])
             == Drive(Begin(old(store.View()), now), options, now, env)
    {
      var tick := env[turn];
      assert env[turn..][1..] == env[turn + 1..];
      turn := turn + 1;
      if tick.cancelled || pages >= options.maxPages {
        cursor := cursor.(lastStatus := Partial, lastRunAt := now);
        var ok := store.Persist(cursor, tick.persisted);
        return if ok then Finished(Report(pages, objects, false, cursor)) else Broke;
      }
      if tick.answer.Refused? {
        var _ := store.Persist(cursor.(lastStatus := Failed, lastRunAt := now), tick.persisted);
        return Broke;
      }
      var page := tick.answer.page;
      pages := SatAdd(pages, 1);
      objects := SatAdd(objects, |page.entries|);
      if page.entries == [] {
        cursor := cursor.(lastStatus := Complete, lastRunAt := now);
        var ok := store.Persist(cursor, tick.persisted);
        return if ok then Finished(Report(pages, objects, false, cursor)) else Broke;
      }
      var ingested := store.Ingest(Rendered(page), tick.ingested);
      if !ingested {
        var _ := store.Persist(cursor.(lastStatus := Failed, lastRunAt := now), tick.persisted);
        return Broke;
      }
      if page.newest.Some? {
        cursor := cursor.(addedAfter := page.newest);
      }
      cursor := cursor.(recordsSeen := SatAdd(cursor.recordsSeen, |page.entries|), lastRunAt := now);
      cursor := cursor.(lastStatus := if page.more then Partial else Complete);
      if tick.killed {
        return Killed;
      }
      var ok := store.Persist(cursor, tick.persisted);
      if !ok {
        return Broke;
      }
      if !page.more {
        return Finished(Report(pages, objects, false, cursor));
      }
      if page.next.None? || page.next == after {
        cursor := cursor.(lastStatus := Partial);
        ok := store.Persist(cursor, tick.persistedAgain);
        return if ok then Finished(Report(pages, objects, false, cursor)) else Broke;
      }
      after := page.next;
    }
    return Killed;
  }

  // ----- one process, any server -----

  predicate Asks(run: Run, options: Options, tick: Tick)
    requires run.Live?
  {
    !tick.cancelled && run.pages < options.maxPages
  }

  /** The two answers after which the code calls a run complete. */
  predicate Ends(answer: Answer) {
    answer.Got? && (answer.page.entries == [] || !answer.page.more)
  }

  /** What holds at every loop head of a process that started from `first`. */
  ghost predicate Steady(first: Cursor, options: Options, run: Run) {
    run.Live? ==>
      && run.pages <= options.maxPages
      && run.cursor.recordsSeen == SatAdd(first.recordsSeen, run.objects)
      && (run.after.Some? <==> run.pages > 0)
      && run.cursor.nextToken == first.nextToken && run.cursor.etag == first.etag
  }

  /**
   What an ending means, whatever the server did: the bound held, `records_seen` grew by exactly the
   objects counted, the row kept the token and tag it never uses, and a run is called complete exactly
   when its last turn asked and got an empty page or a last page.
   */
  lemma {:induction false} EndingMeans(first: Cursor, run: Run, options: Options, now: Stamp, ticks: seq<Tick>)
    requires run.Live? && Steady(first, options, run)
    ensures var end := Drive(run, options, now, ticks);
            && Steady(first, options, end)
            && (OutcomeOf(end).Finished? ==>
                  var report := end.outcome.report;
                  && report.pages <= options.maxPages && !report.notModified
                  && report.cursor.recordsSeen == SatAdd(first.recordsSeen, report.objects)
                  && end.db.saved == Some(report.cursor) && report.cursor.lastRunAt == now
                  && report.cursor.nextToken == first.nextToken && report.cursor.etag == first.etag
                  && exists k :: 0 <= k < |ticks| && EndsWith(run, options, now, ticks, k, report.IsComplete()))
    decreases |ticks|
  {
    if ticks != [] {
      var step := Advance(run, options, now, ticks[0]);
      assert Drive(run, options, now, ticks[..0]) == run;
      if step.Live? {
        EndingMeans(first, step, options, now, ticks[1..]);
        forall k | 0 <= k < |ticks[1..]|
          ensures EndsWith(step, options, now, ticks[1..], k, true) ==> EndsWith(run, options, now, ticks, k + 1, true)
          ensures EndsWith(step, options, now, ticks[1..], k, false) ==>
                    EndsWith(run, options, now, ticks, k + 1, false)
        {
          assert ticks[..k + 1][1..] == ticks[1..][..k];
        }
      } else if OutcomeOf(step).Finished? {
        assert EndsWith(run, options, now, ticks, 0, step.outcome.report.IsComplete());
      }
    }
  }

  /** The process ends on turn `k`, and `complete` says whether that turn was a terminal answer. */
  ghost predicate EndsWith(run: Run, options: Options, now: Stamp, ticks: seq<Tick>, k: nat, complete: bool)
    requires k < |ticks|
  {
    var head := Drive(run, options, now, ticks[..k]);
    && head.Live?
    && Drive(run, options, now, ticks) == Advance(head, options, now, ticks[k])
    && (complete <==> Asks(head, options, ticks[k]) && Ends(ticks[k].answer))
  }

  // ----- many processes, any server -----

  datatype Launch = Launch(options: Options, now: Stamp, ticks: seq<Tick>)

  function RunOf(db: Db, launch: Launch): Run {
    Drive(Begin(db, launch.now), launch.options, launch.now, launch.ticks)
  }

  function DbAfter(db: Db, launches: seq<Launch>): Db
    decreases |launches|
  {
    if launches == [] then db else DbAfter(RunOf(db, launches[0]).db, launches[1..])
  }

  function Pages(ticks: seq<Tick>): set<Page> {
    set t | t in ticks && t.answer.Got? :: t.answer.page
  }

  function PagesOf(launches: seq<Launch>): set<Page> {
    if launches == [] then {} else Pages(launches[0].ticks) + PagesOf(launches[1..])
  }

  /** A mark is the starting one, or the newest stamp of some page whose renderable records are all stored. */
  ghost predicate Backed(first: Option<Stamp>, at: Option<Stamp>, stored: set<Entry>, pages: set<Page>) {
    at == first || exists p :: p in pages && at.Some? && p.newest == at && Rendered(p) <= stored
  }

  ghost predicate BackedRun(first: Option<Stamp>, run: Run, pages: set<Page>) {
    && Backed(first, CursorOf(run.db, 0).addedAfter, run.db.stored, pages)
    && (run.Live? ==> Backed(first, run.cursor.addedAfter, run.db.stored, pages))
  }

  lemma {:induction false} BackedThroughout(first: Option<Stamp>, run: Run, options: Options, now: Stamp,
                                            ticks: seq<Tick>, pages: set<Page>)
    requires BackedRun(first, run, pages) && Pages(ticks) <= pages
    ensures BackedRun(first, Drive(run, options, now, ticks), pages)
    ensures run.db.stored <= Drive(run, options, now, ticks).db.stored
    decreases |ticks|
  {
    if run.Live? && ticks != [] {
      var step := Advance(run, options, now, ticks[0]);
      assert ticks[0].answer.Got? ==> ticks[0].answer.page in Pages(ticks);
      assert BackedRun(first, step, pages);
      BackedThroughout(first, step, options, now, ticks[1..], pages);
    }
  }

  /** The cursor never moves ahead of the data, after any processes against any server. */
  lemma {:induction false} CursorNeverAhead(db: Db, launches: seq<Launch>)
    ensures db.stored <= DbAfter(db, launches).stored
    ensures Backed(CursorOf(db, 0).addedAfter, CursorOf(DbAfter(db, launches), 0).addedAfter,
                   DbAfter(db, launches).stored, PagesOf(launches))
    decreases |launches|
  {
    if launches != [] {
      var first, l := CursorOf(db, 0).addedAfter, launches[0];
      BackedThroughout(first, Begin(db, l.now), l.options, l.now, l.ticks, Pages(l.ticks));
      CursorNeverAhead(RunOf(db, l).db, launches[1..]);
    }
  }

  // ----- many processes, an honest server -----

  /** The database, what the server held when last asked, and what it can never render. */
  datatype World = World(db: Db, held: seq<Entry>, broken: set<Entry>)

  ghost predicate HonestAnswer(run: Run, broken: set<Entry>, tick: Tick)
    requires run.Live?
  {
    match tick.answer
    case Refused => true
    case Got(page) =>
      && HonestBlock(tick.held, StartOf(tick.held, run.cursor.addedAfter, run.after),
                     page.entries, page.newest, page.next, page.more)
      && page.unrenderable <= broken
  }

  ghost predicate HonestTicks(held: seq<Entry>, broken: set<Entry>, run: Run, options: Options, now: Stamp,
                              ticks: seq<Tick>)
    decreases |ticks|
  {
    run.Live? && ticks != [] ==>
      && Grows(held, ticks[0].held)
      && (Asks(run, options, ticks[0]) ==> HonestAnswer(run, broken, ticks[0]))
      && HonestTicks(ticks[0].held, broken, Advance(run, options, now, ticks[0]), options, now, ticks[1..])
  }

  ghost predicate HonestLaunch(w: World, l: Launch) {
    HonestTicks(w.held, w.broken, Begin(w.db, l.now), l.options, l.now, l.ticks)
  }

  function Follow(held: seq<Entry>, broken: set<Entry>, run: Run, options: Options, now: Stamp, ticks: seq<Tick>): World
    decreases |ticks|
  {
    if run.Done? || ticks == [] then World(run.db, held, broken)
    else Follow(ticks[0].held, broken, Advance(run, options, now, ticks[0]), options, now, ticks[1..])
  }

  function Play(w: World, l: Launch): World {
    Follow(w.held, w.broken, Begin(w.db, l.now), l.options, l.now, l.ticks)
  }

  /** Counting what can never be rendered as dealt with, the stored mark is borne out. */
  ghost predicate SoundWorld(w: World, start: Option<Stamp>) {
    Sound(w.held, start, w.db.stored + w.broken, CursorOf(w.db, 0).addedAfter, None)
  }

  ghost predicate SoundRun(held: seq<Entry>, broken: set<Entry>, start: Option<Stamp>, run: Run) {
    && SoundWorld(World(run.db, held, broken), start)
    && (run.Live? ==> Sound(held, start, run.db.stored + broken, run.cursor.addedAfter, run.after))
  }

  lemma {:induction false} SoundTurn(held: seq<Entry>, broken: set<Entry>, start: Option<Stamp>, run: Run,
                                     options: Options, now: Stamp, tick: Tick)
    requires run.Live? && SoundRun(held, broken, start, run) && Grows(held, tick.held)
    requires Asks(run, options, tick) ==> HonestAnswer(run, broken, tick)
    ensures var step := Advance(run, options, now, tick);
            && SoundRun(tick.held, broken, start, step)
            && (OutcomeOf(step).Finished? && step.outcome.report.IsComplete() ==>
                  AllCovered(tick.held, start, step.db.stored + broken))
  {
    var at, row := run.cursor.addedAfter, CursorOf(run.db, 0).addedAfter;
    var known := run.db.stored + broken;
    SoundGrows(held, tick.held, start, known, at, run.after);
    SoundGrows(held, tick.held, start, known, row, None);
    if Asks(run, options, tick) && tick.answer.Got? {
      PageIsSound(tick.held, broken, start, run, tick.answer.page);
    }
  }

  /** An honest page, once what can be rendered of it is stored. */
  lemma {:induction false} PageIsSound(held: seq<Entry>, broken: set<Entry>, start: Option<Stamp>, run: Run, page: Page)
    requires run.Live? && SoundRun(held, broken, start, run) && page.unrenderable <= broken
    requires HonestBlock(held, StartOf(held, run.cursor.addedAfter, run.after),
                         page.entries, page.newest, page.next, page.more)
    ensures var known := run.db.stored + Rendered(page) + broken;
            && Sound(held, start, known, CursorOf(run.db, 0).addedAfter, None)
            && (page.entries == [] ==> AllCovered(held, start, run.db.stored + broken))
            && (page.entries != [] ==>
                  && Sound(held, start, known, page.newest, page.next) && Sound(held, start, known, page.newest, None)
                  && (!page.more ==> AllCovered(held, start, known)))
  {
    var at, row, known := run.cursor.addedAfter, CursorOf(run.db, 0).addedAfter, run.db.stored + broken;
    assert known + Contents(page.entries) == run.db.stored + Rendered(page) + broken;
    SoundPage(held, start, known, at, run.after, row, None, page.entries, page.newest, page.next, page.more);
  }

  lemma {:induction false} SoundThroughout(held: seq<Entry>, broken: set<Entry>, start: Option<Stamp>, run: Run,
                                           options: Options, now: Stamp, ticks: seq<Tick>)
    requires SoundRun(held, broken, start, run) && HonestTicks(held, broken, run, options, now, ticks)
    ensures var w := Follow(held, broken, run, options, now, ticks);
            var end := Drive(run, options, now, ticks);
            && w.db == end.db && w.broken == broken && SoundWorld(w, start)
            && (run.Live? && OutcomeOf(end).Finished? && end.outcome.report.IsComplete() ==>
                  AllCovered(w.held, start, w.db.stored + broken))
    decreases |ticks|
  {
    if run.Live? && ticks != [] {
      SoundTurn(held, broken, start, run, options, now, ticks[0]);
      SoundThroughout(ticks[0].held, broken, start, Advance(run, options, now, ticks[0]), options, now, ticks[1..]);
    }
  }

  ghost predicate HonestHistory(w: World, launches: seq<Launch>)
    decreases |launches|
  {
    launches != [] ==> HonestLaunch(w, launches[0]) && HonestHistory(Play(w, launches[0]), launches[1..])
  }

  function PlayAll(w: World, launches: seq<Launch>): World
    decreases |launches|
  {
    if launches == [] then w else PlayAll(Play(w, launches[0]), launches[1..])
  }

  /**
   Completeness across crashes, with no exception for conditional requests. After any history against an
   honest server, everything up to the stored mark is stored or unrenderable, and a process that then
   reports itself complete leaves nothing else out either.
   */
  lemma {:induction false} CompleteMeansEverything(w: World, start: Option<Stamp>, launches: seq<Launch>, last: Launch)
    requires SoundWorld(w, start) && HonestHistory(w, launches)
    ensures SoundWorld(PlayAll(w, launches), start)
    ensures var before := PlayAll(w, launches);
            var run := RunOf(before.db, last);
            HonestLaunch(before, last) && OutcomeOf(run).Finished? && run.outcome.report.IsComplete() ==>
              AllCovered(Play(before, last).held, start, Play(before, last).db.stored + w.broken)
    decreases |launches|
  {
    var l := if launches == [] then last else launches[0];
    if HonestLaunch(w, l) {
      SoundThroughout(w.held, w.broken, start, Begin(w.db, l.now), l.options, l.now, l.ticks);
    }
    if launches != [] {
      CompleteMeansEverything(Play(w, l), start, launches[1..], last);
    }
  }

  // ----- an undisturbed process finishes -----

  /** Nothing goes wrong, and a page that says there is more says where. */
  predicate Undisturbed(held: seq<Entry>, tick: Tick) {
    && !tick.cancelled && tick.answer.Got? && tick.ingested && !tick.killed && tick.persisted && tick.held == held
    && (tick.answer.page.more ==> tick.answer.page.next.Some?)
  }

  function PagesLeft(held: seq<Entry>, at: Option<Stamp>): nat {
    var left := |held| - Position(held, at);
    if left == 0 then 1 else left
  }

  /** A page cursor that names a position never repeats, so such a turn is never taken for a stuck one. */
  lemma {:induction false} UndisturbedTurn(held: seq<Entry>, broken: set<Entry>, start: Option<Stamp>, run: Run,
                                           options: Options, now: Stamp, tick: Tick)
    requires run.Live? && SoundRun(held, broken, start, run) && run.pages < options.maxPages
    requires Undisturbed(held, tick) && HonestAnswer(run, broken, tick)
    ensures var step := Advance(run, options, now, tick);
            && (step.Done? ==> OutcomeOf(step).Finished? && step.outcome.report.IsComplete())
            && (step.Live? ==>
                  && SoundRun(held, broken, start, step) && step.pages == run.pages + 1
                  && PagesLeft(held, step.cursor.addedAfter) < PagesLeft(held, run.cursor.addedAfter))
  {
    var page, at, known := tick.answer.page, run.cursor.addedAfter, run.db.stored + broken;
    SoundTurn(held, broken, start, run, options, now, tick);
    SoundStart(held, start, known, at, run.after);
    SoundPage(held, start, known, at, run.after, at, run.after, page.entries, page.newest, page.next, page.more);
    PositionOf(held, start, known, at, run.after);
  }

  /** A sound page cursor is the position of its mark. */
  lemma {:induction false} PositionOf(held: seq<Entry>, start: Option<Stamp>, stored: set<Entry>, at: Option<Stamp>,
                                      token: Option<Token>)
    requires Sound(held, start, stored, at, token)
    ensures token.Some? ==> token.value == Position(held, at)
  {
    if token.Some? {
      PositionIs(held, at, token.value);
    }
  }

  /**
   A process nothing disturbs, against an honest server that holds still and says where each next page begins,
   runs to completion: it is never stopped as stuck.
   */
  lemma {:induction false} UndisturbedFinishes(held: seq<Entry>, broken: set<Entry>, start: Option<Stamp>, run: Run,
                                               options: Options, now: Stamp, ticks: seq<Tick>)
    requires run.Live? && SoundRun(held, broken, start, run) && HonestTicks(held, broken, run, options, now, ticks)
    requires forall i :: 0 <= i < |ticks| ==> Undisturbed(held, ticks[i])
    requires |ticks| >= PagesLeft(held, run.cursor.addedAfter)
    requires run.pages + PagesLeft(held, run.cursor.addedAfter) <= options.maxPages
    ensures var end := Drive(run, options, now, ticks);
            OutcomeOf(end).Finished? && end.outcome.report.IsComplete()
    decreases |ticks|
  {
    var step := Advance(run, options, now, ticks[0]);
    UndisturbedTurn(held, broken, start, run, options, now, ticks[0]);
    if step.Live? {
      UndisturbedFinishes(held, broken, start, step, options, now, ticks[1..]);
    } else {
      assert Drive(step, options, now, ticks[1..]) == step;
    }
  }
}
