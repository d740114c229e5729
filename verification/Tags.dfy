/**
 When a TAXII run that was answered with a 304 can be believed. A tag is stored with every row, a partial
 page's included, and sent with the next process's first request.

 Histories here begin with an empty database, and a tag names what the server held when it gave it.
 */
module Tags {
  import opened Machine
  import opened Feed
  import opened Taxii

  /** A server by what its tags stand for, what it held at first, and the processes run against it. */
  datatype Tale = Tale(names: Tag -> seq<Entry>, held: seq<Entry>, launches: seq<Launch>)

  function Fresh(held: seq<Entry>): World {
    World(Db({}, None), held)
  }

  /** The world a tale leaves. */
  function Left(t: Tale): World {
    PlayAll(Fresh(t.held), t.launches)
  }

  /** Whatever the server holds, the tag it then gives stands for just that. */
  ghost predicate Named(names: Tag -> seq<Entry>, ticks: seq<Tick>) {
    forall i :: 0 <= i < |ticks| ==> ticks[i].held == names(ticks[i].tag)
  }

  ghost predicate NamedAll(names: Tag -> seq<Entry>, launches: seq<Launch>) {
    forall i :: 0 <= i < |launches| ==> Named(names, launches[i].ticks)
  }

  ghost predicate Honest(t: Tale) {
    Ordered(t.held) && HonestHistory(Fresh(t.held), t.launches) && NamedAll(t.names, t.launches)
  }

  /** Some honest history leaves this row. */
  ghost predicate Reachable(row: Cursor) {
    exists t: Tale :: Honest(t) && Left(t).db.saved == Some(row)
  }

  /** One more process, started from this row after an honest history, reports itself complete. */
  ghost predicate Completes(t: Tale, row: Cursor, last: Launch, options: Options) {
    var w := Left(t);
    && Honest(t) && w.db.saved == Some(row) && last.options == options
    && HonestLaunch(w, last) && Named(t.names, last.ticks)
    && OutcomeOf(RunOf(w.db, last)).Finished? && RunOf(w.db, last).outcome.report.IsComplete()
  }

  /** Nothing the server held at its last answer is missing. */
  ghost predicate Whole(w: World) {
    AllCovered(w.held, None, w.db.stored)
  }

  /** A complete report of a process started from this row means what it says, after every honest history. */
  ghost predicate Trustworthy(row: Cursor, options: Options) {
    forall t: Tale, last: Launch :: Completes(t, row, last, options) ==> Whole(Play(Left(t), last))
  }

  // ----- what every history keeps -----

  /** A row whose tag stands for nothing that is missing: the last run finished, or nothing was ever there. */
  predicate Settled(row: Cursor) {
    row.lastStatus.Complete? || row.addedAfter.None?
  }

  /** What a stored tag stands for, and what `records_seen` counts. */
  ghost predicate Fits(names: Tag -> seq<Entry>, held: seq<Entry>, stored: set<Entry>, row: Cursor) {
    && row.recordsSeen == Clamp(Position(held, row.addedAfter))
    && (row.etag.Some? ==> names(row.etag.value) <= held)
    && (row.etag.Some? && Settled(row) ==> AllCovered(names(row.etag.value), None, stored))
  }

  ghost predicate FitsRun(names: Tag -> seq<Entry>, held: seq<Entry>, run: Run) {
    && SoundRun(held, None, run)
    && Fits(names, held, run.db.stored, CursorOf(run.db, 0))
    && (run.Live? ==> Fits(names, held, run.db.stored, run.cursor))
  }

  /** A request that sends a tag sends the row's, and only a settled row's can be believed. */
  ghost predicate SendsSettled(run: Run) {
    run.Live? && run.etag.Some? ==> run.etag == run.cursor.etag && Settled(run.cursor)
  }

  lemma {:induction false} PositionKeeps(held: seq<Entry>, later: seq<Entry>, stored: set<Entry>, at: Option<Stamp>,
                                         token: Option<Token>)
    requires Sound(held, None, stored, at, token) && Grows(held, later)
    ensures Position(later, at) == Position(held, at)
  {
    if at.Some? {
      var i :| 0 <= i < |held| && at == Some(held[i].stamp);
      assert later[i] == held[i];
      PositionIs(held, at, i + 1);
      PositionIs(later, at, i + 1);
    }
  }

  lemma {:induction false} FitsLater(names: Tag -> seq<Entry>, held: seq<Entry>, later: seq<Entry>, stored: set<Entry>,
                                     more: set<Entry>, row: Cursor, token: Option<Token>)
    requires Sound(held, None, stored, row.addedAfter, token) && Grows(held, later) && stored <= more
    requires Fits(names, held, stored, row)
    ensures Fits(names, later, more, row)
  {
    PositionKeeps(held, later, stored, row.addedAfter, token);
  }

  lemma {:induction false} PrefixCovered(part: seq<Entry>, held: seq<Entry>, stored: set<Entry>)
    requires part <= held && AllCovered(held, None, stored)
    ensures AllCovered(part, None, stored)
  {
    assert forall k :: 0 <= k < |part| ==> part[k] == held[k];
  }

  /** The row a stored page leaves. */
  lemma {:induction false} FitsMoved(names: Tag -> seq<Entry>, held: seq<Entry>, stored: set<Entry>, cursor: Cursor,
                                     page: Page, tag: Tag, now: Stamp)
    requires Sound(held, None, stored, cursor.addedAfter, None) && Fits(names, held, stored, cursor)
    requires HonestBlock(held, Position(held, cursor.addedAfter), page.entries, page.newest, page.next, page.more)
    requires page.entries != [] && names(tag) == held && (page.etag.Some? ==> page.etag.value == tag)
    ensures Fits(names, held, stored + Contents(page.entries), Moved(cursor, page, now))
  {
    SoundStep(held, None, stored, cursor.addedAfter, page.entries, page.newest, page.next, page.more);
    var row := Moved(cursor, page, now);
    if row.etag.Some? && !page.more {
      PrefixCovered(names(row.etag.value), held, stored + Contents(page.entries));
    }
  }

  /** The row an empty page leaves. */
  lemma {:induction false} FitsEnded(names: Tag -> seq<Entry>, held: seq<Entry>, stored: set<Entry>, cursor: Cursor,
                                     page: Page, tag: Tag, row: Cursor)
    requires Sound(held, None, stored, cursor.addedAfter, None) && Fits(names, held, stored, cursor)
    requires HonestBlock(held, Position(held, cursor.addedAfter), [], page.newest, page.next, page.more)
    requires names(tag) == held && (page.etag.Some? ==> page.etag.value == tag)
    requires row.etag == page.etag.Or(cursor.etag)
    requires row.addedAfter == cursor.addedAfter && row.recordsSeen == cursor.recordsSeen
    ensures Fits(names, held, stored, row)
  {
    SoundEnd(held, None, stored, cursor.addedAfter, page.newest, page.next, page.more);
    if row.etag.Some? {
      PrefixCovered(names(row.etag.value), held, stored);
    }
  }

  lemma {:induction false} FitsTurn(names: Tag -> seq<Entry>, held: seq<Entry>, run: Run, options: Options, now: Stamp,
                                    tick: Tick)
    requires run.Live? && FitsRun(names, held, run)
    requires HonestTick(held, run, options, tick) && tick.held == names(tick.tag)
    ensures FitsRun(names, tick.held, Advance(run, options, now, tick))
  {
    var cursor, row, stored := run.cursor, CursorOf(run.db, 0), run.db.stored;
    SoundTurn(held, None, run, options, now, tick);
    FitsLater(names, held, tick.held, stored, stored, cursor, run.next);
    FitsLater(names, held, tick.held, stored, stored, row, row.nextToken);
    if Asks(run, options, tick) && tick.answer.Got? {
      var page := tick.answer.page;
      SoundGrows(held, tick.held, None, stored, cursor.addedAfter, run.next);
      SoundStart(tick.held, None, stored, cursor.addedAfter, run.next);
      SoundKeeps(tick.held, None, stored, stored, cursor.addedAfter, run.next);
      if page.entries == [] {
        var last := cursor.(lastStatus := Complete, nextToken := None);
        last := last.(etag := page.etag.Or(cursor.etag), lastRunAt := now);
        FitsEnded(names, tick.held, stored, cursor, page, tick.tag, last);
      } else {
        FitsMoved(names, tick.held, stored, cursor, page, tick.tag, now);
        FitsLater(names, held, tick.held, stored, stored + Contents(page.entries), row, row.nextToken);
      }
    }
  }

  /** A turn that ends a run complete leaves nothing missing, a 304 answered to a settled row's tag included. */
  lemma {:induction false} EndsWhole(names: Tag -> seq<Entry>, held: seq<Entry>, run: Run, options: Options,
                                     now: Stamp, tick: Tick)
    requires run.Live? && FitsRun(names, held, run)
    requires HonestTick(held, run, options, tick) && tick.held == names(tick.tag)
    requires SendsSettled(run)
    ensures var step := Advance(run, options, now, tick);
            && SendsSettled(step)
            && (OutcomeOf(step).Finished? && step.outcome.report.IsComplete() ==>
                  AllCovered(tick.held, None, step.db.stored))
  {
    SoundTurn(held, None, run, options, now, tick);
  }

  lemma {:induction false} FitsThroughout(names: Tag -> seq<Entry>, held: seq<Entry>, run: Run, options: Options,
                                          now: Stamp, ticks: seq<Tick>)
    requires FitsRun(names, held, run) && HonestTicks(held, run, options, now, ticks) && Named(names, ticks)
    ensures var w, end := Follow(held, run, options, now, ticks), Drive(run, options, now, ticks);
            && w.db == end.db && FitsRun(names, w.held, end)
            && (run.Live? && SendsSettled(run) && OutcomeOf(end).Finished? && end.outcome.report.IsComplete() ==>
                  Whole(w))
    decreases |ticks|
  {
    if run.Live? && ticks != [] {
      var step := Advance(run, options, now, ticks[0]);
      FitsTurn(names, held, run, options, now, ticks[0]);
      if SendsSettled(run) {
        EndsWhole(names, held, run, options, now, ticks[0]);
      }
      assert Named(names, ticks[1..]);
      FitsThroughout(names, ticks[0].held, step, options, now, ticks[1..]);
    }
  }

  /** A world as a process finds it. */
  ghost predicate FitsWorld(names: Tag -> seq<Entry>, w: World) {
    SoundWorld(w, None) && Fits(names, w.held, w.db.stored, CursorOf(w.db, 0))
  }

  lemma {:induction false} FitsHistory(names: Tag -> seq<Entry>, w: World, launches: seq<Launch>)
    requires FitsWorld(names, w) && HonestHistory(w, launches) && NamedAll(names, launches)
    ensures FitsWorld(names, PlayAll(w, launches))
    decreases |launches|
  {
    if launches != [] {
      var l := launches[0];
      FitsThroughout(names, w.held, Begin(w.db, l.options, l.now), l.options, l.now, l.ticks);
      FitsHistory(names, Play(w, l), launches[1..]);
    }
  }

  lemma {:induction false} FitsTale(t: Tale)
    requires Honest(t)
    ensures FitsWorld(t.names, Left(t))
  {
    PositionIs(t.held, None, 0);
    FitsHistory(t.names, Fresh(t.held), t.launches);
  }

  // ----- when a complete report can be believed -----

  /**
   From an empty database, a process started from a row whose last run finished, or from one that holds no
   mark yet, or that sends no tag, reports itself complete only when nothing is missing.
   */
  lemma {:induction false} SettledRowsAreTrustworthy(row: Cursor, options: Options)
    requires !options.useEtag || row.etag.None? || Settled(row) || options.maxPages == 0
    ensures Trustworthy(row, options)
  {
    forall t: Tale, last: Launch | Completes(t, row, last, options) ensures Whole(Play(Left(t), last)) {
      var w := Left(t);
      var begin := Begin(w.db, options, last.now);
      FitsTale(t);
      if options.maxPages == 0 {
        ReportMeans(w.db, options, last.now, last.ticks);
        var k := LastTurn(begin, options, last.now, last.ticks);
      } else {
        FitsThroughout(t.names, w.held, begin, options, last.now, last.ticks);
      }
    }
  }

  /** How many entries a row's mark lies past. */
  function Behind(row: Cursor): nat {
    if row.nextToken.Some? then row.nextToken.value else row.recordsSeen
  }

  /** A row an honest history can leave counts what its mark lies past. */
  lemma {:induction false} ReachableRowsCount(row: Cursor)
    requires Reachable(row) && row.addedAfter.Some?
    ensures Behind(row) > 0 && Clamp(Behind(row)) == row.recordsSeen
  {
    var t: Tale :| Honest(t) && Left(t).db.saved == Some(row);
    FitsTale(t);
    var w := Left(t);
    SoundStart(w.held, None, w.db.stored, row.addedAfter, row.nextToken);
    var i :| 0 <= i < |w.held| && row.addedAfter == Some(w.held[i].stamp);
    PositionIs(w.held, row.addedAfter, i + 1);
  }

  // ----- when it cannot -----

  /** One entry more than the row's mark lies past. */
  function Hidden(row: Cursor): (held: seq<Entry>)
    requires row.addedAfter.Some?
  {
    var n := Behind(row);
    seq(n + 1, i => Entry(i, row.addedAfter.value - n + 1 + i))
  }

  function Stopped(row: Cursor, answer: Answer): Launch
    requires row.addedAfter.Some? && row.etag.Some?
  {
    Launch(Options(1, true), row.lastRunAt, [Tick(false, answer, true, false, true, Hidden(row), row.etag.value)])
  }

  /** Everything but the last entry, on one page that says there is more. */
  function PartialPage(row: Cursor): Answer
    requires row.addedAfter.Some?
  {
    Got(Page(Hidden(row)[..Behind(row)], row.addedAfter, row.nextToken, true, row.etag))
  }

  /**
   A history that leaves this row with one entry unfetched: a partial page and then, for a row that says
   so, a process whose fetch failed or was answered with a 304.
   */
  function Losing(row: Cursor): Tale
    requires row.addedAfter.Some? && row.etag.Some?
  {
    var held := Hidden(row);
    var first := Stopped(row, PartialPage(row));
    Tale(_ => held, held,
         if row.lastStatus.Partial? then [first]
         else [first, Stopped(row, if row.lastStatus.Failed? then Refused else Unchanged)])
  }

  /** A process of one turn. */
  lemma {:induction false} OneTurn(w: World, l: Launch)
    requires |l.ticks| == 1
    requires HonestTick(w.held, Begin(w.db, l.options, l.now), l.options, l.ticks[0])
    ensures HonestLaunch(w, l)
    ensures var step := Advance(Begin(w.db, l.options, l.now), l.options, l.now, l.ticks[0]);
            RunOf(w.db, l) == step && Play(w, l) == World(step.db, l.ticks[0].held)
  {
    var begin := Begin(w.db, l.options, l.now);
    var step := Advance(begin, l.options, l.now, l.ticks[0]);
    assert l.ticks[1..] == [];
    assert Drive(step, l.options, l.now, []) == step;
    assert Follow(l.ticks[0].held, step, l.options, l.now, []) == World(step.db, l.ticks[0].held);
  }

  lemma {:induction false} HiddenIsOrdered(row: Cursor)
    requires row.addedAfter.Some? && Behind(row) > 0
    ensures Ordered(Hidden(row)) && Position(Hidden(row), None) == 0
    ensures Hidden(row)[Behind(row)] !in Contents(Hidden(row)[..Behind(row)])
    ensures Hidden(row)[Behind(row) - 1].stamp == row.addedAfter.value
  {
    PositionIs(Hidden(row), None, 0);
  }

  /** The database once the partial page is in, under a row with some later status. */
  function Short(row: Cursor, status: Status): World
    requires row.addedAfter.Some?
  {
    World(Db(Contents(Hidden(row)[..Behind(row)]), Some(row.(lastStatus := status))), Hidden(row))
  }

  lemma {:induction false} PartialPageStops(row: Cursor)
    requires row.addedAfter.Some? && row.etag.Some? && Behind(row) > 0 && Clamp(Behind(row)) == row.recordsSeen
    ensures HonestLaunch(Fresh(Hidden(row)), Stopped(row, PartialPage(row)))
    ensures Play(Fresh(Hidden(row)), Stopped(row, PartialPage(row))) == Short(row, Partial)
  {
    HiddenIsOrdered(row);
    var w, l := Fresh(Hidden(row)), Stopped(row, PartialPage(row));
    var begin := Begin(w.db, l.options, l.now);
    assert Hidden(row)[0..Behind(row)] == Hidden(row)[..Behind(row)];
    assert HonestTick(w.held, begin, l.options, l.ticks[0]);
    OneTurn(w, l);
    assert {} + Contents(Hidden(row)[..Behind(row)]) == Contents(Hidden(row)[..Behind(row)]);
  }

  lemma {:induction false} ThenStops(row: Cursor, options: Options, now: Stamp, answer: Answer)
    requires row.addedAfter.Some? && row.etag.Some? && Behind(row) > 0
    requires options.maxPages > 0 && options.useEtag && !answer.Got?
    ensures var l := Launch(options, now, [Tick(false, answer, true, false, true, Hidden(row), row.etag.value)]);
            forall before :: var w := Short(row, before);
              && HonestLaunch(w, l)
              && Play(w, l) == Short(row.(lastRunAt := now), if answer.Refused? then Failed else NotModified)
              && (answer.Unchanged? ==>
                    OutcomeOf(RunOf(w.db, l)).Finished? && RunOf(w.db, l).outcome.report.IsComplete())
  {
    HiddenIsOrdered(row);
    var l := Launch(options, now, [Tick(false, answer, true, false, true, Hidden(row), row.etag.value)]);
    forall before ensures var w := Short(row, before);
              && HonestLaunch(w, l)
              && Play(w, l) == Short(row.(lastRunAt := now), if answer.Refused? then Failed else NotModified)
              && (answer.Unchanged? ==>
                    OutcomeOf(RunOf(w.db, l)).Finished? && RunOf(w.db, l).outcome.report.IsComplete())
    {
      var w := Short(row, before);
      assert HonestTick(w.held, Begin(w.db, options, now), options, l.ticks[0]);
      OneTurn(w, l);
    }
  }

  lemma {:induction false} LosingIsHonest(row: Cursor)
    requires row.addedAfter.Some? && row.etag.Some? && Behind(row) > 0 && Clamp(Behind(row)) == row.recordsSeen
    requires !row.lastStatus.Complete?
    ensures Honest(Losing(row)) && Left(Losing(row)) == Short(row, row.lastStatus)
  {
    HiddenIsOrdered(row);
    PartialPageStops(row);
    var first, blank := Stopped(row, PartialPage(row)), Fresh(Hidden(row));
    if row.lastStatus.Partial? {
      assert [first][1..] == [];
      assert HonestHistory(Short(row, Partial), []) && PlayAll(Short(row, Partial), []) == Short(row, Partial);
    } else {
      var answer := if row.lastStatus.Failed? then Refused else Unchanged;
      var second := Stopped(row, answer);
      ThenStops(row, Options(1, true), row.lastRunAt, answer);
      assert [first, second][1..] == [second] && [second][1..] == [];
      assert HonestHistory(Short(row, row.lastStatus), [])
          && PlayAll(Short(row, row.lastStatus), []) == Short(row, row.lastStatus);
      assert HonestHistory(Short(row, Partial), [second])
          && PlayAll(Short(row, Partial), [second]) == Short(row, row.lastStatus);
    }
  }

  /** From any other row an honest 304 can end a complete run with an entry missing. */
  lemma {:induction false} UnchangedHidesEntry(row: Cursor, options: Options) returns (t: Tale, last: Launch)
    requires row.addedAfter.Some? && row.etag.Some? && Behind(row) > 0 && Clamp(Behind(row)) == row.recordsSeen
    requires !row.lastStatus.Complete? && options.useEtag && options.maxPages > 0
    ensures Completes(t, row, last, options) && !Whole(Play(Left(t), last))
  {
    t := Losing(row);
    last := Launch(options, 0, [Tick(false, Unchanged, true, false, true, Hidden(row), row.etag.value)]);
    HiddenIsOrdered(row);
    LosingIsHonest(row);
    ThenStops(row, options, 0, Unchanged);
    assert row.(lastStatus := row.lastStatus) == row;
    assert Hidden(row.(lastRunAt := 0)) == Hidden(row);
    assert !Reached(None, Hidden(row)[Behind(row)]);
  }

  /**
   Exactly when "complete" can be trusted. Of the rows an honest history can leave, those and only those
   from which no tag will be sent, or whose last run finished, or which hold no mark yet.
   */
  lemma {:induction false} CompleteIsTrustworthy(row: Cursor, options: Options)
    requires Reachable(row)
    ensures Trustworthy(row, options) <==>
              !options.useEtag || row.etag.None? || options.maxPages == 0
              || row.lastStatus.Complete? || row.addedAfter.None?
  {
    if !options.useEtag || row.etag.None? || Settled(row) || options.maxPages == 0 {
      SettledRowsAreTrustworthy(row, options);
    } else {
      ReachableRowsCount(row);
      var t, last := UnchangedHidesEntry(row, options);
    }
  }

  /** Every status but `Complete` is that of such a row: one of two entries fetched, then a 304. */
  lemma {:induction false} EveryOtherStatusLoses(status: Status)
    requires !status.Complete?
    ensures var row := Cursor(Some(10), Some(7), Some(1), 0, status, 1);
            Reachable(row) && !Trustworthy(row, Options(1000, true))
  {
    var row := Cursor(Some(10), Some(7), Some(1), 0, status, 1);
    LosingIsHonest(row);
    assert row.(lastStatus := row.lastStatus) == row;
    var t, last := UnchangedHidesEntry(row, Options(1000, true));
  }

  /** The shortest such history: two entries, one page at a time, bounded to one page, then a 304. */
  lemma {:induction false} PartialTagLosesTheRest()
    ensures var held := [Entry(1, 10), Entry(2, 20)];
            var blank := Fresh(held);
            var page := Got(Page([held[0]], Some(10), Some(1), true, Some(7)));
            var bounded := Launch(Options(1, true), 100, [Tick(false, page, true, false, true, held, 7),
                                                         Tick(false, Refused, true, false, true, held, 7)]);
            var again := Launch(Options(1000, true), 200, [Tick(false, Unchanged, true, false, true, held, 7)]);
            var end := RunOf(Play(blank, bounded).db, again);
            && HonestHistory(blank, [bounded, again])
            && OutcomeOf(end).Finished? && end.outcome.report.IsComplete() && held[1] !in end.db.stored
  {
    var held := [Entry(1, 10), Entry(2, 20)];
    var blank := Fresh(held);
    var page := Got(Page([held[0]], Some(10), Some(1), true, Some(7)));
    var t1 := Tick(false, page, true, false, true, held, 7);
    var t2 := Tick(false, Refused, true, false, true, held, 7);
    var t3 := Tick(false, Unchanged, true, false, true, held, 7);
    var bounded := Launch(Options(1, true), 100, [t1, t2]);
    var again := Launch(Options(1000, true), 200, [t3]);
    var r0 := Begin(blank.db, bounded.options, 100);
    PositionIs(held, None, 0);
    assert held[0..1] == [held[0]];
    var r1 := Advance(r0, bounded.options, 100, t1);
    assert bounded.ticks[1..] == [t2];
    var r2 := Advance(r1, bounded.options, 100, t2);
    assert [t2][1..] == [];
    assert Follow(held, r1, bounded.options, 100, [t2]) == World(r2.db, held);
    assert Play(blank, bounded) == World(r2.db, held);
    var s0 := Begin(r2.db, again.options, 200);
    var s1 := Advance(s0, again.options, 200, t3);
    assert [t3][1..] == [];
    assert HonestTicks(held, s0, again.options, 200, again.ticks);
    assert [bounded, again][1..] == [again] && [again][1..] == [];
  }
}
