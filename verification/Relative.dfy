/**
 Both loops against a server that counts a token from the mark it is sent. The loops move the mark and the
 token together, so the token is counted twice; this module says exactly which runs are read whole.
 */
module Relative {
  import opened Machine
  import opened Feed
  import Taxii
  import OpenCti
  import Skips

  function Offset(token: Option<Token>): nat {
    if token.Some? then token.value else 0
  }

  /** Where such a server starts: the token says how far into what lies past the mark. */
  function StartPast(held: seq<Entry>, at: Option<Stamp>, token: Option<Token>): nat {
    var p := Position(held, at) + Offset(token);
    if p > |held| then |held| else p
  }

  /** The same as a rule for one list of entries. */
  function RuleOf(held: seq<Entry>): Skips.Rule {
    (at, token) => StartPast(held, at, token)
  }

  /** A page of such a server: its token, if it has one, counts from the same mark. */
  ghost predicate RelativeBlock(held: seq<Entry>, at: Option<Stamp>, token: Option<Token>, entries: seq<Entry>,
                                newest: Option<Stamp>, next: Option<Token>, more: bool)
  {
    && Block(held, StartPast(held, at, token), entries, newest, more)
    && (next.Some? ==> next.value == Offset(token) + |entries|)
  }

  /** Everything between a mark and where the request begins is stored. */
  ghost predicate StoredOver(held: seq<Entry>, at: Option<Stamp>, token: Option<Token>, stored: set<Entry>) {
    forall k :: Position(held, at) <= k < StartPast(held, at, token) ==> held[k] in stored
  }

  /** Nothing past a mark is stored yet. */
  ghost predicate Unfetched(held: seq<Entry>, at: Option<Stamp>, stored: set<Entry>) {
    forall k :: Position(held, at) <= k < |held| ==> held[k] !in stored
  }

  /** A request begins past its mark though something lies in between. */
  predicate StepsOver(held: seq<Entry>, at: Option<Stamp>, token: Option<Token>) {
    Position(held, at) < StartPast(held, at, token)
  }

  /** A mark is the one a run started from, or that of an entry past it that is stored. */
  ghost predicate Marked(held: seq<Entry>, start: Option<Stamp>, at: Option<Stamp>, stored: set<Entry>) {
    at == start
    || exists i :: 0 <= i < |held| && at == Some(held[i].stamp) && !Reached(start, held[i]) && held[i] in stored
  }

  /** Where stamps strictly increase, only what lies past the mark can be stepped over unstored. */
  lemma {:induction false} OverPlainly(held: seq<Entry>, start: Option<Stamp>, at: Option<Stamp>, token: Option<Token>,
                                       stored: set<Entry>)
    requires Ordered(held) && Marked(held, start, at, stored)
    ensures Skips.StoredOver(held, start, at, StartPast(held, at, token), stored) <==>
              StoredOver(held, at, token, stored)
  {
    var p := Position(held, at);
    forall k | p <= k < |held| ensures !Reached(start, held[k]) && !Skips.Before(held[k], at) {
      assert held[p].stamp <= held[k].stamp;
    }
    forall k | 0 <= k < p && !Reached(start, held[k]) && !Skips.Before(held[k], at) ensures held[k] in stored {
      var i :| 0 <= i < |held| && at == Some(held[i].stamp) && !Reached(start, held[i]) && held[i] in stored;
      assert k == i;
    }
  }

  /** The mark a page leaves is that of its last entry. */
  lemma {:induction false} PageMarks(held: seq<Entry>, start: Option<Stamp>, at: Option<Stamp>, token: Option<Token>,
                                     stored: set<Entry>, entries: seq<Entry>, newest: Option<Stamp>, more: bool)
    requires Ordered(held) && Marked(held, start, at, stored) && entries != []
    requires Block(held, StartPast(held, at, token), entries, newest, more)
    ensures Marked(held, start, newest, stored + Contents(entries))
  {
    var from := StartPast(held, at, token);
    var i := from + |entries| - 1;
    assert held[i] == entries[|entries| - 1];
    if at != start {
      var b :| 0 <= b < |held| && at == Some(held[b].stamp) && !Reached(start, held[b]);
      assert !Reached(at, held[Position(held, at)]);
    }
    assert held[Position(held, at)].stamp <= held[i].stamp;
    assert !Reached(start, held[i]) && held[i] in stored + Contents(entries);
  }

  /** A page leaves its mark at its end, and the entries past that end unfetched. */
  lemma {:induction false} EndsAtMark(held: seq<Entry>, at: Option<Stamp>, from: nat, stored: set<Entry>,
                                      entries: seq<Entry>, newest: Option<Stamp>, more: bool)
    requires Ordered(held) && entries != [] && Block(held, from, entries, newest, more)
    requires Unfetched(held, at, stored) && Position(held, at) <= from
    ensures Position(held, newest) == from + |entries|
    ensures Unfetched(held, newest, stored + Contents(entries))
  {
    PositionIs(held, newest, from + |entries|);
    assert forall i :: 0 <= i < |entries| ==> entries[i] == held[from + i];
  }

  /** Past the mark is past where a run began, if its mark never moved back. */
  lemma {:induction false} PastStart(held: seq<Entry>, start: Option<Stamp>, j: nat)
    requires Ordered(held) && Position(held, start) <= j < |held|
    ensures !Reached(start, held[j])
  {
    var p := Position(held, start);
    assert p < j ==> held[p].stamp < held[j].stamp;
  }

  // ----- TAXII -----

  /** What the server sends for the request the loop makes here. */
  ghost predicate TaxiiPage(held: seq<Entry>, run: Taxii.Run, page: Taxii.Page)
    requires run.Live?
  {
    RelativeBlock(held, run.cursor.addedAfter, run.next, page.entries, page.newest, page.next, page.more)
  }

  /** The server holds still; a refusal or a 304 may come at any time. */
  ghost predicate TaxiiTicks(held: seq<Entry>, run: Taxii.Run, options: Options, now: Stamp, ticks: seq<Taxii.Tick>)
    decreases |ticks|
  {
    run.Live? && ticks != [] ==>
      && (Taxii.Asks(run, options, ticks[0]) && ticks[0].answer.Got? ==> TaxiiPage(held, run, ticks[0].answer.page))
      && TaxiiTicks(held, Taxii.Advance(run, options, now, ticks[0]), options, now, ticks[1..])
  }

  lemma {:induction false} TaxiiFollowsRule(held: seq<Entry>, run: Taxii.Run, options: Options, now: Stamp,
                                            ticks: seq<Taxii.Tick>)
    requires TaxiiTicks(held, run, options, now, ticks)
    ensures Skips.TaxiiTicks(held, RuleOf(held), run, options, now, ticks)
    decreases |ticks|
  {
    if run.Live? && ticks != [] {
      TaxiiFollowsRule(held, Taxii.Advance(run, options, now, ticks[0]), options, now, ticks[1..]);
    }
  }

  /** At every loop head, everything between the mark and where the request begins is stored. */
  ghost predicate TaxiiOver(held: seq<Entry>, run: Taxii.Run, options: Options, now: Stamp, ticks: seq<Taxii.Tick>)
    decreases |ticks|
  {
    run.Live? && ticks != [] ==>
      && StoredOver(held, run.cursor.addedAfter, run.next, run.db.stored)
      && TaxiiOver(held, Taxii.Advance(run, options, now, ticks[0]), options, now, ticks[1..])
  }

  lemma {:induction false} TaxiiOverPlainly(held: seq<Entry>, start: Option<Stamp>, run: Taxii.Run, options: Options,
                                            now: Stamp, ticks: seq<Taxii.Tick>)
    requires Ordered(held) && TaxiiTicks(held, run, options, now, ticks)
    requires run.Live? ==> Marked(held, start, run.cursor.addedAfter, run.db.stored)
    ensures Skips.TaxiiOver(held, RuleOf(held), start, run, options, now, ticks) <==>
              TaxiiOver(held, run, options, now, ticks)
    decreases |ticks|
  {
    if run.Live? && ticks != [] {
      var at := run.cursor.addedAfter;
      OverPlainly(held, start, at, run.next, run.db.stored);
      if Taxii.Asks(run, options, ticks[0]) && ticks[0].answer.Got? && ticks[0].answer.page.entries != [] {
        var page := ticks[0].answer.page;
        PageMarks(held, start, at, run.next, run.db.stored, page.entries, page.newest, page.more);
      }
      TaxiiOverPlainly(held, start, Taxii.Advance(run, options, now, ticks[0]), options, now, ticks[1..]);
    }
  }

  /**
   Against every server that holds still and counts tokens from the mark, from any database: a complete run that
   was not answered with a 304 leaves everything past the mark it started from stored if and only if at every
   loop head everything between the mark and where the request begins was stored already.
   */
  lemma {:induction false} TaxiiCoversExactly(held: seq<Entry>, db: Db, options: Options, now: Stamp,
                                              ticks: seq<Taxii.Tick>)
    requires var begin := Taxii.Begin(db, options, now);
             && Ordered(held) && TaxiiTicks(held, begin, options, now, ticks)
             && var end := Taxii.Drive(begin, options, now, ticks);
             Taxii.OutcomeOf(end).Finished? && end.outcome.report.IsComplete() && !end.outcome.report.notModified
    ensures var begin := Taxii.Begin(db, options, now);
            AllCovered(held, begin.cursor.addedAfter, Taxii.Drive(begin, options, now, ticks).db.stored) <==>
              TaxiiOver(held, begin, options, now, ticks)
  {
    var begin := Taxii.Begin(db, options, now);
    TaxiiFollowsRule(held, begin, options, now, ticks);
    TaxiiOverPlainly(held, begin.cursor.addedAfter, begin, options, now, ticks);
    Skips.TaxiiCoversExactly(held, RuleOf(held), db, options, now, ticks);
  }

  /** A page is stored, with its row. */
  predicate TaxiiAccepts(run: Taxii.Run, options: Options, tick: Taxii.Tick)
    requires run.Live?
  {
    Taxii.Asks(run, options, tick) && tick.answer.Got? && tick.answer.page.entries != []
    && tick.ingested && !tick.killed && tick.persisted
  }

  /** Some accepted page claims more and carries a token. */
  predicate TaxiiCarries(run: Taxii.Run, options: Options, now: Stamp, ticks: seq<Taxii.Tick>)
    decreases |ticks|
  {
    run.Live? && ticks != []
    && ((TaxiiAccepts(run, options, ticks[0]) && ticks[0].answer.page.more && ticks[0].answer.page.next.Some?)
        || TaxiiCarries(Taxii.Advance(run, options, now, ticks[0]), options, now, ticks[1..]))
  }

  /** With nothing past the mark stored, what is stepped over is never stored, and a token on a page steps over it. */
  lemma {:induction false} TaxiiFreshOver(held: seq<Entry>, run: Taxii.Run, options: Options, now: Stamp,
                                          ticks: seq<Taxii.Tick>)
    requires run.Live? && Ordered(held) && Unfetched(held, run.cursor.addedAfter, run.db.stored)
    requires TaxiiTicks(held, run, options, now, ticks)
    requires Taxii.OutcomeOf(Taxii.Drive(run, options, now, ticks)).Finished?
    ensures TaxiiOver(held, run, options, now, ticks) <==>
              !StepsOver(held, run.cursor.addedAfter, run.next) && !TaxiiCarries(run, options, now, ticks)
    decreases |ticks|
  {
    var at, step := run.cursor.addedAfter, Taxii.Advance(run, options, now, ticks[0]);
    if StepsOver(held, at, run.next) {
      assert held[Position(held, at)] !in run.db.stored;
    } else if step.Live? {
      var page := ticks[0].answer.page;
      EndsAtMark(held, at, StartPast(held, at, run.next), run.db.stored, page.entries, page.newest, page.more);
      TaxiiFreshOver(held, step, options, now, ticks[1..]);
      assert StepsOver(held, page.newest, page.next) <==> page.next.Some?;
    }
  }

  /**
   So a complete run that started with nothing past its mark stored fetches everything past it if and only if no
   accepted page both claimed more and carried a token, and the row it started from did not carry one past
   something unfetched.
   */
  lemma {:induction false} TaxiiFreshCoversExactly(held: seq<Entry>, db: Db, options: Options, now: Stamp,
                                                   ticks: seq<Taxii.Tick>)
    requires var begin := Taxii.Begin(db, options, now);
             && Ordered(held) && Unfetched(held, begin.cursor.addedAfter, db.stored)
             && TaxiiTicks(held, begin, options, now, ticks)
             && var end := Taxii.Drive(begin, options, now, ticks);
             Taxii.OutcomeOf(end).Finished? && end.outcome.report.IsComplete() && !end.outcome.report.notModified
    ensures var begin := Taxii.Begin(db, options, now);
            AllCovered(held, begin.cursor.addedAfter, Taxii.Drive(begin, options, now, ticks).db.stored) <==>
              !StepsOver(held, begin.cursor.addedAfter, begin.next) && !TaxiiCarries(begin, options, now, ticks)
  {
    TaxiiCoversExactly(held, db, options, now, ticks);
    TaxiiFreshOver(held, Taxii.Begin(db, options, now), options, now, ticks);
  }

  // ----- OpenCTI -----

  ghost predicate OpenCtiPage(held: seq<Entry>, broken: set<Entry>, run: OpenCti.Run, page: OpenCti.Page)
    requires run.Live?
  {
    && page.unrenderable <= broken
    && RelativeBlock(held, run.cursor.addedAfter, run.after, page.entries, page.newest, page.next, page.more)
  }

  /** As for TAXII; an object the server cannot render is one of `broken`. */
  ghost predicate OpenCtiTicks(held: seq<Entry>, broken: set<Entry>, run: OpenCti.Run, options: Options, now: Stamp,
                               ticks: seq<OpenCti.Tick>)
    decreases |ticks|
  {
    run.Live? && ticks != [] ==>
      && (OpenCti.Asks(run, options, ticks[0]) && ticks[0].answer.Got? ==>
            OpenCtiPage(held, broken, run, ticks[0].answer.page))
      && OpenCtiTicks(held, broken, OpenCti.Advance(run, options, now, ticks[0]), options, now, ticks[1..])
  }

  lemma {:induction false} OpenCtiFollowsRule(held: seq<Entry>, broken: set<Entry>, run: OpenCti.Run, options: Options,
                                              now: Stamp, ticks: seq<OpenCti.Tick>)
    requires OpenCtiTicks(held, broken, run, options, now, ticks)
    ensures Skips.OpenCtiTicks(held, broken, RuleOf(held), run, options, now, ticks)
    decreases |ticks|
  {
    if run.Live? && ticks != [] {
      OpenCtiFollowsRule(held, broken, OpenCti.Advance(run, options, now, ticks[0]), options, now, ticks[1..]);
    }
  }

  /** At every loop head, everything between the mark and where the request begins is stored or cannot be rendered. */
  ghost predicate OpenCtiOver(held: seq<Entry>, broken: set<Entry>, run: OpenCti.Run, options: Options, now: Stamp,
                              ticks: seq<OpenCti.Tick>)
    decreases |ticks|
  {
    run.Live? && ticks != [] ==>
      && StoredOver(held, run.cursor.addedAfter, run.after, run.db.stored + broken)
      && OpenCtiOver(held, broken, OpenCti.Advance(run, options, now, ticks[0]), options, now, ticks[1..])
  }

  lemma {:induction false} OpenCtiOverPlainly(held: seq<Entry>, broken: set<Entry>, start: Option<Stamp>,
                                              run: OpenCti.Run, options: Options, now: Stamp, ticks: seq<OpenCti.Tick>)
    requires Ordered(held) && OpenCtiTicks(held, broken, run, options, now, ticks)
    requires run.Live? ==> Marked(held, start, run.cursor.addedAfter, run.db.stored + broken)
    ensures Skips.OpenCtiOver(held, broken, RuleOf(held), start, run, options, now, ticks) <==>
              OpenCtiOver(held, broken, run, options, now, ticks)
    decreases |ticks|
  {
    if run.Live? && ticks != [] {
      var at, known := run.cursor.addedAfter, run.db.stored + broken;
      OverPlainly(held, start, at, run.after, known);
      if OpenCti.Asks(run, options, ticks[0]) && ticks[0].answer.Got? && ticks[0].answer.page.entries != [] {
        var page := ticks[0].answer.page;
        PageMarks(held, start, at, run.after, known, page.entries, page.newest, page.more);
        assert known + Contents(page.entries) == run.db.stored + OpenCti.Rendered(page) + broken;
      }
      OpenCtiOverPlainly(held, broken, start, OpenCti.Advance(run, options, now, ticks[0]), options, now, ticks[1..]);
    }
  }

  /** The same for OpenCTI, from any database and whatever cannot be rendered. */
  lemma {:induction false} OpenCtiCoversExactly(held: seq<Entry>, broken: set<Entry>, db: Db, options: Options,
                                                now: Stamp, ticks: seq<OpenCti.Tick>)
    requires var begin := OpenCti.Begin(db, now);
             && Ordered(held) && OpenCtiTicks(held, broken, begin, options, now, ticks)
             && var end := OpenCti.Drive(begin, options, now, ticks);
             OpenCti.OutcomeOf(end).Finished? && end.outcome.report.IsComplete()
    ensures var begin := OpenCti.Begin(db, now);
            var stored := OpenCti.Drive(begin, options, now, ticks).db.stored;
            AllCovered(held, begin.cursor.addedAfter, stored + broken) <==>
              OpenCtiOver(held, broken, begin, options, now, ticks)
  {
    var begin := OpenCti.Begin(db, now);
    OpenCtiFollowsRule(held, broken, begin, options, now, ticks);
    OpenCtiOverPlainly(held, broken, begin.cursor.addedAfter, begin, options, now, ticks);
    Skips.OpenCtiCoversExactly(held, broken, RuleOf(held), db, options, now, ticks);
  }

  predicate OpenCtiAccepts(run: OpenCti.Run, options: Options, tick: OpenCti.Tick)
    requires run.Live?
  {
    OpenCti.Asks(run, options, tick) && tick.answer.Got? && tick.answer.page.entries != []
    && tick.ingested && !tick.killed && tick.persisted
  }

  predicate OpenCtiCarries(run: OpenCti.Run, options: Options, now: Stamp, ticks: seq<OpenCti.Tick>)
    decreases |ticks|
  {
    run.Live? && ticks != []
    && ((OpenCtiAccepts(run, options, ticks[0]) && ticks[0].answer.page.more && ticks[0].answer.page.next.Some?)
        || OpenCtiCarries(OpenCti.Advance(run, options, now, ticks[0]), options, now, ticks[1..]))
  }

  /** A run that goes on past its first page goes on with a cursor, and never comes back for what that steps over. */
  lemma {:induction false} OpenCtiGoesOnShort(held: seq<Entry>, broken: set<Entry>, run: OpenCti.Run, options: Options,
                                              now: Stamp, ticks: seq<OpenCti.Tick>)
    requires run.Live? && run.after.None? && ticks != [] && OpenCti.Advance(run, options, now, ticks[0]).Live?
    requires Ordered(held) && Unfetched(held, run.cursor.addedAfter, run.db.stored)
    requires OpenCtiTicks(held, broken, run, options, now, ticks)
    ensures OpenCtiCarries(run, options, now, ticks)
    ensures !AllCovered(held, run.cursor.addedAfter, OpenCti.Drive(run, options, now, ticks).db.stored)
  {
    var at, page, rest := run.cursor.addedAfter, ticks[0].answer.page, ticks[1..];
    var step := OpenCti.Advance(run, options, now, ticks[0]);
    EndsAtMark(held, at, Position(held, at), run.db.stored, page.entries, page.newest, page.more);
    var j := Position(held, page.newest);
    assert j < |held| && held[j] !in step.db.stored && j < StartPast(held, page.newest, page.next);
    OpenCtiFollowsRule(held, broken, step, options, now, rest);
    Skips.OpenCtiLostForGood(held, broken, RuleOf(held), step, j, options, now, rest);
    PastStart(held, at, j);
  }

  /**
   OpenCTI always starts without a page cursor and goes on only with one. So a complete run that started with
   nothing past its mark stored fetches everything past it, but for what cannot be rendered, if it took one page,
   and otherwise leaves an entry past its mark unstored.
   */
  lemma {:induction false} OpenCtiFreshCoversExactly(held: seq<Entry>, broken: set<Entry>, db: Db, options: Options,
                                                     now: Stamp, ticks: seq<OpenCti.Tick>)
    requires var begin := OpenCti.Begin(db, now);
             && Ordered(held) && Unfetched(held, begin.cursor.addedAfter, db.stored)
             && OpenCtiTicks(held, broken, begin, options, now, ticks)
             && var end := OpenCti.Drive(begin, options, now, ticks);
             OpenCti.OutcomeOf(end).Finished? && end.outcome.report.IsComplete()
    ensures var begin := OpenCti.Begin(db, now);
            var start, stored := begin.cursor.addedAfter, OpenCti.Drive(begin, options, now, ticks).db.stored;
            && (!OpenCtiCarries(begin, options, now, ticks) ==> AllCovered(held, start, stored + broken))
            && (OpenCtiCarries(begin, options, now, ticks) ==> !AllCovered(held, start, stored))
            && (broken == {} ==> (AllCovered(held, start, stored) <==> !OpenCtiCarries(begin, options, now, ticks)))
  {
    var begin := OpenCti.Begin(db, now);
    var start, step := begin.cursor.addedAfter, OpenCti.Advance(begin, options, now, ticks[0]);
    OpenCtiCoversExactly(held, broken, db, options, now, ticks);
    if step.Live? {
      OpenCtiGoesOnShort(held, broken, begin, options, now, ticks);
    } else {
      assert !OpenCtiCarries(step, options, now, ticks[1..]);
      assert OpenCtiOver(held, broken, step, options, now, ticks[1..]);
      assert OpenCti.Drive(begin, options, now, ticks) == step;
    }
    var stored := OpenCti.Drive(begin, options, now, ticks).db.stored;
    assert broken == {} ==> stored + broken == stored;
  }

  // ----- the shortest such runs -----

  lemma {:induction false} ThreeEntries()
    ensures var held := [Entry(1, 10), Entry(2, 20), Entry(3, 30)];
            && RelativeBlock(held, None, None, [held[0]], Some(10), Some(1), true)
            && RelativeBlock(held, Some(10), Some(1), [held[2]], Some(30), None, false)
            && held[1] !in Contents([held[0]]) && held[1] !in Contents([held[2]])
  {
    var held := [Entry(1, 10), Entry(2, 20), Entry(3, 30)];
    PositionIs(held, None, 0);
    PositionIs(held, Some(10), 1);
  }

  /** Two of three entries, one at a time, and a report that says complete. */
  lemma {:induction false} RelativeTokensSkip()
    ensures var held := [Entry(1, 10), Entry(2, 20), Entry(3, 30)];
            var one := Taxii.Page([held[0]], Some(10), Some(1), true, None);
            var two := Taxii.Page([held[2]], Some(30), None, false, None);
            var t1 := Taxii.Tick(false, Taxii.Got(one), true, false, true, held, 7);
            var t2 := Taxii.Tick(false, Taxii.Got(two), true, false, true, held, 7);
            var begin := Taxii.Begin(Db({}, None), Options(1000, false), 0);
            var end := Taxii.Drive(begin, Options(1000, false), 0, [t1, t2]);
            && TaxiiTicks(held, begin, Options(1000, false), 0, [t1, t2])
            && Taxii.OutcomeOf(end).Finished? && end.outcome.report.IsComplete() && held[1] !in end.db.stored
  {
    var held := [Entry(1, 10), Entry(2, 20), Entry(3, 30)];
    var options := Options(1000, false);
    var one := Taxii.Page([held[0]], Some(10), Some(1), true, None);
    var two := Taxii.Page([held[2]], Some(30), None, false, None);
    var t1 := Taxii.Tick(false, Taxii.Got(one), true, false, true, held, 7);
    var t2 := Taxii.Tick(false, Taxii.Got(two), true, false, true, held, 7);
    var begin := Taxii.Begin(Db({}, None), options, 0);
    ThreeEntries();
    TaxiiTwoTurns(held, begin, options, 0, t1, t2);
  }

  /** A process of two turns. */
  lemma {:induction false} TaxiiTwoTurns(held: seq<Entry>, run: Taxii.Run, options: Options, now: Stamp,
                                         t1: Taxii.Tick, t2: Taxii.Tick)
    requires run.Live? && Taxii.Advance(run, options, now, t1).Live?
    requires Taxii.Advance(Taxii.Advance(run, options, now, t1), options, now, t2).Done?
    requires t1.answer.Got? && TaxiiPage(held, run, t1.answer.page)
    requires t2.answer.Got? && TaxiiPage(held, Taxii.Advance(run, options, now, t1), t2.answer.page)
    ensures TaxiiTicks(held, run, options, now, [t1, t2])
    ensures Taxii.Drive(run, options, now, [t1, t2])
         == Taxii.Advance(Taxii.Advance(run, options, now, t1), options, now, t2)
  {
    var head := Taxii.Advance(run, options, now, t1);
    var tail := Taxii.Advance(head, options, now, t2);
    assert [t1, t2][1..] == [t2] && [t2][1..] == [];
    assert TaxiiTicks(held, tail, options, now, []) && TaxiiTicks(held, head, options, now, [t2]);
    assert Taxii.Drive(head, options, now, [t2]) == tail;
  }

  /** The same against an OpenCTI instance. */
  lemma {:induction false} RelativeCursorsSkip()
    ensures var held := [Entry(1, 10), Entry(2, 20), Entry(3, 30)];
            var one := OpenCti.Page([held[0]], {}, Some(10), Some(1), true);
            var two := OpenCti.Page([held[2]], {}, Some(30), None, false);
            var t1 := OpenCti.Tick(false, OpenCti.Got(one), true, false, true, true, held);
            var t2 := OpenCti.Tick(false, OpenCti.Got(two), true, false, true, true, held);
            var begin := OpenCti.Begin(Db({}, None), 0);
            var end := OpenCti.Drive(begin, Options(1000, true), 0, [t1, t2]);
            && OpenCtiTicks(held, {}, begin, Options(1000, true), 0, [t1, t2])
            && OpenCti.OutcomeOf(end).Finished? && end.outcome.report.IsComplete() && held[1] !in end.db.stored
  {
    var held := [Entry(1, 10), Entry(2, 20), Entry(3, 30)];
    var options := Options(1000, true);
    var one := OpenCti.Page([held[0]], {}, Some(10), Some(1), true);
    var two := OpenCti.Page([held[2]], {}, Some(30), None, false);
    var t1 := OpenCti.Tick(false, OpenCti.Got(one), true, false, true, true, held);
    var t2 := OpenCti.Tick(false, OpenCti.Got(two), true, false, true, true, held);
    var begin := OpenCti.Begin(Db({}, None), 0);
    ThreeEntries();
    OpenCtiTwoTurns(held, begin, options, 0, t1, t2);
  }

  lemma {:induction false} OpenCtiTwoTurns(held: seq<Entry>, run: OpenCti.Run, options: Options, now: Stamp,
                                           t1: OpenCti.Tick, t2: OpenCti.Tick)
    requires run.Live? && OpenCti.Advance(run, options, now, t1).Live?
    requires OpenCti.Advance(OpenCti.Advance(run, options, now, t1), options, now, t2).Done?
    requires t1.answer.Got? && OpenCtiPage(held, {}, run, t1.answer.page)
    requires t2.answer.Got? && OpenCtiPage(held, {}, OpenCti.Advance(run, options, now, t1), t2.answer.page)
    ensures OpenCtiTicks(held, {}, run, options, now, [t1, t2])
    ensures OpenCti.Drive(run, options, now, [t1, t2])
         == OpenCti.Advance(OpenCti.Advance(run, options, now, t1), options, now, t2)
  {
    var head := OpenCti.Advance(run, options, now, t1);
    var tail := OpenCti.Advance(head, options, now, t2);
    assert [t1, t2][1..] == [t2] && [t2][1..] == [];
    assert OpenCtiTicks(held, {}, tail, options, now, []) && OpenCtiTicks(held, {}, head, options, now, [t2]);
    assert OpenCti.Drive(head, options, now, [t2]) == tail;
  }
}
