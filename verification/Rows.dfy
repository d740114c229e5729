/**
 What a process leaves behind, told from the answers it got: at every loop head, and however it ends. Nothing is
 assumed of the server.
 */
module Rows {
  import opened Machine
  import opened Feed
  import Taxii
  import OpenCti

  /** The last thing said, or what held before if nothing was. */
  ghost predicate Latest<T(!new)>(said: seq<Option<T>>, first: Option<T>, last: Option<T>) {
    || (last == first && forall j :: 0 <= j < |said| ==> said[j].None?)
    || exists i :: 0 <= i < |said| && said[i].Some? && said[i] == last && forall j :: i < j < |said| ==> said[j].None?
  }

  lemma {:induction false} LatestGrows<T(!new)>(said: seq<Option<T>>, first: Option<T>, last: Option<T>,
                                                more: Option<T>)
    requires Latest(said, first, last)
    ensures Latest(said + [more], first, more.Or(last))
  {
    var all := said + [more];
    assert forall j :: 0 <= j < |said| ==> all[j] == said[j];
    if more.Some? {
      assert all[|said|] == more;
    } else if !(last == first && forall j :: 0 <= j < |said| ==> said[j].None?) {
      var i :| 0 <= i < |said| && said[i].Some? && said[i] == last && forall j :: i < j < |said| ==> said[j].None?;
      assert all[i].Some? && forall j :: i < j < |all| ==> all[j].None?;
    }
  }

  // ----- what some pages come to -----

  /** What a process takes from one page. An empty page moves no mark. */
  datatype Sent = Sent(records: set<Entry>, count: nat, newest: Option<Stamp>, etag: Option<Tag>)

  function Marks(pages: seq<Sent>): seq<Option<Stamp>> {
    seq(|pages|, i requires 0 <= i < |pages| => pages[i].newest)
  }

  function TagsOf(pages: seq<Sent>): seq<Option<Tag>> {
    seq(|pages|, i requires 0 <= i < |pages| => pages[i].etag)
  }

  function Objects(pages: seq<Sent>): nat {
    if pages == [] then 0 else Objects(pages[..|pages| - 1]) + pages[|pages| - 1].count
  }

  ghost predicate IsOn(pages: seq<Sent>, e: Entry) {
    exists i :: 0 <= i < |pages| && e in pages[i].records
  }

  /** What some pages come to, from a first row and the records there were: the row's figures, and the records. */
  ghost predicate Tells(first: Cursor, stored: set<Entry>, pages: seq<Sent>, cursor: Cursor, now: set<Entry>,
                        count: u64, objects: u64)
  {
    && count == Clamp(|pages|) && objects == Clamp(Objects(pages))
    && cursor.recordsSeen == SatAdd(first.recordsSeen, Objects(pages))
    && Latest(Marks(pages), first.addedAfter, cursor.addedAfter)
    && Latest(TagsOf(pages), first.etag, cursor.etag)
    && forall e :: e in now <==> e in stored || IsOn(pages, e)
  }

  lemma {:induction false} OnOneMore(pages: seq<Sent>, page: Sent, e: Entry)
    ensures IsOn(pages + [page], e) <==> IsOn(pages, e) || e in page.records
  {
    var all := pages + [page];
    assert all[|pages|] == page && forall i :: 0 <= i < |pages| ==> all[i] == pages[i];
  }

  lemma {:induction false} ListsOneMore(pages: seq<Sent>, page: Sent)
    ensures Marks(pages + [page]) == Marks(pages) + [page.newest]
    ensures TagsOf(pages + [page]) == TagsOf(pages) + [page.etag]
    ensures Objects(pages + [page]) == Objects(pages) + page.count
  {
    assert (pages + [page])[..|pages|] == pages;
  }

  lemma {:induction false} TellsOneMore(first: Cursor, stored: set<Entry>, pages: seq<Sent>, cursor: Cursor,
                                        now: set<Entry>, count: u64, objects: u64, page: Sent, later: Cursor)
    requires Tells(first, stored, pages, cursor, now, count, objects)
    requires later.addedAfter == page.newest.Or(cursor.addedAfter) && later.etag == page.etag.Or(cursor.etag)
    requires later.recordsSeen == SatAdd(cursor.recordsSeen, page.count)
    ensures Tells(first, stored, pages + [page], later, now + page.records, SatAdd(count, 1),
                  SatAdd(objects, page.count))
  {
    ListsOneMore(pages, page);
    LatestGrows(Marks(pages), first.addedAfter, cursor.addedAfter, page.newest);
    LatestGrows(TagsOf(pages), first.etag, cursor.etag, page.etag);
    forall e ensures IsOn(pages + [page], e) <==> IsOn(pages, e) || e in page.records {
      OnOneMore(pages, page, e);
    }
  }

  /** What one page more, or none, adds to a row, the records and the counts. */
  predicate Adds(cursor: Cursor, now: set<Entry>, count: u64, objects: u64, more: seq<Sent>, later: Cursor,
                 held: set<Entry>, counted: u64, counting: u64)
  {
    if more == [] then
      && later.addedAfter == cursor.addedAfter && later.etag == cursor.etag
      && later.recordsSeen == cursor.recordsSeen && held == now && counted == count && counting == objects
    else
      var page := more[0];
      && later.addedAfter == page.newest.Or(cursor.addedAfter) && later.etag == page.etag.Or(cursor.etag)
      && later.recordsSeen == SatAdd(cursor.recordsSeen, page.count) && held == now + page.records
      && counted == SatAdd(count, 1) && counting == SatAdd(objects, page.count)
  }

  lemma {:induction false} TellsWith(first: Cursor, stored: set<Entry>, pages: seq<Sent>, cursor: Cursor,
                                     now: set<Entry>, count: u64, objects: u64, more: seq<Sent>, later: Cursor,
                                     held: set<Entry>, counted: u64, counting: u64)
    requires Tells(first, stored, pages, cursor, now, count, objects) && |more| <= 1
    requires Adds(cursor, now, count, objects, more, later, held, counted, counting)
    ensures Tells(first, stored, pages + more, later, held, counted, counting)
  {
    if more == [] {
      assert pages + more == pages;
    } else {
      TellsOneMore(first, stored, pages, cursor, now, count, objects, more[0], later);
      assert more == [more[0]];
    }
  }

  /** A failed turn records only that it failed, and when. */
  predicate Failing(row: Cursor, cursor: Cursor, now: Stamp) {
    row == cursor.(lastStatus := Failed, lastRunAt := now)
  }

  /** What a feed nothing was fetched from starts with. */
  lemma {:induction false} StartsBlank(now: Stamp)
    ensures CursorOf(Db({}, None), now) == Cursor(None, None, None, now, Complete, 0)
    ensures forall row :: CursorOf(Db({}, Some(row)), now) == row
  {
  }

  // ----- TAXII: loop heads -----

  function OnPage(page: Taxii.Page): Sent {
    Sent(set e | e in page.entries, |page.entries|, if page.entries == [] then None else page.newest, page.etag)
  }

  function TaxiiSent(ticks: seq<Taxii.Tick>): (r: seq<Sent>)
    requires forall i :: 0 <= i < |ticks| ==> ticks[i].answer.Got?
    ensures |r| == |ticks| && forall i :: 0 <= i < |ticks| ==> r[i] == OnPage(ticks[i].answer.page)
  {
    seq(|ticks|, i requires 0 <= i < |ticks| => OnPage(ticks[i].answer.page))
  }

  /** Every turn so far took a page that said there was more. */
  ghost predicate TaxiiTaken(ticks: seq<Taxii.Tick>) {
    forall i :: 0 <= i < |ticks| ==>
      && !ticks[i].cancelled && ticks[i].answer.Got? && ticks[i].answer.page.entries != []
      && ticks[i].answer.page.more && ticks[i].ingested && !ticks[i].killed && ticks[i].persisted
  }

  /** The row at a loop head: the one found, or the one written with the last page. */
  ghost predicate TaxiiRow(db: Db, now: Stamp, ticks: seq<Taxii.Tick>, head: Taxii.Run)
    requires head.Live? && TaxiiTaken(ticks)
  {
    if ticks == [] then head.db == db && head.cursor == CursorOf(db, now)
    else
      && head.db.saved == Some(head.cursor) && head.cursor.lastStatus == Partial && head.cursor.lastRunAt == now
      && head.cursor.nextToken == ticks[|ticks| - 1].answer.page.next
  }

  lemma {:induction false} TaxiiDrives(run: Taxii.Run, options: Options, now: Stamp, ticks: seq<Taxii.Tick>, n: nat)
    requires n < |ticks|
    ensures var before := Taxii.Drive(run, options, now, ticks[..n]);
            Taxii.Drive(run, options, now, ticks[..n + 1]) ==
              if before.Live? then Taxii.Advance(before, options, now, ticks[n]) else before
    decreases n
  {
    var all, part := ticks[..n + 1], ticks[..n];
    if n > 0 && run.Live? {
      assert all[1..] == ticks[1..][..n] && part[1..] == ticks[1..][..n - 1];
      TaxiiDrives(Taxii.Advance(run, options, now, ticks[0]), options, now, ticks[1..], n - 1);
    } else if run.Live? {
      assert all[1..] == [];
    }
  }

  /**
   Every loop head, after any number of turns and whatever the server said: as many pages as turns, the objects on
   them counted, the mark and the tag the last ones given, the token the last page's, exactly the entries of those
   pages stored, and the row of the last page written.
   */
  lemma {:induction false} TaxiiHeads(db: Db, options: Options, now: Stamp, ticks: seq<Taxii.Tick>, n: nat)
    requires n <= |ticks| && Taxii.Drive(Taxii.Begin(db, options, now), options, now, ticks[..n]).Live?
    ensures var head := Taxii.Drive(Taxii.Begin(db, options, now), options, now, ticks[..n]);
            && TaxiiTaken(ticks[..n]) && TaxiiRow(db, now, ticks[..n], head) && head.next == head.cursor.nextToken
            && Tells(CursorOf(db, now), db.stored, TaxiiSent(ticks[..n]), head.cursor, head.db.stored, head.pages,
                     head.objects)
  {
    var begin := Taxii.Begin(db, options, now);
    if n == 0 {
      assert ticks[..0] == [];
    } else {
      TaxiiDrives(begin, options, now, ticks, n - 1);
      TaxiiHeads(db, options, now, ticks, n - 1);
      var before := Taxii.Drive(begin, options, now, ticks[..n - 1]);
      TaxiiOneMore(db, now, ticks[..n - 1], before, options, ticks[n - 1]);
      assert ticks[..n] == ticks[..n - 1] + [ticks[n - 1]];
    }
  }

  lemma {:induction false} TaxiiOneMore(db: Db, now: Stamp, ticks: seq<Taxii.Tick>, head: Taxii.Run, options: Options,
                                        tick: Taxii.Tick)
    requires head.Live? && TaxiiTaken(ticks) && Taxii.Advance(head, options, now, tick).Live?
    requires Tells(CursorOf(db, now), db.stored, TaxiiSent(ticks), head.cursor, head.db.stored, head.pages,
                   head.objects)
    ensures var next := Taxii.Advance(head, options, now, tick);
            && TaxiiTaken(ticks + [tick]) && TaxiiRow(db, now, ticks + [tick], next)
            && next.next == next.cursor.nextToken
            && Tells(CursorOf(db, now), db.stored, TaxiiSent(ticks + [tick]), next.cursor, next.db.stored, next.pages,
                     next.objects)
  {
    var page, next := OnPage(tick.answer.page), Taxii.Advance(head, options, now, tick);
    TellsOneMore(CursorOf(db, now), db.stored, TaxiiSent(ticks), head.cursor, head.db.stored, head.pages,
                 head.objects, page, next.cursor);
    assert TaxiiSent(ticks + [tick]) == TaxiiSent(ticks) + [page];
  }

  // ----- TAXII: endings -----

  /** The server was asked on this turn and sent a page. */
  predicate TaxiiAnswered(head: Taxii.Run, options: Options, tick: Taxii.Tick)
    requires head.Live?
  {
    Taxii.Asks(head, options, tick) && tick.answer.Got?
  }

  /** The pages a process was sent: those of the turns that went on, and this turn's if it had one. */
  function TaxiiPages(head: Taxii.Run, options: Options, ticks: seq<Taxii.Tick>, tick: Taxii.Tick): seq<Sent>
    requires head.Live? && forall i :: 0 <= i < |ticks| ==> ticks[i].answer.Got?
  {
    TaxiiSent(ticks) + if TaxiiAnswered(head, options, tick) then [OnPage(tick.answer.page)] else []
  }

  /** What a report says of the turn it was made on. */
  ghost predicate TaxiiReports(db: Db, options: Options, now: Stamp, head: Taxii.Run, tick: Taxii.Tick, end: Db,
                               report: Report)
    requires head.Live?
  {
    && report.cursor.lastStatus == (if !Taxii.Asks(head, options, tick) then Partial
                                    else if tick.answer.Unchanged? then NotModified else Complete)
    && report.notModified == report.cursor.lastStatus.NotModified?
    && report.cursor.lastRunAt == now && end.saved == Some(report.cursor)
    && report.cursor.nextToken == (if report.cursor.lastStatus.Complete? then None else head.next)
  }

  lemma {:induction false} TaxiiLastAdds(head: Taxii.Run, now: Stamp, options: Options, tick: Taxii.Tick)
    requires head.Live? && Taxii.OutcomeOf(Taxii.Advance(head, options, now, tick)).Finished?
    ensures var end := Taxii.Advance(head, options, now, tick);
            var report := end.outcome.report;
            Adds(head.cursor, head.db.stored, head.pages, head.objects,
                 if TaxiiAnswered(head, options, tick) then [OnPage(tick.answer.page)] else [], report.cursor,
                 end.db.stored, report.pages, report.objects)
  {
    if TaxiiAnswered(head, options, tick) {
      var page := OnPage(tick.answer.page);
      assert tick.answer.page.entries == [] ==> head.db.stored + page.records == head.db.stored;
    }
  }

  lemma {:induction false} TaxiiLastTurn(db: Db, now: Stamp, ticks: seq<Taxii.Tick>, head: Taxii.Run,
                                         options: Options, tick: Taxii.Tick)
    requires head.Live? && TaxiiTaken(ticks) && head.next == head.cursor.nextToken
    requires Taxii.OutcomeOf(Taxii.Advance(head, options, now, tick)).Finished?
    requires Tells(CursorOf(db, now), db.stored, TaxiiSent(ticks), head.cursor, head.db.stored, head.pages,
                   head.objects)
    ensures var end := Taxii.Advance(head, options, now, tick);
            var report := end.outcome.report;
            && TaxiiReports(db, options, now, head, tick, end.db, report)
            && Tells(CursorOf(db, now), db.stored, TaxiiPages(head, options, ticks, tick), report.cursor,
                     end.db.stored, report.pages, report.objects)
  {
    var end := Taxii.Advance(head, options, now, tick);
    var report := end.outcome.report;
    TaxiiLastAdds(head, now, options, tick);
    TellsWith(CursorOf(db, now), db.stored, TaxiiSent(ticks), head.cursor, head.db.stored, head.pages, head.objects,
              if TaxiiAnswered(head, options, tick) then [OnPage(tick.answer.page)] else [], report.cursor,
              end.db.stored, report.pages, report.objects);
  }

  /**
   A finished process, whatever the server said: its figures tell of every page it was sent; it is partial when it
   was cancelled or met the bound, not modified after a 304, and complete otherwise; and its row keeps the token it
   would have sent next, unless it is complete.
   */
  lemma {:induction false} TaxiiFinishes(db: Db, options: Options, now: Stamp, ticks: seq<Taxii.Tick>)
    returns (k: nat)
    requires Taxii.OutcomeOf(Taxii.Drive(Taxii.Begin(db, options, now), options, now, ticks)).Finished?
    ensures k < |ticks| && TaxiiTaken(ticks[..k])
    ensures var begin := Taxii.Begin(db, options, now);
            var head, end := Taxii.Drive(begin, options, now, ticks[..k]), Taxii.Drive(begin, options, now, ticks);
            var report := end.outcome.report;
            && head.Live? && end == Taxii.Advance(head, options, now, ticks[k])
            && TaxiiReports(db, options, now, head, ticks[k], end.db, report)
            && Tells(CursorOf(db, now), db.stored, TaxiiPages(head, options, ticks[..k], ticks[k]), report.cursor,
                     end.db.stored, report.pages, report.objects)
  {
    var begin := Taxii.Begin(db, options, now);
    k := Taxii.LastTurn(begin, options, now, ticks);
    TaxiiHeads(db, options, now, ticks, k);
    TaxiiLastTurn(db, now, ticks[..k], Taxii.Drive(begin, options, now, ticks[..k]), options, ticks[k]);
  }

  /**
   A process that finishes because it was cancelled, met the page bound or was answered with a 304 leaves its last
   loop head's position for the next process, which asks for the window this one would have asked for.
   */
  lemma {:induction false} TaxiiStoppedAsksOn(db: Db, options: Options, now: Stamp, ticks: seq<Taxii.Tick>,
                                              later: Stamp)
    returns (k: nat)
    requires var end := Taxii.Drive(Taxii.Begin(db, options, now), options, now, ticks);
             && Taxii.OutcomeOf(end).Finished?
             && (!end.outcome.report.IsComplete() || end.outcome.report.notModified)
    ensures k < |ticks|
    ensures var begin := Taxii.Begin(db, options, now);
            var end, head := Taxii.Drive(begin, options, now, ticks), Taxii.Drive(begin, options, now, ticks[..k]);
            var again := Taxii.Begin(end.db, options, later);
            && head.Live? && end == Taxii.Advance(head, options, now, ticks[k])
            && (!Taxii.Asks(head, options, ticks[k]) || ticks[k].answer.Unchanged?)
            && Taxii.SameWindow(again.cursor, head.cursor) && again.next == head.next
  {
    k := Taxii.LastTurn(Taxii.Begin(db, options, now), options, now, ticks);
    TaxiiHeads(db, options, now, ticks, k);
  }

  /** The turn's fetch failed, or its page could not be stored. */
  predicate TaxiiFailed(head: Taxii.Run, options: Options, tick: Taxii.Tick)
    requires head.Live?
  {
    Taxii.Asks(head, options, tick)
    && (tick.answer.Refused? || (tick.answer.Got? && tick.answer.page.entries != [] && !tick.ingested))
  }

  /**
   A process that does not finish keeps the records of every page ingested and leaves the row of its last loop head,
   marked failed, with the time, if a failed fetch or ingest could still be written down. Being killed is the only
   ending that is not reported.
   */
  lemma {:induction false} TaxiiBreaks(db: Db, options: Options, now: Stamp, ticks: seq<Taxii.Tick>) returns (k: nat)
    requires Taxii.Drive(Taxii.Begin(db, options, now), options, now, ticks).Done?
    requires !Taxii.OutcomeOf(Taxii.Drive(Taxii.Begin(db, options, now), options, now, ticks)).Finished?
    ensures k < |ticks|
    ensures var begin := Taxii.Begin(db, options, now);
            var head, end := Taxii.Drive(begin, options, now, ticks[..k]), Taxii.Drive(begin, options, now, ticks);
            var tick := ticks[k];
            && head.Live? && end == Taxii.Advance(head, options, now, tick)
            && (if TaxiiFailed(head, options, tick) && tick.persisted
                then end.db.saved.Some? && Failing(end.db.saved.value, head.cursor, now)
                else end.db.saved == head.db.saved)
            && (if TaxiiAnswered(head, options, tick) && tick.ingested
                then end.db.stored == head.db.stored + OnPage(tick.answer.page).records
                else end.db.stored == head.db.stored)
            && (end.outcome.Killed? <==> TaxiiAnswered(head, options, tick) && tick.answer.page.entries != []
                                         && tick.ingested && tick.killed)
  {
    k := Taxii.LastTurn(Taxii.Begin(db, options, now), options, now, ticks);
  }

  // ----- OpenCTI: loop heads -----

  /** Only what can be rendered is stored, and there are no tags. */
  function OnGraphPage(page: OpenCti.Page): Sent {
    Sent(set e | e in page.entries && e !in page.unrenderable, |page.entries|,
         if page.entries == [] then None else page.newest, None)
  }

  function OpenCtiSent(ticks: seq<OpenCti.Tick>): (r: seq<Sent>)
    requires forall i :: 0 <= i < |ticks| ==> ticks[i].answer.Got?
    ensures |r| == |ticks| && forall i :: 0 <= i < |ticks| ==> r[i] == OnGraphPage(ticks[i].answer.page)
  {
    seq(|ticks|, i requires 0 <= i < |ticks| => OnGraphPage(ticks[i].answer.page))
  }

  /** Every turn so far took a page that said there was more and where, and not where it was asked from. */
  ghost predicate OpenCtiTaken(ticks: seq<OpenCti.Tick>) {
    && (forall i :: 0 <= i < |ticks| ==> OpenCtiTakes(ticks[i]))
    && forall i :: 0 < i < |ticks| ==> ticks[i].answer.page.next != ticks[i - 1].answer.page.next
  }

  predicate OpenCtiTakes(tick: OpenCti.Tick) {
    && !tick.cancelled && tick.answer.Got? && tick.answer.page.entries != []
    && tick.answer.page.more && tick.answer.page.next.Some? && tick.ingested && !tick.killed && tick.persisted
  }

  lemma {:induction false} OpenCtiTakesOneMore(ticks: seq<OpenCti.Tick>, tick: OpenCti.Tick)
    requires OpenCtiTaken(ticks) && OpenCtiTakes(tick)
    requires ticks != [] ==> tick.answer.page.next != ticks[|ticks| - 1].answer.page.next
    ensures OpenCtiTaken(ticks + [tick])
  {
    var all := ticks + [tick];
    forall i | 0 < i < |all| ensures all[i].answer.page.next != all[i - 1].answer.page.next {
      assert i < |ticks| ==> all[i] == ticks[i];
      assert all[i - 1] == ticks[i - 1];
    }
  }

  /** The row at a loop head, and the page cursor, which is the last page's and is not in the row. */
  ghost predicate OpenCtiRow(db: Db, now: Stamp, ticks: seq<OpenCti.Tick>, head: OpenCti.Run)
    requires head.Live? && OpenCtiTaken(ticks)
  {
    && head.cursor.nextToken == CursorOf(db, now).nextToken
    && if ticks == [] then head.db == db && head.cursor == CursorOf(db, now) && head.after.None?
       else
         && head.db.saved == Some(head.cursor) && head.cursor.lastStatus == Partial && head.cursor.lastRunAt == now
         && head.after == ticks[|ticks| - 1].answer.page.next
  }

  lemma {:induction false} OpenCtiDrives(run: OpenCti.Run, options: Options, now: Stamp, ticks: seq<OpenCti.Tick>,
                                         n: nat)
    requires n < |ticks|
    ensures var before := OpenCti.Drive(run, options, now, ticks[..n]);
            OpenCti.Drive(run, options, now, ticks[..n + 1]) ==
              if before.Live? then OpenCti.Advance(before, options, now, ticks[n]) else before
    decreases n
  {
    var all, part := ticks[..n + 1], ticks[..n];
    if n > 0 && run.Live? {
      assert all[1..] == ticks[1..][..n] && part[1..] == ticks[1..][..n - 1];
      OpenCtiDrives(OpenCti.Advance(run, options, now, ticks[0]), options, now, ticks[1..], n - 1);
    } else if run.Live? {
      assert all[1..] == [];
    }
  }

  /** The same for OpenCTI. The token and tag in its row stay as they were found. */
  lemma {:induction false} OpenCtiHeads(db: Db, options: Options, now: Stamp, ticks: seq<OpenCti.Tick>, n: nat)
    requires n <= |ticks| && OpenCti.Drive(OpenCti.Begin(db, now), options, now, ticks[..n]).Live?
    ensures var head := OpenCti.Drive(OpenCti.Begin(db, now), options, now, ticks[..n]);
            && OpenCtiTaken(ticks[..n]) && OpenCtiRow(db, now, ticks[..n], head)
            && Tells(CursorOf(db, now), db.stored, OpenCtiSent(ticks[..n]), head.cursor, head.db.stored, head.pages,
                     head.objects)
  {
    var begin := OpenCti.Begin(db, now);
    if n == 0 {
      assert ticks[..0] == [];
    } else {
      OpenCtiDrives(begin, options, now, ticks, n - 1);
      OpenCtiHeads(db, options, now, ticks, n - 1);
      var before := OpenCti.Drive(begin, options, now, ticks[..n - 1]);
      OpenCtiOneMore(db, now, ticks[..n - 1], before, options, ticks[n - 1]);
      assert ticks[..n] == ticks[..n - 1] + [ticks[n - 1]];
    }
  }

  lemma {:induction false} OpenCtiOneMore(db: Db, now: Stamp, ticks: seq<OpenCti.Tick>, head: OpenCti.Run,
                                          options: Options, tick: OpenCti.Tick)
    requires head.Live? && OpenCtiTaken(ticks) && OpenCti.Advance(head, options, now, tick).Live?
    requires OpenCtiRow(db, now, ticks, head)
    requires Tells(CursorOf(db, now), db.stored, OpenCtiSent(ticks), head.cursor, head.db.stored, head.pages,
                   head.objects)
    ensures var next := OpenCti.Advance(head, options, now, tick);
            && OpenCtiTaken(ticks + [tick]) && OpenCtiRow(db, now, ticks + [tick], next)
            && Tells(CursorOf(db, now), db.stored, OpenCtiSent(ticks + [tick]), next.cursor, next.db.stored,
                     next.pages, next.objects)
  {
    var page, next := OnGraphPage(tick.answer.page), OpenCti.Advance(head, options, now, tick);
    OpenCtiTakesOneMore(ticks, tick);
    TellsOneMore(CursorOf(db, now), db.stored, OpenCtiSent(ticks), head.cursor, head.db.stored, head.pages,
                 head.objects, page, next.cursor);
    assert page.records == OpenCti.Rendered(tick.answer.page);
    assert OpenCtiSent(ticks + [tick]) == OpenCtiSent(ticks) + [page];
  }

  // ----- OpenCTI: endings -----

  predicate OpenCtiAnswered(head: OpenCti.Run, options: Options, tick: OpenCti.Tick)
    requires head.Live?
  {
    OpenCti.Asks(head, options, tick) && tick.answer.Got?
  }

  function OpenCtiPages(head: OpenCti.Run, options: Options, ticks: seq<OpenCti.Tick>, tick: OpenCti.Tick): seq<Sent>
    requires head.Live? && forall i :: 0 <= i < |ticks| ==> ticks[i].answer.Got?
  {
    OpenCtiSent(ticks) + if OpenCtiAnswered(head, options, tick) then [OnGraphPage(tick.answer.page)] else []
  }

  /** What a report says of the turn it was made on: a page that says there is more and not where is partial too. */
  ghost predicate OpenCtiReports(db: Db, options: Options, now: Stamp, head: OpenCti.Run, tick: OpenCti.Tick, end: Db,
                                 report: Report)
    requires head.Live?
  {
    && report.cursor.lastStatus ==
         (if OpenCtiAnswered(head, options, tick) && (tick.answer.page.entries == [] || !tick.answer.page.more)
          then Complete else Partial)
    && !report.notModified && report.cursor.lastRunAt == now && end.saved == Some(report.cursor)
    && report.cursor.nextToken == CursorOf(db, now).nextToken
    && (OpenCtiAnswered(head, options, tick) && report.cursor.lastStatus.Partial? ==>
          tick.answer.page.next.None? || tick.answer.page.next == head.after)
  }

  lemma {:induction false} OpenCtiLastReports(db: Db, now: Stamp, head: OpenCti.Run, options: Options,
                                              tick: OpenCti.Tick)
    requires head.Live? && head.cursor.nextToken == CursorOf(db, now).nextToken
    requires OpenCti.OutcomeOf(OpenCti.Advance(head, options, now, tick)).Finished?
    ensures var end := OpenCti.Advance(head, options, now, tick);
            OpenCtiReports(db, options, now, head, tick, end.db, end.outcome.report)
  {
  }

  lemma {:induction false} OpenCtiLastAdds(head: OpenCti.Run, now: Stamp, options: Options, tick: OpenCti.Tick)
    requires head.Live? && OpenCti.OutcomeOf(OpenCti.Advance(head, options, now, tick)).Finished?
    ensures var end := OpenCti.Advance(head, options, now, tick);
            var report := end.outcome.report;
            Adds(head.cursor, head.db.stored, head.pages, head.objects,
                 if OpenCtiAnswered(head, options, tick) then [OnGraphPage(tick.answer.page)] else [], report.cursor,
                 end.db.stored, report.pages, report.objects)
  {
    if OpenCtiAnswered(head, options, tick) {
      var page := OnGraphPage(tick.answer.page);
      assert page.records == OpenCti.Rendered(tick.answer.page);
      assert tick.answer.page.entries == [] ==> head.db.stored + page.records == head.db.stored;
    }
  }

  lemma {:induction false} OpenCtiLastTurn(db: Db, now: Stamp, ticks: seq<OpenCti.Tick>, head: OpenCti.Run,
                                           options: Options, tick: OpenCti.Tick)
    requires head.Live? && OpenCtiTaken(ticks) && head.cursor.nextToken == CursorOf(db, now).nextToken
    requires OpenCti.OutcomeOf(OpenCti.Advance(head, options, now, tick)).Finished?
    requires Tells(CursorOf(db, now), db.stored, OpenCtiSent(ticks), head.cursor, head.db.stored, head.pages,
                   head.objects)
    ensures var end := OpenCti.Advance(head, options, now, tick);
            var report := end.outcome.report;
            && OpenCtiReports(db, options, now, head, tick, end.db, report)
            && Tells(CursorOf(db, now), db.stored, OpenCtiPages(head, options, ticks, tick), report.cursor,
                     end.db.stored, report.pages, report.objects)
  {
    var end := OpenCti.Advance(head, options, now, tick);
    var report := end.outcome.report;
    OpenCtiLastReports(db, now, head, options, tick);
    OpenCtiLastAdds(head, now, options, tick);
    TellsWith(CursorOf(db, now), db.stored, OpenCtiSent(ticks), head.cursor, head.db.stored, head.pages, head.objects,
              if OpenCtiAnswered(head, options, tick) then [OnGraphPage(tick.answer.page)] else [], report.cursor,
              end.db.stored, report.pages, report.objects);
  }

  /** A finished process: its figures tell of every page it was sent, and it is complete after a last or empty one. */
  lemma {:induction false} OpenCtiFinishes(db: Db, options: Options, now: Stamp, ticks: seq<OpenCti.Tick>)
    returns (k: nat)
    requires OpenCti.OutcomeOf(OpenCti.Drive(OpenCti.Begin(db, now), options, now, ticks)).Finished?
    ensures k < |ticks| && OpenCtiTaken(ticks[..k])
    ensures var begin := OpenCti.Begin(db, now);
            var head, end := OpenCti.Drive(begin, options, now, ticks[..k]), OpenCti.Drive(begin, options, now, ticks);
            var report := end.outcome.report;
            && head.Live? && end == OpenCti.Advance(head, options, now, ticks[k])
            && OpenCtiReports(db, options, now, head, ticks[k], end.db, report)
            && Tells(CursorOf(db, now), db.stored, OpenCtiPages(head, options, ticks[..k], ticks[k]), report.cursor,
                     end.db.stored, report.pages, report.objects)
  {
    var begin := OpenCti.Begin(db, now);
    k := OpenCtiEndsAt(begin, options, now, ticks);
    OpenCtiHeads(db, options, now, ticks, k);
    OpenCtiLastTurn(db, now, ticks[..k], OpenCti.Drive(begin, options, now, ticks[..k]), options, ticks[k]);
  }

  lemma {:induction false} OpenCtiEndsAt(run: OpenCti.Run, options: Options, now: Stamp, ticks: seq<OpenCti.Tick>)
    returns (k: nat)
    requires run.Live? && OpenCti.Drive(run, options, now, ticks).Done?
    ensures k < |ticks|
    ensures var head := OpenCti.Drive(run, options, now, ticks[..k]);
            head.Live? && OpenCti.Drive(run, options, now, ticks) == OpenCti.Advance(head, options, now, ticks[k])
    decreases |ticks|
  {
    var step := OpenCti.Advance(run, options, now, ticks[0]);
    if step.Done? {
      k := 0;
    } else {
      var rest := OpenCtiEndsAt(step, options, now, ticks[1..]);
      k := rest + 1;
      assert ticks[..k][1..] == ticks[1..][..rest];
    }
  }

  /** A process cancelled or stopped by the bound leaves its last loop head's mark for the next one to ask from. */
  lemma {:induction false} OpenCtiStoppedAsksOn(db: Db, options: Options, now: Stamp, ticks: seq<OpenCti.Tick>,
                                                k: nat, later: Stamp)
    requires k < |ticks|
    requires var begin := OpenCti.Begin(db, now);
             var head := OpenCti.Drive(begin, options, now, ticks[..k]);
             && head.Live? && !OpenCti.Asks(head, options, ticks[k])
             && OpenCti.Drive(begin, options, now, ticks) == OpenCti.Advance(head, options, now, ticks[k])
    ensures var begin := OpenCti.Begin(db, now);
            var head, end := OpenCti.Drive(begin, options, now, ticks[..k]), OpenCti.Drive(begin, options, now, ticks);
            var again := OpenCti.Begin(end.db, later);
            Taxii.SameWindow(again.cursor, head.cursor) && again.after.None?
  {
    OpenCtiHeads(db, options, now, ticks, k);
  }

  predicate OpenCtiFailed(head: OpenCti.Run, options: Options, tick: OpenCti.Tick)
    requires head.Live?
  {
    OpenCti.Asks(head, options, tick)
    && (tick.answer.Refused? || (tick.answer.Got? && tick.answer.page.entries != [] && !tick.ingested))
  }

  /** The row a page that was stored would leave. */
  ghost predicate OpenCtiPaged(row: Cursor, cursor: Cursor, page: OpenCti.Page, now: Stamp) {
    row == Cursor(page.newest.Or(cursor.addedAfter), cursor.etag, cursor.nextToken, now,
                  if page.more then Partial else Complete, SatAdd(cursor.recordsSeen, |page.entries|))
  }

  /**
   A process that does not finish keeps what it ingested. Its row is that of its last loop head, marked failed if a
   failed fetch or ingest could still be written down, or the row of a stored page when only the note that the server
   was stuck could not be.
   */
  lemma {:induction false} OpenCtiBreaks(db: Db, options: Options, now: Stamp, ticks: seq<OpenCti.Tick>)
    returns (k: nat)
    requires OpenCti.Drive(OpenCti.Begin(db, now), options, now, ticks).Done?
    requires !OpenCti.OutcomeOf(OpenCti.Drive(OpenCti.Begin(db, now), options, now, ticks)).Finished?
    ensures k < |ticks|
    ensures var begin := OpenCti.Begin(db, now);
            var head, end := OpenCti.Drive(begin, options, now, ticks[..k]), OpenCti.Drive(begin, options, now, ticks);
            var tick := ticks[k];
            && head.Live? && end == OpenCti.Advance(head, options, now, tick)
            && (if OpenCtiFailed(head, options, tick) && tick.persisted
                then end.db.saved.Some? && Failing(end.db.saved.value, head.cursor, now)
                else if OpenCtiAnswered(head, options, tick) && tick.answer.page.entries != [] && tick.ingested
                        && !tick.killed && tick.persisted
                then end.db.saved.Some? && OpenCtiPaged(end.db.saved.value, head.cursor, tick.answer.page, now)
                else end.db.saved == head.db.saved)
            && (if OpenCtiAnswered(head, options, tick) && tick.ingested
                then end.db.stored == head.db.stored + OnGraphPage(tick.answer.page).records
                else end.db.stored == head.db.stored)
            && (end.outcome.Killed? <==> OpenCtiAnswered(head, options, tick) && tick.answer.page.entries != []
                                         && tick.ingested && tick.killed)
  {
    k := OpenCtiEndsAt(OpenCti.Begin(db, now), options, now, ticks);
    if ticks[k].answer.Got? {
      assert OnGraphPage(ticks[k].answer.page).records == OpenCti.Rendered(ticks[k].answer.page);
    }
  }
}
