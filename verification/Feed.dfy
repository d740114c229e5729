/**
 What both connectors share: the stored cursor, the store a run writes through, and the server it
 reads from.

 A server is described only by what it holds when it answers. It may do anything unless a lemma
 says it is honest, and an honest server may still grow between any two requests.
 */
module Feed {
  import opened Machine

  /** A timestamp. RFC 3339 in UTC sorts as text, so an integer keeps the order that matters. */
  type Stamp = int
  /** An opaque entity tag. */
  type Tag = nat
  /** A continuation token. An honest server issues positions in what it holds. */
  type Token = nat

  /** One published object, and when the server says it was added. */
  datatype Entry = Entry(id: int, stamp: Stamp)

  datatype Status = Complete | Partial | Failed | NotModified

  datatype Cursor = Cursor(
    addedAfter: Option<Stamp>,
    etag: Option<Tag>,
    nextToken: Option<Token>,
    lastRunAt: Stamp,
    lastStatus: Status,
    recordsSeen: u64)

  /** What survives a crash: the records, and the cursor row if one was ever written. */
  datatype Db = Db(stored: set<Entry>, saved: Option<Cursor>)

  datatype Options = Options(maxPages: u64, useEtag: bool)

  datatype Report = Report(pages: u64, objects: u64, notModified: bool, cursor: Cursor) {
    predicate IsComplete() {
      cursor.lastStatus.Complete? || cursor.lastStatus.NotModified?
    }
  }

  /** How a process ended: with a report, with an error, or killed before it could say anything. */
  datatype Outcome = Finished(report: Report) | Broke | Killed

  /** The cursor a run starts from. */
  function CursorOf(db: Db, now: Stamp): Cursor {
    match db.saved
    case Some(cursor) => cursor
    case None => Cursor(None, None, None, now, Complete, 0)
  }

  function Contents(batch: seq<Entry>): set<Entry> {
    set e | e in batch
  }

  /** The store a run writes through. Whether a transaction commits is the environment's choice. */
  class Store {
    var stored: set<Entry>
    var saved: Option<Cursor>

    constructor ()
      ensures View() == Db({}, None)
    {
      stored, saved := {}, None;
    }

    ghost function View(): Db
      reads this
    {
      Db(stored, saved)
    }

    /** One ingest transaction: every record of the batch, or none. */
    method Ingest(batch: set<Entry>, commits: bool) returns (ok: bool)
      modifies this`stored
      ensures ok == commits
      ensures stored == if ok then old(stored) + batch else old(stored)
    {
      if commits {
        stored := stored + batch;
      }
      return commits;
    }

    /** One cursor transaction. */
    method Persist(cursor: Cursor, commits: bool) returns (ok: bool)
      modifies this`saved
      ensures ok == commits
      ensures saved == if ok then Some(cursor) else old(saved)
    {
      if commits {
        saved := Some(cursor);
      }
      return commits;
    }
  }

  // ----- what an honest server holds and answers -----

  /** Stamps strictly increase. */
  ghost predicate Ordered(held: seq<Entry>) {
    forall i, j :: 0 <= i < j < |held| ==> held[i].stamp < held[j].stamp
  }

  /** Whether an entry lies at or before a high-water mark. */
  predicate Reached(at: Option<Stamp>, e: Entry) {
    at.Some? && e.stamp <= at.value
  }

  /** How many held entries lie at or before a mark. */
  function Position(held: seq<Entry>, at: Option<Stamp>): (n: nat)
    ensures n <= |held|
    ensures forall k :: 0 <= k < n ==> Reached(at, held[k])
    ensures n < |held| ==> !Reached(at, held[n])
  {
    if held == [] || !Reached(at, held[0]) then 0 else 1 + Position(held[1..], at)
  }

  lemma {:induction false} PositionIs(held: seq<Entry>, at: Option<Stamp>, n: nat)
    requires Ordered(held) && n <= |held|
    requires n > 0 ==> Reached(at, held[n - 1])
    requires n < |held| ==> !Reached(at, held[n])
    ensures Position(held, at) == n
  {
    var p := Position(held, at);
    assert p >= n;
  }

  /** Every held entry after `start` and at or before `at` is stored. */
  ghost predicate Covered(held: seq<Entry>, start: Option<Stamp>, stored: set<Entry>, at: Option<Stamp>) {
    forall k :: 0 <= k < |held| && !Reached(start, held[k]) && Reached(at, held[k]) ==> held[k] in stored
  }

  /** Every held entry after `start` is stored. */
  ghost predicate AllCovered(held: seq<Entry>, start: Option<Stamp>, stored: set<Entry>) {
    forall k :: 0 <= k < |held| && !Reached(start, held[k]) ==> held[k] in stored
  }

  /** A mark is where the history started, or the stamp of something the server holds. */
  ghost predicate Anchored(held: seq<Entry>, start: Option<Stamp>, at: Option<Stamp>) {
    at == start || exists i :: 0 <= i < |held| && at == Some(held[i].stamp)
  }

  /** A token names the position just after the entry the mark names. */
  ghost predicate TokenFits(held: seq<Entry>, at: Option<Stamp>, token: Option<Token>) {
    token.Some? ==> 0 < token.value <= |held| && at == Some(held[token.value - 1].stamp)
  }

  /** The position of a run or a stored cursor is one the server and the store bear out. */
  ghost predicate Sound(held: seq<Entry>, start: Option<Stamp>, stored: set<Entry>,
                        at: Option<Stamp>, token: Option<Token>)
  {
    && Ordered(held)
    && Covered(held, start, stored, at)
    && Anchored(held, start, at)
    && TokenFits(held, at, token)
  }

  /** Later contents add entries after the earlier ones. */
  ghost predicate Grows(held: seq<Entry>, later: seq<Entry>) {
    held <= later && Ordered(later)
  }

  /**
   One page as any server in order sends it: the block at `from`, of any size, empty only when nothing
   is left, and `more` exactly when something is.
   */
  ghost predicate Block(held: seq<Entry>, from: nat, entries: seq<Entry>, newest: Option<Stamp>, more: bool) {
    var to := from + |entries|;
    && to <= |held|
    && entries == held[from..to]
    && (more <==> to < |held|)
    && (entries == [] ==> !more)
    && newest == (if entries == [] then None else Some(held[to - 1].stamp))
  }

  /** A page of an honest server: its token, if it has one, names the end of the block. */
  ghost predicate HonestBlock(held: seq<Entry>, from: nat, entries: seq<Entry>,
                              newest: Option<Stamp>, next: Option<Token>, more: bool)
  {
    Block(held, from, entries, newest, more) && (next.Some? ==> next.value == from + |entries|)
  }

  /** Where an honest server starts: after the mark, and no earlier than the token. */
  function StartOf(held: seq<Entry>, at: Option<Stamp>, token: Option<Token>): nat {
    var p := Position(held, at);
    if token.Some? && token.value > p then token.value else p
  }

  /** Growth never disturbs a sound position: everything new lies after everything old. */
  lemma {:induction false} SoundGrows(held: seq<Entry>, later: seq<Entry>, start: Option<Stamp>, stored: set<Entry>,
                                      at: Option<Stamp>, token: Option<Token>)
    requires Sound(held, start, stored, at, token) && Grows(held, later)
    ensures Sound(later, start, stored, at, token)
  {
    forall k | 0 <= k < |later| && !Reached(start, later[k]) && Reached(at, later[k])
      ensures later[k] in stored
    {
      if at != start {
        var i :| 0 <= i < |held| && at == Some(held[i].stamp);
        assert later[i] == held[i];
        assert k <= i;
        assert later[k] == held[k];
      }
    }
    if at != start {
      var i :| 0 <= i < |held| && at == Some(held[i].stamp);
      assert later[i] == held[i];
    }
  }

  /** More records never disturb a sound position. */
  lemma {:induction false} SoundKeeps(held: seq<Entry>, start: Option<Stamp>, stored: set<Entry>, more: set<Entry>,
                                      at: Option<Stamp>, token: Option<Token>)
    requires Sound(held, start, stored, at, token) && stored <= more
    ensures Sound(held, start, more, at, token)
    ensures Sound(held, start, more, at, None)
  {
  }

  /** A sound token and its mark name the same position, so a request asks for just that position. */
  lemma {:induction false} SoundStart(held: seq<Entry>, start: Option<Stamp>, stored: set<Entry>, at: Option<Stamp>,
                                      token: Option<Token>)
    requires Sound(held, start, stored, at, token)
    ensures StartOf(held, at, token) == Position(held, at)
  {
    if token.Some? {
      var t := token.value;
      assert t < |held| ==> held[t - 1].stamp < held[t].stamp;
      PositionIs(held, at, t);
    }
  }

  /** The newest stamp of an honest block names the block's end. */
  lemma {:induction false} BlockEnds(held: seq<Entry>, at: Option<Stamp>, entries: seq<Entry>, newest: Option<Stamp>,
                                     next: Option<Token>, more: bool)
    requires Ordered(held) && entries != []
    requires HonestBlock(held, Position(held, at), entries, newest, next, more)
    ensures Position(held, newest) == Position(held, at) + |entries|
  {
    var to := Position(held, at) + |entries|;
    assert newest == Some(held[to - 1].stamp);
    PositionIs(held, newest, to);
  }

  /** Ingesting an honest block and moving the mark to its newest stamp is sound again. */
  lemma {:induction false} SoundStep(held: seq<Entry>, start: Option<Stamp>, stored: set<Entry>, at: Option<Stamp>,
                                     entries: seq<Entry>, newest: Option<Stamp>, next: Option<Token>, more: bool)
    requires Sound(held, start, stored, at, None) && entries != []
    requires HonestBlock(held, Position(held, at), entries, newest, next, more)
    ensures Sound(held, start, stored + Contents(entries), newest, next)
    ensures Position(held, newest) == Position(held, at) + |entries|
    ensures !more ==> AllCovered(held, start, stored + Contents(entries))
  {
    var from := Position(held, at);
    var to := from + |entries|;
    BlockEnds(held, at, entries, newest, next, more);
    forall k | 0 <= k < |held| && !Reached(start, held[k]) && (Reached(newest, held[k]) || !more)
      ensures held[k] in stored + Contents(entries)
    {
      assert k < to;
      if from <= k {
        assert held[k] == entries[k - from];
      }
    }
  }

  /** An honest empty block means the mark has reached the end. */
  lemma {:induction false} SoundEnd(held: seq<Entry>, start: Option<Stamp>, stored: set<Entry>, at: Option<Stamp>,
                                    newest: Option<Stamp>, next: Option<Token>, more: bool)
    requires Sound(held, start, stored, at, None)
    requires HonestBlock(held, Position(held, at), [], newest, next, more)
    ensures AllCovered(held, start, stored)
  {
    forall k | 0 <= k < |held| && !Reached(start, held[k])
      ensures held[k] in stored
    {
      assert Reached(at, held[k]);
    }
  }

  /** An honest page, asked for from a sound position, and what it does for the run and for the stored row. */
  lemma {:induction false} SoundPage(held: seq<Entry>, start: Option<Stamp>, known: set<Entry>, at: Option<Stamp>,
                                     token: Option<Token>, rowAt: Option<Stamp>, rowToken: Option<Token>,
                                     entries: seq<Entry>, newest: Option<Stamp>, next: Option<Token>, more: bool)
    requires Sound(held, start, known, at, token) && Sound(held, start, known, rowAt, rowToken)
    requires HonestBlock(held, StartOf(held, at, token), entries, newest, next, more)
    ensures var filled := known + Contents(entries);
            && Sound(held, start, filled, rowAt, rowToken)
            && (entries == [] ==> AllCovered(held, start, known))
            && (entries != [] ==>
                  && Sound(held, start, filled, newest, next) && Sound(held, start, filled, newest, None)
                  && Position(held, newest) == Position(held, at) + |entries|
                  && (!more ==> AllCovered(held, start, filled)))
  {
    var filled := known + Contents(entries);
    SoundStart(held, start, known, at, token);
    SoundKeeps(held, start, known, filled, rowAt, rowToken);
    SoundKeeps(held, start, known, known, at, token);
    if entries == [] {
      SoundEnd(held, start, known, at, newest, next, more);
    } else {
      SoundStep(held, start, known, at, entries, newest, next, more);
      SoundKeeps(held, start, filled, filled, newest, next);
    }
  }
}
