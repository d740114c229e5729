/**
 Telling what repeats from what corroborates. Each observation of a record is judged against the earlier
 observations of that record, and a lineage is what the judgements add up to.
 */
module Dedup {
  import opened Machine

  /** A digest. Only equality matters. */
  type Hash = nat

  datatype Observation = Observation(
    recordId: string, sourceObject: nat, contentHash: Hash, publisher: string, recordHash: Hash)

  datatype Verdict = ExactDuplicate | CanonicalDuplicate | SyndicatedCopy | IndependentCorroboration | Update

  datatype Decision = Decision(recordId: string, observation: nat, comparedWith: Option<nat>, verdict: Verdict)

  datatype Lineage = Lineage(decisions: seq<Decision>, corroborators: seq<string>, versions: seq<Hash>) {
    function Corroboration(): nat {
      |corroborators|
    }
  }

  const UNSEEN := Lineage([], [], [])

  /** Where the earliest observation with these bytes is, or the end. */
  function FirstWithBytes(prior: seq<Observation>, bytes: Hash): (i: nat)
    ensures i <= |prior|
    ensures i < |prior| ==> prior[i].contentHash == bytes
    ensures forall j :: 0 <= j < i ==> prior[j].contentHash != bytes
  {
    if prior == [] || prior[0].contentHash == bytes then 0 else 1 + FirstWithBytes(prior[1..], bytes)
  }

  /** Where the earliest observation from this publisher is, or the end. */
  function FirstFrom(prior: seq<Observation>, publisher: string): (i: nat)
    ensures i <= |prior|
    ensures i < |prior| ==> prior[i].publisher == publisher
    ensures forall j :: 0 <= j < i ==> prior[j].publisher != publisher
  {
    if prior == [] || prior[0].publisher == publisher then 0 else 1 + FirstFrom(prior[1..], publisher)
  }

  /** Decide what one observation is, most specific case first. */
  function Judge(o: Observation, prior: seq<Observation>): Decision {
    if prior == [] then Decision(o.recordId, o.sourceObject, None, IndependentCorroboration)
    else
      var b := FirstWithBytes(prior, o.contentHash);
      if b < |prior| then
        Decision(o.recordId, o.sourceObject, Some(prior[b].sourceObject),
                 if prior[b].publisher == o.publisher then ExactDuplicate else SyndicatedCopy)
      else
        var p := FirstFrom(prior, o.publisher);
        if p < |prior| then
          Decision(o.recordId, o.sourceObject, Some(prior[p].sourceObject),
                   if prior[p].recordHash == o.recordHash then CanonicalDuplicate else Update)
        else Decision(o.recordId, o.sourceObject, Some(prior[0].sourceObject), IndependentCorroboration)
  }

  /** A lineage with one more judged observation. */
  function Extend(lineage: Lineage, o: Observation, decision: Decision): Lineage {
    Lineage(
      lineage.decisions + [decision],
      if decision.verdict.IndependentCorroboration? && o.publisher !in lineage.corroborators
      then lineage.corroborators + [o.publisher] else lineage.corroborators,
      if lineage.versions == [] || decision.verdict.Update?
      then lineage.versions + [o.recordHash] else lineage.versions)
  }

  /** What judging these observations of one record in turn adds up to. */
  function LineageOf(observed: seq<Observation>): Lineage {
    if observed == [] then UNSEEN
    else
      var n := |observed| - 1;
      Extend(LineageOf(observed[..n]), observed[n], Judge(observed[n], observed[..n]))
  }

  /** The observations of one record, in the order they arrived. */
  function Of(history: seq<Observation>, id: string): seq<Observation> {
    if history == [] then []
    else
      var n := |history| - 1;
      Of(history[..n], id) + (if history[n].recordId == id then [history[n]] else [])
  }

  lemma {:induction false} Appends(history: seq<Observation>, o: Observation, id: string)
    ensures Of(history + [o], id) == if o.recordId == id then Of(history, id) + [o] else Of(history, id)
    ensures LineageOf(history + [o]) == Extend(LineageOf(history), o, Judge(o, history))
  {
    assert (history + [o])[..|history|] == history;
  }

  /** What is kept about one record is what its own observations add up to. */
  ghost predicate Coherent(seen: map<string, seq<Observation>>, lineages: map<string, Lineage>,
                           history: seq<Observation>, id: string)
  {
    var mine := Of(history, id);
    && (id in seen <==> mine != []) && (id in lineages <==> mine != [])
    && (mine != [] ==> seen[id] == mine && lineages[id] == LineageOf(mine))
  }

  function PriorOf(seen: map<string, seq<Observation>>, id: string): seq<Observation> {
    if id in seen then seen[id] else []
  }

  function LineageIn(lineages: map<string, Lineage>, id: string): Lineage {
    if id in lineages then lineages[id] else UNSEEN
  }

  /** Storing the extended list and lineage for one record keeps every record coherent. */
  lemma {:induction false} StaysCoherent(seen: map<string, seq<Observation>>, lineages: map<string, Lineage>,
                                         history: seq<Observation>, o: Observation, decision: Decision, id: string)
    requires Coherent(seen, lineages, history, o.recordId) && Coherent(seen, lineages, history, id)
    requires decision == Judge(o, PriorOf(seen, o.recordId))
    ensures PriorOf(seen, o.recordId) == Of(history, o.recordId)
    ensures Coherent(seen[o.recordId := PriorOf(seen, o.recordId) + [o]],
                     lineages[o.recordId := Extend(LineageIn(lineages, o.recordId), o, decision)],
                     history + [o], id)
  {
    var prior := PriorOf(seen, o.recordId);
    Appends(history, o, id);
    Appends(prior, o, "");
    assert LineageIn(lineages, o.recordId) == LineageOf(prior);
  }

  /** Judges observations as they arrive. `history` is every one of them, and decides everything else. */
  class Deduplicator {
    var seen: map<string, seq<Observation>>
    var lineages: map<string, Lineage>
    ghost var history: seq<Observation>

    ghost predicate Valid()
      reads this
    {
      forall id :: Coherent(seen, lineages, history, id)
    }

    constructor ()
      ensures Valid() && history == []
    {
      seen, lineages, history := map[], map[], [];
    }

    method Observe(o: Observation) returns (decision: Decision)
      requires Valid()
      modifies this
      ensures Valid() && history == old(history) + [o]
      ensures decision == Judge(o, Of(old(history), o.recordId))
    {
      var prior := PriorOf(seen, o.recordId);
      decision := Judge(o, prior);
      var lineage := LineageIn(lineages, o.recordId);
      if lineage.versions == [] {
        lineage := lineage.(versions := lineage.versions + [o.recordHash]);
      } else if decision.verdict == Update {
        lineage := lineage.(versions := lineage.versions + [o.recordHash]);
      }
      if decision.verdict == IndependentCorroboration && o.publisher !in lineage.corroborators {
        lineage := lineage.(corroborators := lineage.corroborators + [o.publisher]);
      }
      lineage := lineage.(decisions := lineage.decisions + [decision]);
      assert lineage == Extend(LineageIn(lineages, o.recordId), o, decision);
      var seen', lineages' := seen[o.recordId := prior + [o]], lineages[o.recordId := lineage];
      forall id ensures Coherent(seen', lineages', history + [o], id) {
        assert Coherent(seen, lineages, history, o.recordId) && Coherent(seen, lineages, history, id);
        StaysCoherent(seen, lineages, history, o, decision, id);
      }
      assert Coherent(seen, lineages, history, o.recordId);
      seen, lineages, history := seen', lineages', history + [o];
    }

    /** What is known about one record depends only on the observations of that record. */
    method LineageFor(id: string) returns (r: Option<Lineage>)
      requires Valid()
      ensures r == if Of(history, id) == [] then None else Some(LineageOf(Of(history, id)))
    {
      assert Coherent(seen, lineages, history, id);
      return if id in lineages then Some(lineages[id]) else None;
    }
  }

  // ----- what one judgement means -----

  function Members(observed: seq<Observation>): set<Observation> {
    set o | o in observed
  }

  function Publishers(all: set<Observation>): set<string> {
    set o | o in all :: o.publisher
  }

  function Bytes(all: set<Observation>): set<Hash> {
    set o | o in all :: o.contentHash
  }

  /** Two observations that cannot both count: the same bytes, or the same publisher. */
  predicate Linked(o: Observation, p: Observation) {
    o.contentHash == p.contentHash || o.publisher == p.publisher
  }

  /** Neither this observation's bytes nor its publisher has been seen. */
  predicate Novel(o: Observation, seen: set<Observation>) {
    forall p :: p in seen ==> !Linked(o, p)
  }

  /** Evidence whose bytes were seen before. */
  predicate Repeats(verdict: Verdict) {
    verdict.ExactDuplicate? || verdict.SyndicatedCopy?
  }

  /** New bytes from a new publisher corroborate, and nothing else does; only bytes seen before repeat. */
  lemma {:induction false} VerdictMeans(o: Observation, prior: seq<Observation>)
    ensures Judge(o, prior).verdict.IndependentCorroboration? <==> Novel(o, Members(prior))
    ensures Repeats(Judge(o, prior).verdict) <==> o.contentHash in Bytes(Members(prior))
  {
    var b, p := FirstWithBytes(prior, o.contentHash), FirstFrom(prior, o.publisher);
    assert b < |prior| ==> prior[b] in Members(prior);
    assert p < |prior| ==> prior[p] in Members(prior);
  }

  /**
   Among repeats, a duplicate is one whose bytes that publisher sent first; among new bytes from a known
   publisher, an update is one whose record differs from what that publisher said first.
   */
  lemma {:induction false} EarliestDecides(o: Observation, prior: seq<Observation>, i: nat)
    requires i < |prior|
    ensures prior[i].contentHash == o.contentHash
              && (forall j :: 0 <= j < i ==> prior[j].contentHash != o.contentHash) ==>
              && Judge(o, prior).comparedWith == Some(prior[i].sourceObject)
              && (Judge(o, prior).verdict.ExactDuplicate? <==> prior[i].publisher == o.publisher)
    ensures prior[i].publisher == o.publisher && (forall j :: 0 <= j < i ==> prior[j].publisher != o.publisher)
            && (forall j :: 0 <= j < |prior| ==> prior[j].contentHash != o.contentHash) ==>
              && Judge(o, prior).comparedWith == Some(prior[i].sourceObject)
              && (Judge(o, prior).verdict.Update? <==> prior[i].recordHash != o.recordHash)
  {
  }

  // ----- what a lineage counts -----

  /** How many of these observations are novel as they arrive, after `seen`. */
  ghost function NovelCount(observed: seq<Observation>, seen: set<Observation>): nat {
    if observed == [] then 0
    else (if Novel(observed[0], seen) then 1 else 0) + NovelCount(observed[1..], seen + {observed[0]})
  }

  lemma {:induction false} NovelSplits(a: seq<Observation>, b: seq<Observation>, seen: set<Observation>)
    ensures NovelCount(a + b, seen) == NovelCount(a, seen) + NovelCount(b, seen + Members(a))
  {
    if a == [] {
      assert a + b == b && seen + Members(a) == seen;
    } else {
      NovelSplits(a[1..], b, seen + {a[0]});
      assert (a + b)[1..] == a[1..] + b;
      assert a == [a[0]] + a[1..];
      assert seen + {a[0]} + Members(a[1..]) == seen + Members(a);
    }
  }

  lemma {:induction false} NovelAppends(earlier: seq<Observation>, o: Observation)
    ensures NovelCount(earlier + [o], {}) == NovelCount(earlier, {}) + (if Novel(o, Members(earlier)) then 1 else 0)
    ensures Members(earlier + [o]) == Members(earlier) + {o}
  {
    NovelSplits(earlier, [o], {});
    assert {} + Members(earlier) == Members(earlier);
    assert NovelCount([o], Members(earlier)) == if Novel(o, Members(earlier)) then 1 else 0;
  }

  ghost predicate Distinct<T>(s: seq<T>) {
    forall i, j :: 0 <= i < j < |s| ==> s[i] != s[j]
  }

  /** What a lineage over these members looks like. */
  ghost predicate Wellformed(lineage: Lineage, all: set<Observation>) {
    && Distinct(lineage.corroborators)
    && forall i :: 0 <= i < |lineage.corroborators| ==> lineage.corroborators[i] in Publishers(all)
  }

  lemma {:induction false} ExtendCounts(lineage: Lineage, o: Observation, decision: Decision, all: set<Observation>)
    requires Wellformed(lineage, all) && (decision.verdict.IndependentCorroboration? <==> Novel(o, all))
    ensures var more := Extend(lineage, o, decision);
            && Wellformed(more, all + {o})
            && more.Corroboration() == lineage.Corroboration() + (if Novel(o, all) then 1 else 0)
            && more.versions != []
            && |more.decisions| == |lineage.decisions| + 1
  {
    assert Publishers(all + {o}) == Publishers(all) + {o.publisher};
    assert Novel(o, all) ==> o.publisher !in Publishers(all);
  }

  /** What a lineage of these observations counts. */
  ghost predicate CountsRight(observed: seq<Observation>) {
    var lineage := LineageOf(observed);
    && lineage.Corroboration() == NovelCount(observed, {})
    && Wellformed(lineage, Members(observed))
    && |lineage.decisions| == |observed|
    && (lineage.versions == [] <==> observed == [])
  }

  lemma {:induction false} CountsOneMore(earlier: seq<Observation>, last: Observation)
    requires CountsRight(earlier)
    ensures CountsRight(earlier + [last])
  {
    VerdictMeans(last, earlier);
    ExtendCounts(LineageOf(earlier), last, Judge(last, earlier), Members(earlier));
    NovelAppends(earlier, last);
    Appends(earlier, last, "");
  }

  /** Corroboration counts the novel observations, once each: the check for a repeated publisher never fires. */
  lemma {:induction false} LineageCounts(observed: seq<Observation>)
    ensures CountsRight(observed)
  {
    if observed != [] {
      var n := |observed| - 1;
      LineageCounts(observed[..n]);
      CountsOneMore(observed[..n], observed[n]);
      assert observed == observed[..n] + [observed[n]];
    }
  }

  ghost function Image<K>(g: Observation -> K, all: set<Observation>): set<K> {
    set o | o in all :: g(o)
  }

  lemma {:induction false} ImageGrows<K>(g: Observation -> K, all: set<Observation>, o: Observation)
    ensures Image(g, all + {o}) == Image(g, all) + {g(o)}
  {
  }

  /**
   Any labelling that differs on unlinked observations bounds the count; one that also agrees on linked
   observations is what is counted.
   */
  lemma {:induction false} CountsLabels<K>(g: Observation -> K, observed: seq<Observation>, seen: set<Observation>)
    requires forall o, p {:trigger Linked(o, p)} :: g(o) == g(p) ==> Linked(o, p)
    ensures NovelCount(observed, seen) + |Image(g, seen)| <= |Image(g, seen + Members(observed))|
    ensures (forall o, p {:trigger Linked(o, p)} ::
               o in seen + Members(observed) && p in seen + Members(observed) && Linked(o, p) ==> g(o) == g(p)) ==>
              NovelCount(observed, seen) + |Image(g, seen)| == |Image(g, seen + Members(observed))|
  {
    if observed == [] {
      assert seen + Members(observed) == seen;
    } else {
      var o, rest := observed[0], observed[1..];
      assert observed == [o] + rest;
      assert seen + {o} + Members(rest) == seen + Members(observed);
      CountsLabels(g, rest, seen + {o});
      ImageGrows(g, seen, o);
      if g(o) in Image(g, seen) {
        var p :| p in seen && g(p) == g(o);
        assert Linked(o, p);
        assert Image(g, seen + {o}) == Image(g, seen);
      }
    }
  }

  lemma {:induction false} NoneLabelled<K>(g: Observation -> K)
    ensures Image(g, {}) == {}
  {
  }

  /** Never more corroboration than publishers, or than distinct bytes; and the first observation always counts. */
  lemma {:induction false} CorroborationIsBounded(observed: seq<Observation>)
    ensures Distinct(LineageOf(observed).corroborators)
    ensures LineageOf(observed).Corroboration() <= |Publishers(Members(observed))|
    ensures LineageOf(observed).Corroboration() <= |Bytes(Members(observed))|
    ensures observed != [] ==> LineageOf(observed).Corroboration() >= 1
  {
    var all := Members(observed);
    var bytes, publisher := (o: Observation) => o.contentHash, (o: Observation) => o.publisher;
    LineageCounts(observed);
    CountsLabels(bytes, observed, {});
    CountsLabels(publisher, observed, {});
    NoneLabelled(bytes);
    NoneLabelled(publisher);
    assert {} + all == all;
    assert Image(bytes, all) == Bytes(all) && Image(publisher, all) == Publishers(all);
  }

  // ----- re-observing -----

  /** From one lineage to a later one: more decisions, each about bytes seen before, and nothing else. */
  ghost predicate OnlyRepeats(before: Lineage, after: Lineage) {
    && after.corroborators == before.corroborators && after.versions == before.versions
    && |before.decisions| <= |after.decisions|
    && forall i :: |before.decisions| <= i < |after.decisions| ==> Repeats(after.decisions[i].verdict)
  }

  lemma {:induction false} OneMoreRepeat(before: Lineage, earlier: seq<Observation>, o: Observation)
    requires OnlyRepeats(before, LineageOf(earlier)) && o.contentHash in Bytes(Members(earlier))
    ensures OnlyRepeats(before, Extend(LineageOf(earlier), o, Judge(o, earlier)))
  {
    VerdictMeans(o, earlier);
    LineageCounts(earlier);
  }

  /** These bytes are among the first `n` observations. */
  ghost predicate Early(whole: seq<Observation>, n: nat, bytes: Hash)
    requires n <= |whole|
  {
    exists j :: 0 <= j < n && whole[j].contentHash == bytes
  }

  lemma {:induction false} EarlyBytes(whole: seq<Observation>, n: nat, k: nat, bytes: Hash)
    requires n <= k <= |whole| && Early(whole, n, bytes)
    ensures bytes in Bytes(Members(whole[..k]))
  {
    var j :| 0 <= j < n && whole[j].contentHash == bytes;
    assert whole[..k][j] in Members(whole[..k]);
  }

  lemma {:induction false} OneMore(whole: seq<Observation>, k: nat)
    requires k < |whole|
    ensures LineageOf(whole[..k + 1]) == Extend(LineageOf(whole[..k]), whole[k], Judge(whole[k], whole[..k]))
  {
    assert whole[..k + 1][..k] == whole[..k];
  }

  /** The same, one observation after another of a list that starts with the evidence. */
  lemma {:induction false} RepeatsUpTo(whole: seq<Observation>, n: nat, k: nat)
    requires n <= k <= |whole|
    requires forall i :: n <= i < k ==> Early(whole, n, whole[i].contentHash)
    ensures OnlyRepeats(LineageOf(whole[..n]), LineageOf(whole[..k]))
    ensures |LineageOf(whole[..k]).decisions| == |LineageOf(whole[..n]).decisions| + (k - n)
    decreases k
  {
    if n < k {
      RepeatsUpTo(whole, n, k - 1);
      EarlyBytes(whole, n, k - 1, whole[k - 1].contentHash);
      OneMoreRepeat(LineageOf(whole[..n]), whole[..k - 1], whole[k - 1]);
      OneMore(whole, k - 1);
    }
  }

  /**
   Evidence whose bytes were already seen, however often and from whomever it comes again, is a
   duplicate or a copy and changes neither the corroborators nor the versions.
   */
  lemma {:induction false} ReplaysAddNothing(observed: seq<Observation>, again: seq<Observation>)
    requires forall i :: 0 <= i < |again| ==> again[i].contentHash in Bytes(Members(observed))
    ensures OnlyRepeats(LineageOf(observed), LineageOf(observed + again))
    ensures |LineageOf(observed + again).decisions| == |LineageOf(observed).decisions| + |again|
  {
    var whole, n := observed + again, |observed|;
    assert whole[..n] == observed && whole[..|whole|] == whole;
    forall i | n <= i < |whole| ensures Early(whole, n, whole[i].contentHash) {
      assert whole[i] == again[i - n];
      var o :| o in Members(observed) && o.contentHash == again[i - n].contentHash;
      var j :| 0 <= j < n && observed[j] == o;
      assert whole[j] == o;
    }
    RepeatsUpTo(whole, n, |whole|);
  }

  /** The first thing its publisher said of the record. */
  ghost predicate SaidFirst(observed: seq<Observation>, j: nat)
    requires j < |observed|
  {
    forall k :: 0 <= k < j ==> observed[k].publisher != observed[j].publisher
  }

  /** The first observation, or new bytes whose record is not what that publisher said first. */
  ghost predicate AddsVersion(observed: seq<Observation>, i: nat)
    requires i < |observed|
  {
    i == 0
    || ((forall j :: 0 <= j < i ==> observed[j].contentHash != observed[i].contentHash)
        && exists j :: 0 <= j < i && SaidFirst(observed, j)
             && observed[j].publisher == observed[i].publisher && observed[j].recordHash != observed[i].recordHash)
  }

  lemma {:induction false} AddsVersionMeans(earlier: seq<Observation>, o: Observation)
    ensures AddsVersion(earlier + [o], |earlier|) <==> earlier == [] || Judge(o, earlier).verdict.Update?
    ensures forall i :: 0 <= i < |earlier| ==> (AddsVersion(earlier + [o], i) <==> AddsVersion(earlier, i))
  {
    var all, n := earlier + [o], |earlier|;
    forall j | 0 <= j < n ensures SaidFirst(all, j) <==> SaidFirst(earlier, j) {
      assert forall k :: 0 <= k <= j ==> all[k] == earlier[k];
    }
    var b, p := FirstWithBytes(earlier, o.contentHash), FirstFrom(earlier, o.publisher);
    assert forall j :: 0 <= j < n ==> all[j] == earlier[j];
    assert b < n ==> all[b].contentHash == o.contentHash;
    if p < n {
      assert SaidFirst(all, p);
    }
    forall i | 0 <= i < n ensures AddsVersion(all, i) <==> AddsVersion(earlier, i) {
      assert forall k :: 0 <= k <= i ==> all[k] == earlier[k];
    }
  }

  /** The versions kept are what the observations that add one say. */
  lemma {:induction false} VersionsAre(observed: seq<Observation>, h: Hash)
    ensures h in LineageOf(observed).versions <==>
              exists i :: 0 <= i < |observed| && AddsVersion(observed, i) && observed[i].recordHash == h
    ensures LineageOf(observed).versions == [] <==> observed == []
  {
    if observed != [] {
      var n := |observed| - 1;
      var earlier, o := observed[..n], observed[n];
      assert observed == earlier + [o];
      VersionsAre(earlier, h);
      AddsVersionMeans(earlier, o);
      assert forall i :: 0 <= i < n ==> observed[i] == earlier[i];
    }
  }

  /**
   Exactly when the versions kept hold no repeat: when no observation that adds a version says what the
   first observation, or an earlier one that added a version, already said.
   */
  lemma {:induction false} VersionsRepeatExactly(observed: seq<Observation>)
    ensures Distinct(LineageOf(observed).versions) <==>
              forall i, j :: 0 <= i < j < |observed| && AddsVersion(observed, i) && AddsVersion(observed, j) ==>
                observed[i].recordHash != observed[j].recordHash
  {
    if observed != [] {
      var n := |observed| - 1;
      var earlier, o := observed[..n], observed[n];
      assert observed == earlier + [o];
      VersionsRepeatExactly(earlier);
      AddsVersionMeans(earlier, o);
      VersionsAre(earlier, o.recordHash);
      OneMoreVersion(LineageOf(earlier).versions, o.recordHash);
      assert forall i :: 0 <= i < n ==> observed[i] == earlier[i];
    }
  }

  lemma {:induction false} OneMoreVersion(versions: seq<Hash>, h: Hash)
    ensures Distinct(versions + [h]) <==> Distinct(versions) && h !in versions
  {
    var all := versions + [h];
    assert forall i :: 0 <= i < |versions| ==> all[i] == versions[i];
    assert all[|versions|] == h;
  }

  /** An update is measured against the publisher's first version, so the latest content can count as new again. */
  lemma {:induction false} RestatingAnUpdateCountsAgain()
    ensures var told := [Observation("r", 0, 1, "a", 10), Observation("r", 1, 2, "a", 20),
                         Observation("r", 2, 3, "a", 20)];
            LineageOf(told).versions == [10, 20, 20]
  {
    var o0, o1, o2 := Observation("r", 0, 1, "a", 10), Observation("r", 1, 2, "a", 20), Observation("r", 2, 3, "a", 20);
    assert [o0, o1, o2][..2] == [o0, o1] && [o0, o1][..1] == [o0] && [o0][..0] == [];
    assert LineageOf([o0]).versions == [10];
    assert [o0, o1][1..] == [o1] && [o1][1..] == [];
    assert Judge(o1, [o0]).verdict == Update;
    assert LineageOf([o0, o1]).versions == [10, 20];
    assert Judge(o2, [o0, o1]).verdict == Update;
  }

  // ----- when arrival order does not matter -----

  /** Every observation's bytes come from one publisher, or its publisher sent nothing else. */
  ghost predicate OneSided(all: set<Observation>) {
    forall o, p, q | o in all && p in all && q in all ::
      p.contentHash == o.contentHash && q.publisher == o.publisher ==>
        p.publisher == o.publisher || q.contentHash == o.contentHash
  }

  /** The corroboration counted is the same for every arrival order. */
  ghost predicate OrderFree(observed: seq<Observation>) {
    forall a, b :: multiset(a) == multiset(observed) && multiset(b) == multiset(observed) ==>
      LineageOf(a).Corroboration() == LineageOf(b).Corroboration()
  }

  /** What names an observation's group: its bytes when several publishers sent them, else its publisher. */
  datatype Group = ByBytes(bytes: Hash) | ByPublisher(publisher: string)

  ghost function GroupOf(all: set<Observation>, o: Observation): Group {
    if exists p :: p in all && p.contentHash == o.contentHash && p.publisher != o.publisher
    then ByBytes(o.contentHash) else ByPublisher(o.publisher)
  }

  /** When the evidence is one-sided, linked observations are in one group. */
  lemma {:induction false} LinkedIsGrouped(all: set<Observation>, o: Observation, p: Observation)
    requires OneSided(all) && o in all && p in all && Linked(o, p)
    ensures GroupOf(all, o) == GroupOf(all, p)
  {
  }

  lemma {:induction false} SameMembers(observed: seq<Observation>, a: seq<Observation>)
    requires multiset(a) == multiset(observed)
    ensures Members(a) == Members(observed)
  {
    forall o ensures o in a <==> o in observed {
      assert o in a <==> o in multiset(a);
      assert o in observed <==> o in multiset(observed);
    }
  }

  /** With one-sided evidence any arrival order counts the groups. */
  lemma {:induction false} OneSidedCountsGroups(observed: seq<Observation>, a: seq<Observation>)
    requires OneSided(Members(observed)) && multiset(a) == multiset(observed)
    ensures LineageOf(a).Corroboration()
         == |Image((o: Observation) => GroupOf(Members(observed), o), Members(observed))|
  {
    var all := Members(observed);
    var group := (o: Observation) => GroupOf(all, o);
    SameMembers(observed, a);
    LineageCounts(a);
    assert {} + all == all;
    forall o, p | o in all && p in all && Linked(o, p) ensures group(o) == group(p) {
      LinkedIsGrouped(all, o, p);
    }
    CountsLabels(group, a, {});
    NoneLabelled(group);
  }

  /** The middle of a chain of three hides its ends by arriving first, and not by arriving last. */
  lemma {:induction false} ChainOrderMatters(left: Observation, middle: Observation, right: Observation,
                                             rest: seq<Observation>)
    requires left.contentHash == middle.contentHash && left.publisher != middle.publisher
    requires right.publisher == middle.publisher && right.contentHash != middle.contentHash
    ensures NovelCount([left, right, middle] + rest, {}) == NovelCount([middle, left, right] + rest, {}) + 1
  {
    var early, late := [middle, left, right], [left, right, middle];
    NovelSplits(early, rest, {});
    NovelSplits(late, rest, {});
    assert {} + Members(early) == {middle, left, right} == {} + Members(late);
    assert early[1..] == [left, right] && late[1..] == [right, middle];
    assert [left, right][1..] == [right] && [right, middle][1..] == [middle];
    assert Linked(left, middle) && Linked(right, middle) && Linked(middle, left) && !Linked(right, left);
    assert {} + {middle} == {middle} && {middle} + {left} == {middle, left};
    assert {} + {left} == {left} && {left} + {right} == {left, right};
    assert NovelCount([right], {middle, left}) == 0 && NovelCount([middle], {left, right}) == 0;
    assert NovelCount([left, right], {middle}) == 0 && NovelCount([right, middle], {left}) == 1;
  }

  /** Two arrival orders of evidence that is not one-sided, counted differently. */
  lemma {:induction false} ChainedIsNotOrderFree(observed: seq<Observation>, left: Observation, middle: Observation,
                                                 right: Observation)
    requires left in observed && middle in observed && right in observed
    requires left.contentHash == middle.contentHash && left.publisher != middle.publisher
    requires right.publisher == middle.publisher && right.contentHash != middle.contentHash
    ensures !OrderFree(observed)
  {
    var rest := Rearranged(observed, left, middle, right);
    var early, late := [middle, left, right] + rest, [left, right, middle] + rest;
    ChainOrderMatters(left, middle, right, rest);
    CountsDiffer(observed, early, late);
  }

  lemma {:induction false} CountsDiffer(observed: seq<Observation>, a: seq<Observation>, b: seq<Observation>)
    requires multiset(a) == multiset(observed) && multiset(b) == multiset(observed)
    requires NovelCount(a, {}) != NovelCount(b, {})
    ensures !OrderFree(observed)
  {
    LineageCounts(a);
    LineageCounts(b);
  }

  lemma {:induction false} Rearranged(observed: seq<Observation>, left: Observation, middle: Observation,
                                      right: Observation)
    returns (rest: seq<Observation>)
    requires left in observed && middle in observed && right in observed
    requires left != middle && middle != right && left != right
    ensures multiset([middle, left, right] + rest) == multiset(observed)
    ensures multiset([left, right, middle] + rest) == multiset(observed)
  {
    var x := Without(observed, middle);
    var y := Without(x, left);
    rest := Without(y, right);
    assert multiset([middle, left, right]) == multiset{middle} + multiset{left} + multiset{right};
    assert multiset([left, right, middle]) == multiset{middle} + multiset{left} + multiset{right};
  }

  /** One occurrence removed. */
  ghost function Without(s: seq<Observation>, o: Observation): (r: seq<Observation>)
    requires o in s
    ensures multiset(s) == multiset{o} + multiset(r)
    ensures forall x :: x in s && x != o ==> x in r
  {
    if s[0] == o then
      assert s == [s[0]] + s[1..];
      s[1..]
    else
      assert s == [s[0]] + s[1..];
      [s[0]] + Without(s[1..], o)
  }

  /**
   Arrival order does not change the corroboration counted exactly when the evidence is one-sided. The
   documentation promises it without the condition.
   */
  lemma {:induction false} OrderFreeExactly(observed: seq<Observation>)
    ensures OrderFree(observed) <==> OneSided(Members(observed))
  {
    if OneSided(Members(observed)) {
      forall a, b | multiset(a) == multiset(observed) && multiset(b) == multiset(observed)
        ensures LineageOf(a).Corroboration() == LineageOf(b).Corroboration()
      {
        OneSidedCountsGroups(observed, a);
        OneSidedCountsGroups(observed, b);
      }
    } else {
      var all := Members(observed);
      var o, p, q :| o in all && p in all && q in all
                  && p.contentHash == o.contentHash && q.publisher == o.publisher
                  && p.publisher != o.publisher && q.contentHash != o.contentHash;
      ChainedIsNotOrderFree(observed, p, o, q);
    }
  }

  /** Each publisher offers one byte string: the count is the number of distinct byte strings. */
  lemma {:induction false} OneOfferEach(observed: seq<Observation>)
    requires forall o, p | o in Members(observed) && p in Members(observed) ::
               o.publisher == p.publisher ==> o.contentHash == p.contentHash
    ensures LineageOf(observed).Corroboration() == |Bytes(Members(observed))|
  {
    var all := Members(observed);
    var bytes := (o: Observation) => o.contentHash;
    LineageCounts(observed);
    assert {} + all == all && Image(bytes, all) == Bytes(all);
    CountsLabels(bytes, observed, {});
    NoneLabelled(bytes);
  }

  /** Each byte string has one publisher: the count is the number of publishers. */
  lemma {:induction false} OnePublisherEach(observed: seq<Observation>)
    requires forall o, p | o in Members(observed) && p in Members(observed) ::
               o.contentHash == p.contentHash ==> o.publisher == p.publisher
    ensures LineageOf(observed).Corroboration() == |Publishers(Members(observed))|
  {
    var all := Members(observed);
    var publisher := (o: Observation) => o.publisher;
    LineageCounts(observed);
    assert {} + all == all && Image(publisher, all) == Publishers(all);
    CountsLabels(publisher, observed, {});
    NoneLabelled(publisher);
  }
}
