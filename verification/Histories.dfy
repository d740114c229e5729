/** What a history of observations leaves behind, in the order it happened. */
module Histories {
  import opened Machine
  import opened Dedup
  import opened Places

  /** A decision names the observation it is about and the one it was compared with. */
  lemma {:induction false} DecisionNames(o: Observation, prior: seq<Observation>)
    ensures Judge(o, prior).recordId == o.recordId && Judge(o, prior).observation == o.sourceObject
    ensures Judge(o, prior).comparedWith.None? <==> prior == []
    ensures prior != [] && Novel(o, Members(prior)) ==> Judge(o, prior).comparedWith == Some(prior[0].sourceObject)
  {
    VerdictMeans(o, prior);
  }

  /** Every observation has its decision, in the order they were offered, made against those before it. */
  lemma {:induction false} DecisionsInOrder(observed: seq<Observation>, i: nat)
    requires i < |observed|
    ensures |LineageOf(observed).decisions| == |observed|
    ensures LineageOf(observed).decisions[i] == Judge(observed[i], observed[..i])
  {
    var n := |observed| - 1;
    LineageCounts(observed);
    LineageCounts(observed[..n]);
    if i < n {
      DecisionsInOrder(observed[..n], i);
      assert observed[..n][..i] == observed[..i];
    }
  }

  function About(history: seq<Observation>, id: string): (r: seq<bool>)
    ensures |r| == |history| && forall i :: 0 <= i < |history| ==> r[i] == (history[i].recordId == id)
  {
    seq(|history|, i requires 0 <= i < |history| => history[i].recordId == id)
  }

  /** The observations of a record are those of the history that name it, in its order. */
  lemma {:induction false} OfInOrder(history: seq<Observation>, id: string) returns (at: seq<nat>)
    ensures ReadOff(About(history, id), history, at, Of(history, id))
  {
    if history == [] {
      at := [];
    } else {
      var n := |history| - 1;
      var rest := OfInOrder(history[..n], id);
      at := OfOneMore(history[..n], history[n], id, rest);
      assert history == history[..n] + [history[n]];
    }
  }

  lemma {:induction false} OfOneMore(earlier: seq<Observation>, o: Observation, id: string, rest: seq<nat>)
    returns (at: seq<nat>)
    requires ReadOff(About(earlier, id), earlier, rest, Of(earlier, id))
    ensures ReadOff(About(earlier + [o], id), earlier + [o], at, Of(earlier + [o], id))
  {
    ReadOffMore(About(earlier, id), earlier, rest, Of(earlier, id), o.recordId == id, o);
    assert About(earlier + [o], id) == About(earlier, id) + [o.recordId == id];
    Appends(earlier, o, id);
    at := if o.recordId == id then rest + [|earlier|] else rest;
  }

  /** Which observations were novel when they came. */
  ghost function NovelOnes(observed: seq<Observation>): (r: seq<bool>)
    ensures |r| == |observed|
    ensures forall i :: 0 <= i < |observed| ==> r[i] == Novel(observed[i], Members(observed[..i]))
  {
    seq(|observed|, i requires 0 <= i < |observed| => Novel(observed[i], Members(observed[..i])))
  }

  function PublishersOf(observed: seq<Observation>): (r: seq<string>)
    ensures |r| == |observed| && forall i :: 0 <= i < |observed| ==> r[i] == observed[i].publisher
  {
    seq(|observed|, i requires 0 <= i < |observed| => observed[i].publisher)
  }

  /** The corroborators are the publishers of the novel observations, in the order they came. */
  lemma {:induction false} CorroboratorsInOrder(observed: seq<Observation>) returns (at: seq<nat>)
    ensures ReadOff(NovelOnes(observed), PublishersOf(observed), at, LineageOf(observed).corroborators)
  {
    if observed == [] {
      at := [];
    } else {
      var n := |observed| - 1;
      var rest := CorroboratorsInOrder(observed[..n]);
      at := CorroboratorsOneMore(observed[..n], observed[n], rest);
      assert observed == observed[..n] + [observed[n]];
    }
  }

  lemma {:induction false} CorroboratorsOneMore(earlier: seq<Observation>, o: Observation, rest: seq<nat>)
    returns (at: seq<nat>)
    requires ReadOff(NovelOnes(earlier), PublishersOf(earlier), rest, LineageOf(earlier).corroborators)
    ensures ReadOff(NovelOnes(earlier + [o]), PublishersOf(earlier + [o]), at, LineageOf(earlier + [o]).corroborators)
  {
    var novel := Novel(o, Members(earlier));
    ReadOffMore(NovelOnes(earlier), PublishersOf(earlier), rest, LineageOf(earlier).corroborators, novel, o.publisher);
    NovelFlags(earlier, o);
    NovelJoins(earlier, o);
    assert PublishersOf(earlier + [o]) == PublishersOf(earlier) + [o.publisher];
    assert LineageOf(earlier).corroborators + [] == LineageOf(earlier).corroborators;
    at := if novel then rest + [|earlier|] else rest;
  }

  lemma {:induction false} NovelFlags(earlier: seq<Observation>, o: Observation)
    ensures NovelOnes(earlier + [o]) == NovelOnes(earlier) + [Novel(o, Members(earlier))]
  {
    var all := earlier + [o];
    assert all[..|earlier|] == earlier;
    forall i | 0 <= i < |earlier| ensures NovelOnes(all)[i] == NovelOnes(earlier)[i] {
      assert all[..i] == earlier[..i];
    }
  }

  /** A novel observation's publisher joins at the end; any other leaves the list alone. */
  lemma {:induction false} NovelJoins(earlier: seq<Observation>, o: Observation)
    ensures LineageOf(earlier + [o]).corroborators
         == LineageOf(earlier).corroborators + if Novel(o, Members(earlier)) then [o.publisher] else []
  {
    Appends(earlier, o, "");
    VerdictMeans(o, earlier);
    LineageCounts(earlier);
    if Novel(o, Members(earlier)) {
      assert o.publisher !in Publishers(Members(earlier));
    }
  }

  ghost function Adding(observed: seq<Observation>): (r: seq<bool>)
    ensures |r| == |observed| && forall i :: 0 <= i < |observed| ==> r[i] == AddsVersion(observed, i)
  {
    seq(|observed|, i requires 0 <= i < |observed| => AddsVersion(observed, i))
  }

  function RecordsOf(observed: seq<Observation>): (r: seq<Hash>)
    ensures |r| == |observed| && forall i :: 0 <= i < |observed| ==> r[i] == observed[i].recordHash
  {
    seq(|observed|, i requires 0 <= i < |observed| => observed[i].recordHash)
  }

  /** The versions are what the observations that add one say, oldest first. */
  lemma {:induction false} VersionsInOrder(observed: seq<Observation>) returns (at: seq<nat>)
    ensures ReadOff(Adding(observed), RecordsOf(observed), at, LineageOf(observed).versions)
  {
    if observed == [] {
      at := [];
    } else {
      var n := |observed| - 1;
      var rest := VersionsInOrder(observed[..n]);
      at := VersionsOneMore(observed[..n], observed[n], rest);
      assert observed == observed[..n] + [observed[n]];
    }
  }

  lemma {:induction false} VersionsOneMore(earlier: seq<Observation>, o: Observation, rest: seq<nat>)
    returns (at: seq<nat>)
    requires ReadOff(Adding(earlier), RecordsOf(earlier), rest, LineageOf(earlier).versions)
    ensures ReadOff(Adding(earlier + [o]), RecordsOf(earlier + [o]), at, LineageOf(earlier + [o]).versions)
  {
    var adds := AddsVersion(earlier + [o], |earlier|);
    ReadOffMore(Adding(earlier), RecordsOf(earlier), rest, LineageOf(earlier).versions, adds, o.recordHash);
    AddsVersionMeans(earlier, o);
    assert Adding(earlier + [o]) == Adding(earlier) + [adds];
    assert RecordsOf(earlier + [o]) == RecordsOf(earlier) + [o.recordHash];
    VersionsAre(earlier, 0);
    Appends(earlier, o, "");
    at := if adds then rest + [|earlier|] else rest;
  }
}
