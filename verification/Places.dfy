/** Places of a list, picked out in order by a flag. */
module Places {
  ghost predicate Lists(at: seq<nat>, i: nat) {
    exists k :: 0 <= k < |at| && at[k] == i
  }

  /** The places from `from` on with a flag, in order. */
  function Where(flags: seq<bool>, want: bool, from: nat): (at: seq<nat>)
    requires from <= |flags|
    decreases |flags| - from
  {
    if from == |flags| then [] else (if flags[from] == want then [from] else []) + Where(flags, want, from + 1)
  }

  /** Increasing places, all with the flag, and all there are. */
  ghost predicate Selects(flags: seq<bool>, want: bool, from: nat, at: seq<nat>) {
    && (forall k :: 0 <= k < |at| ==> from <= at[k] < |flags| && flags[at[k]] == want)
    && (forall a, b :: 0 <= a < b < |at| ==> at[a] < at[b])
    && (forall i :: from <= i < |flags| && flags[i] == want ==> Lists(at, i))
  }

  lemma {:induction false} ListedTogether(a: seq<nat>, b: seq<nat>, i: nat)
    ensures Lists(a + b, i) <==> Lists(a, i) || Lists(b, i)
  {
    if Lists(a, i) {
      var k :| 0 <= k < |a| && a[k] == i;
      assert (a + b)[k] == i;
    }
    if Lists(b, i) {
      var k :| 0 <= k < |b| && b[k] == i;
      assert (a + b)[|a| + k] == i;
    }
  }

  lemma {:induction false} SelectsOneMore(flags: seq<bool>, want: bool, from: nat, rest: seq<nat>)
    requires from < |flags| && Selects(flags, want, from + 1, rest)
    ensures flags[from] != want ==> Selects(flags, want, from, rest)
    ensures flags[from] == want ==> Selects(flags, want, from, [from] + rest)
  {
    var at := [from] + rest;
    assert forall k :: 0 <= k < |at| ==> at[k] == if k == 0 then from else rest[k - 1];
    forall i | from <= i < |flags| && flags[i] == want && flags[from] == want ensures Lists(at, i) {
      assert [from][0] == from && (i > from ==> Lists(rest, i));
      ListedTogether([from], rest, i);
    }
  }

  lemma {:induction false} WhereSelects(flags: seq<bool>, want: bool, from: nat)
    requires from <= |flags|
    ensures Selects(flags, want, from, Where(flags, want, from))
    decreases |flags| - from
  {
    if from < |flags| {
      WhereSelects(flags, want, from + 1);
      SelectsOneMore(flags, want, from, Where(flags, want, from + 1));
      assert [] + Where(flags, want, from + 1) == Where(flags, want, from + 1);
    }
  }

  /** One flag more at the end. */
  lemma {:induction false} SelectsAtEnd(flags: seq<bool>, want: bool, at: seq<nat>, flag: bool)
    requires Selects(flags, want, 0, at)
    ensures Selects(flags + [flag], want, 0, if flag == want then at + [|flags|] else at)
  {
    var n, all := |flags|, flags + [flag];
    assert forall i :: 0 <= i < n ==> all[i] == flags[i];
    var more := if flag == want then at + [n] else at;
    assert forall k :: 0 <= k < |more| ==> more[k] == if k < |at| then at[k] else n;
    forall i | 0 <= i <= n && all[i] == want ensures Lists(more, i) {
      if i < n {
        assert Lists(at, i);
      }
      ListedTogether(at, [n], i);
      assert [n][0] == n;
    }
  }

  /** Some of a list, read off at the flagged places, in order. */
  ghost predicate ReadOff<T(!new)>(flags: seq<bool>, list: seq<T>, at: seq<nat>, read: seq<T>) {
    && |flags| == |list| && Selects(flags, true, 0, at) && |read| == |at|
    && forall k :: 0 <= k < |at| ==> read[k] == list[at[k]]
  }

  lemma {:induction false} ReadOffMore<T(!new)>(flags: seq<bool>, list: seq<T>, at: seq<nat>, read: seq<T>,
                                                flag: bool, x: T)
    requires ReadOff(flags, list, at, read)
    ensures flag ==> ReadOff(flags + [flag], list + [x], at + [|flags|], read + [x])
    ensures !flag ==> ReadOff(flags + [flag], list + [x], at, read)
  {
    SelectsAtEnd(flags, true, at, flag);
    assert forall i :: 0 <= i < |list| ==> (list + [x])[i] == list[i];
    assert forall k :: 0 <= k < |at| ==> (at + [|flags|])[k] == at[k] && (read + [x])[k] == read[k];
  }
}
